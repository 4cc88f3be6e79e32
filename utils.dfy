/** The line breaking of `draw_multiline` in utils.py: the text is cut
    character by character into lines no wider than the limit, greedily. */
module Multiline {
  import opened Common

  const DefaultMaxWidth: int := 800

  /** A line is acceptable when it fits or holds at most one character
      (a character wider than the limit still gets a line of its own). */
  predicate FitsOrChar(l: string, width: string -> int, maxW: int)
  {
    width(l) <= maxW || |l| <= 1
  }

  /** The break after `lines[k]` was forced: the next line starts with a
      character that would have made `lines[k]` too wide. */
  predicate ForcedAt(lines: seq<string>, k: int, width: string -> int, maxW: int)
    requires 0 <= k < |lines| - 1
  {
    lines[k + 1] != "" && width(lines[k] + [lines[k + 1][0]]) > maxW
  }

  predicate AllForced(lines: seq<string>, width: string -> int, maxW: int)
  {
    forall k :: 0 <= k < |lines| - 1 ==> ForcedAt(lines, k, width, maxW)
  }

  /** Emitting `cur` because its next character does not fit keeps every
      break forced. */
  lemma EmitKeepsForced(lines: seq<string>, cur: string, width: string -> int, maxW: int)
    requires AllForced(lines, width, maxW)
    requires lines != [] ==> cur != "" && width(lines[|lines| - 1] + [cur[0]]) > maxW
    ensures AllForced(lines + [cur], width, maxW)
  {
    var ls := lines + [cur];
    forall k | 0 <= k < |ls| - 1
      ensures ForcedAt(ls, k, width, maxW)
    {
      if k < |lines| - 1 {
        assert ForcedAt(lines, k, width, maxW);
      }
    }
  }

  /** The loop of `draw_multiline` that fills `lines`; `width` is the
      font's pixel width of a string. Nothing is lost or reordered, every
      line fits or is one character, every break is forced (the line with
      the next line's first character would not fit), and only the first
      line can be empty, exactly when the first character alone is too wide. */
  method BreakLines(text: string, width: string -> int, maxW: int) returns (lines: seq<string>)
    ensures Concat(lines) == text
    ensures forall l :: l in lines ==> FitsOrChar(l, width, maxW)
    ensures AllForced(lines, width, maxW)
    ensures forall k :: 1 <= k < |lines| ==> lines[k] != ""
    ensures text == "" <==> lines == []
    ensures lines != [] ==> lines[|lines| - 1] != ""
    ensures text != "" ==> (lines[0] == "" <==> width([text[0]]) > maxW)
  {
    lines := [];
    var cur := "";
    for i := 0 to |text|
      invariant Concat(lines) + cur == text[..i]
      invariant forall l :: l in lines ==> FitsOrChar(l, width, maxW)
      invariant FitsOrChar(cur, width, maxW)
      invariant AllForced(lines, width, maxW)
      invariant forall k :: 1 <= k < |lines| ==> lines[k] != ""
      invariant lines != [] ==> cur != "" && width(lines[|lines| - 1] + [cur[0]]) > maxW
      invariant i > 0 <==> cur != ""
      invariant i == 0 ==> lines == []
      invariant i > 0 && width([text[0]]) > maxW ==> lines != [] && lines[0] == ""
      invariant i > 0 && width([text[0]]) <= maxW && lines != [] ==> lines[0] != ""
    {
      var ch := text[i];
      var cand := cur + [ch];
      assert text[..i + 1] == text[..i] + [ch];
      assert i == 0 ==> cand == [text[0]];
      if width(cand) <= maxW {
        cur := cand;
      } else {
        ConcatSnoc(lines, cur);
        EmitKeepsForced(lines, cur, width, maxW);
        assert lines != [] ==> (lines + [cur])[0] == lines[0];
        lines := lines + [cur];
        cur := [ch];
      }
    }
    assert text[..|text|] == text;
    if cur != "" {
      ConcatSnoc(lines, cur);
      EmitKeepsForced(lines, cur, width, maxW);
      lines := lines + [cur];
    }
  }
}
