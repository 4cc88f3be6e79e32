/** The story viewer of story.py: a sidebar of island buttons, a greedy word
    wrapper for the selected story, and a scrollable text panel whose
    offset is clamped to the wrapped text. */
module Stories {
  import opened Common
  import opened Pygame

  const ScreenW: int := 960
  const ScreenH: int := 540
  const SidebarW: int := 260
  const Margin: int := 14
  const ContentW: int := ScreenW - SidebarW - Margin * 3
  const ContentH: int := ScreenH - Margin * 2
  /** The first button's top edge, the step between buttons and their height. */
  const ButtonTop: int := Margin + 42
  const ButtonStep: int := 48
  const ButtonH: int := 42
  /** Scroll steps for the arrow keys, the page keys and the mouse wheel. */
  const LineScroll: int := 24
  const PageScroll: int := 240
  const WheelScroll: int := 36
  /** The padding the text panel keeps inside its frame. */
  const TextInset: int := 24

  // -----------------------------------------------------------------------
  // wrap_text
  // -----------------------------------------------------------------------

  /** The lines emitted so far and the line being filled (`cur`). */
  datatype Fill = Fill(lines: seq<string>, cur: string)

  /** One word through the greedy loop: append it to `cur` when the result
      still fits, otherwise emit `cur` (when non-empty) and start over with
      the word. `width` is the font's pixel width of a string. */
  function FillWord(f: Fill, w: string, width: string -> int, maxW: int): Fill
  {
    var test := if f.cur == "" then w else f.cur + " " + w;
    if width(test) <= maxW then Fill(f.lines, test)
    else Fill(if f.cur != "" then f.lines + [f.cur] else f.lines, w)
  }

  /** The greedy loop over the words of one line. */
  function Greedy(words: seq<string>, width: string -> int, maxW: int): Fill
    decreases |words|
  {
    if words == [] then Fill([], "")
    else FillWord(Greedy(words[..|words| - 1], width, maxW), words[|words| - 1], width, maxW)
  }

  /** The lines one raw line (a piece between newlines) wraps to. */
  function WrapLine(raw: string, width: string -> int, maxW: int): seq<string>
  {
    if Strip(raw) == "" then [""]
    else
      var f := Greedy(Split(raw, ' '), width, maxW);
      f.lines + (if f.cur != "" then [f.cur] else [])
  }

  /** The lines of several raw lines, in order. */
  function WrapAll(raws: seq<string>, width: string -> int, maxW: int): seq<string>
    decreases |raws|
  {
    if raws == [] then []
    else WrapAll(raws[..|raws| - 1], width, maxW) + WrapLine(raws[|raws| - 1], width, maxW)
  }

  /** `wrap_text(text, font, max_width)`. */
  function WrapText(text: string, width: string -> int, maxW: int): seq<string>
  {
    WrapAll(Split(text, '\n'), width, maxW)
  }

  /** A line is acceptable when it fits or is a single word. */
  predicate FitsOrWord(l: string, width: string -> int, maxW: int)
  {
    width(l) <= maxW || ' ' !in l
  }

  /** The text with its spaces taken out. */
  function Letters(s: string): string
    decreases |s|
  {
    if s == [] then []
    else Letters(s[..|s| - 1]) + (if s[|s| - 1] == ' ' then [] else [s[|s| - 1]])
  }

  lemma {:induction false} LettersAppend(a: string, b: string)
    ensures Letters(a + b) == Letters(a) + Letters(b)
    decreases |b|
  {
    if b == [] {
      assert a + b == a;
    } else {
      var b' := b[..|b| - 1];
      assert (a + b)[..|a + b| - 1] == a + b';
      LettersAppend(a, b');
    }
  }

  lemma {:induction false} LettersOfNonSpace(s: string, k: int)
    requires 0 <= k < |s| && s[k] != ' '
    ensures Letters(s) != []
    decreases |s|
  {
    if k < |s| - 1 {
      LettersOfNonSpace(s[..|s| - 1], k);
    }
  }

  /** Joining with spaces and gluing together keep the same letters. */
  lemma {:induction false} JoinLetters(ws: seq<string>)
    requires |ws| >= 1
    ensures Letters(Join(ws, ' ')) == Letters(Concat(ws))
    decreases |ws|
  {
    if |ws| == 1 {
      assert ws[1..] == [];
      assert Concat(ws) == ws[0] + [];
      assert ws[0] + [] == ws[0];
    } else {
      JoinLetters(ws[1..]);
      LettersAppend(ws[0] + [' '], Join(ws[1..], ' '));
      LettersAppend(ws[0], [' ']);
      assert Letters([' ']) == Letters([]) + [];
      LettersAppend(ws[0], Concat(ws[1..]));
    }
  }

  /** Every emitted line is non-empty and fits or is one word, and so is
      the line being filled, when the words hold no space. */
  lemma {:induction false} GreedyShape(words: seq<string>, width: string -> int, maxW: int)
    requires forall w :: w in words ==> ' ' !in w
    ensures forall l :: l in Greedy(words, width, maxW).lines ==> l != "" && FitsOrWord(l, width, maxW)
    ensures FitsOrWord(Greedy(words, width, maxW).cur, width, maxW)
    decreases |words|
  {
    if words != [] {
      var ws := words[..|words| - 1];
      assert forall w :: w in ws ==> w in words;
      GreedyShape(ws, width, maxW);
      assert words[|words| - 1] in words;
    }
  }

  /** Joining two pieces with a space keeps their letters. */
  lemma SpacedLetters(a: string, w: string)
    ensures Letters(a + " " + w) == Letters(a) + Letters(w)
  {
    var sp: string := [' '];
    assert sp[..0] == [];
    assert Letters(sp) == [];
    LettersAppend(a, sp);
    assert Letters(a + sp) == Letters(a);
    LettersAppend(a + sp, w);
    assert a + " " + w == (a + sp) + w;
  }

  /** One word through the loop adds exactly its letters. */
  lemma FillWordLetters(f: Fill, w: string, width: string -> int, maxW: int)
    ensures var g := FillWord(f, w, width, maxW);
            Letters(Concat(g.lines)) + Letters(g.cur) == Letters(Concat(f.lines)) + Letters(f.cur) + Letters(w)
  {
    var test := if f.cur == "" then w else f.cur + " " + w;
    var g := FillWord(f, w, width, maxW);
    if width(test) <= maxW {
      assert g == Fill(f.lines, test);
      if f.cur == "" {
        assert Letters(f.cur) == [];
      } else {
        SpacedLetters(f.cur, w);
      }
    } else if f.cur != "" {
      assert g == Fill(f.lines + [f.cur], w);
      ConcatSnoc(f.lines, f.cur);
      LettersAppend(Concat(f.lines), f.cur);
    } else {
      assert g == Fill(f.lines, w);
      assert Letters(f.cur) == [];
    }
  }

  /** No letter is lost or reordered: the emitted lines and `cur` hold the
      letters of the words, in order. */
  lemma {:induction false} GreedyLetters(words: seq<string>, width: string -> int, maxW: int)
    ensures var f := Greedy(words, width, maxW);
            Letters(Concat(f.lines)) + Letters(f.cur) == Letters(Concat(words))
    decreases |words|
  {
    if words != [] {
      var ws := words[..|words| - 1];
      var w := words[|words| - 1];
      var f := Greedy(ws, width, maxW);
      GreedyLetters(ws, width, maxW);
      FillWordLetters(f, w, width, maxW);
      assert words == ws + [w];
      ConcatSnoc(ws, w);
      LettersAppend(Concat(ws), w);
    }
  }

  /** The lines of a non-blank raw line hold its letters in order. */
  lemma WrapLineLetters(raw: string, width: string -> int, maxW: int)
    requires Strip(raw) != ""
    ensures Letters(Concat(WrapLine(raw, width, maxW))) == Letters(raw)
  {
    var words := Split(raw, ' ');
    var f := Greedy(words, width, maxW);
    GreedyLetters(words, width, maxW);
    SplitJoin(raw, ' ');
    JoinLetters(words);
    if f.cur != "" {
      ConcatSnoc(f.lines, f.cur);
      LettersAppend(Concat(f.lines), f.cur);
    } else {
      assert WrapLine(raw, width, maxW) == f.lines;
    }
  }

  /** A blank raw line gives exactly one empty line; any other gives at
      least one line, every line non-empty and fitting or a single word, and
      together they hold the raw line's letters in order. */
  lemma WrapLineSpec(raw: string, width: string -> int, maxW: int)
    ensures AllSpace(raw) ==> WrapLine(raw, width, maxW) == [""]
    ensures !AllSpace(raw) ==>
              && |WrapLine(raw, width, maxW)| >= 1
              && Letters(Concat(WrapLine(raw, width, maxW))) == Letters(raw)
              && forall l :: l in WrapLine(raw, width, maxW) ==> l != "" && FitsOrWord(l, width, maxW)
  {
    StripEmptyIffBlank(raw);
    if !AllSpace(raw) {
      GreedyShape(Split(raw, ' '), width, maxW);
      WrapLineLetters(raw, width, maxW);
      var k :| 0 <= k < |raw| && !IsSpace(raw[k]);
      LettersOfNonSpace(raw, k);
    }
  }

  /** Over a whole text: at least one line per raw line, and every line fits
      or is a single word. */
  lemma {:induction false} WrapAllSpec(raws: seq<string>, width: string -> int, maxW: int)
    ensures |WrapAll(raws, width, maxW)| >= |raws|
    ensures forall l :: l in WrapAll(raws, width, maxW) ==> FitsOrWord(l, width, maxW)
    decreases |raws|
  {
    if raws != [] {
      var r := raws[|raws| - 1];
      WrapAllSpec(raws[..|raws| - 1], width, maxW);
      WrapLineSpec(r, width, maxW);
      if AllSpace(r) {
        assert ' ' !in "";
      }
    }
  }

  /** The inner loop of `wrap_text`, for one raw line. */
  method WrapRaw(raw: string, width: string -> int, maxW: int) returns (para: seq<string>)
    ensures para == WrapLine(raw, width, maxW)
  {
    if Strip(raw) == "" {
      return [""];
    }
    var words := Split(raw, ' ');
    para := [];
    var cur := "";
    for j := 0 to |words|
      invariant Fill(para, cur) == Greedy(words[..j], width, maxW)
    {
      var w := words[j];
      assert words[..j + 1][..j] == words[..j];
      var test := if cur == "" then w else cur + " " + w;
      if width(test) <= maxW {
        cur := test;
      } else {
        if cur != "" {
          para := para + [cur];
        }
        cur := w;
      }
    }
    assert words[..|words|] == words;
    if cur != "" {
      para := para + [cur];
    }
  }

  /** `wrap_text`: the raw lines one after another. */
  method Wrap(text: string, width: string -> int, maxW: int) returns (lines: seq<string>)
    ensures lines == WrapText(text, width, maxW)
  {
    var raws := Split(text, '\n');
    lines := [];
    for i := 0 to |raws|
      invariant lines == WrapAll(raws[..i], width, maxW)
    {
      var para := WrapRaw(raws[i], width, maxW);
      assert raws[..i + 1][..i] == raws[..i];
      lines := lines + para;
    }
    assert raws[..|raws|] == raws;
  }

  // -----------------------------------------------------------------------
  // Buttons
  // -----------------------------------------------------------------------

  datatype Button = Button(rect: Rect, caption: string)
  {
    /** `hit(pos)`. */
    predicate Hit(px: int, py: int)
    {
      rect.CollidePoint(px, py)
    }
  }

  /** The button for the `i`-th story. */
  function ButtonAt(i: int, key: string): Button
  {
    Button(Rect(Margin, ButtonTop + ButtonStep * i, SidebarW - Margin * 2, ButtonH), key)
  }

  /** The button loop of `StoryView.__init__`: one button per story, stacked
      down the sidebar. */
  method MakeButtons(keys: seq<string>) returns (buttons: seq<Button>)
    ensures |buttons| == |keys|
    ensures forall i :: 0 <= i < |keys| ==> buttons[i] == ButtonAt(i, keys[i])
  {
    buttons := [];
    var y := ButtonTop;
    for i := 0 to |keys|
      invariant |buttons| == i && y == ButtonTop + ButtonStep * i
      invariant forall k :: 0 <= k < i ==> buttons[k] == ButtonAt(k, keys[k])
    {
      buttons := buttons + [Button(Rect(Margin, y, SidebarW - Margin * 2, ButtonH), keys[i])];
      y := y + ButtonStep;
    }
  }

  /** The sidebar buttons never overlap, so a point hits at most one. */
  lemma ButtonsApart(i: int, j: int, a: string, b: string, px: int, py: int)
    requires i != j
    ensures !(ButtonAt(i, a).Hit(px, py) && ButtonAt(j, b).Hit(px, py))
  {
  }

  /** The first button, from index `k` on, that the point hits. */
  function FirstHit(buttons: seq<Button>, px: int, py: int, k: nat): (r: Option<nat>)
    requires k <= |buttons|
    ensures r.Some? ==> k <= r.value < |buttons| && buttons[r.value].Hit(px, py)
                        && forall j :: k <= j < r.value ==> !buttons[j].Hit(px, py)
    ensures r.None? ==> forall j :: k <= j < |buttons| ==> !buttons[j].Hit(px, py)
    decreases |buttons| - k
  {
    if k == |buttons| then None
    else if buttons[k].Hit(px, py) then Some(k)
    else FirstHit(buttons, px, py, k + 1)
  }

  // -----------------------------------------------------------------------
  // The view
  // -----------------------------------------------------------------------

  /** `active`, `selected_key`, `scroll` and `_cached_key`. */
  datatype View = View(active: bool, selected: string, scroll: int, cachedKey: Option<string>)

  /** The scroll change an arrow or page key asks for. */
  function KeyScroll(key: int): int
  {
    if key == K_DOWN || key == K_s then LineScroll
    else if key == K_UP || key == K_w then -LineScroll
    else if key == K_PAGEUP then -PageScroll
    else if key == K_PAGEDOWN then PageScroll
    else 0
  }

  /** `StoryView.handle_event(event)`. */
  function OnEvent(v: View, buttons: seq<Button>, e: Event): View
  {
    match e
    case KeyDown(key, _) =>
      if key == K_ESCAPE then v.(active := false)
      else v.(scroll := v.scroll + KeyScroll(key))
    case MouseDown(button, px, py) =>
      if button == 1 then
        match FirstHit(buttons, px, py, 0)
        case Some(i) => v.(selected := buttons[i].caption, scroll := 0, cachedKey := None)
        case None => v
      else if button == 4 then v.(scroll := v.scroll - WheelScroll)
      else if button == 5 then v.(scroll := v.scroll + WheelScroll)
      else v
    case _ => v
  }

  /** What each input does: Escape closes the viewer; the arrow keys, `w`
      and `s` scroll by a line, the page keys by a page and the wheel by
      its step; every other key or button leaves the view alone. */
  lemma OnEventInputs(v: View, buttons: seq<Button>, key: int, u: string, button: int, px: int, py: int)
    ensures OnEvent(v, buttons, KeyDown(K_ESCAPE, u)) == v.(active := false)
    ensures OnEvent(v, buttons, KeyDown(K_DOWN, u)) == v.(scroll := v.scroll + 24)
    ensures OnEvent(v, buttons, KeyDown(K_s, u)) == v.(scroll := v.scroll + 24)
    ensures OnEvent(v, buttons, KeyDown(K_UP, u)) == v.(scroll := v.scroll - 24)
    ensures OnEvent(v, buttons, KeyDown(K_w, u)) == v.(scroll := v.scroll - 24)
    ensures OnEvent(v, buttons, KeyDown(K_PAGEDOWN, u)) == v.(scroll := v.scroll + 240)
    ensures OnEvent(v, buttons, KeyDown(K_PAGEUP, u)) == v.(scroll := v.scroll - 240)
    ensures OnEvent(v, buttons, MouseDown(4, px, py)) == v.(scroll := v.scroll - 36)
    ensures OnEvent(v, buttons, MouseDown(5, px, py)) == v.(scroll := v.scroll + 36)
    ensures key !in {K_ESCAPE, K_DOWN, K_s, K_UP, K_w, K_PAGEUP, K_PAGEDOWN} ==>
              OnEvent(v, buttons, KeyDown(key, u)) == v
    ensures button !in {1, 4, 5} ==> OnEvent(v, buttons, MouseDown(button, px, py)) == v
  {
  }

  /** A left click selects the first button under the cursor, scrolls to
      the top and drops the wrapped text; a click beside every button does
      nothing. Only a selecting click changes the selection or the cache. */
  lemma ClickSelects(v: View, buttons: seq<Button>, e: Event)
    ensures e.MouseDown? && e.button == 1 && FirstHit(buttons, e.px, e.py, 0).Some? ==>
              var i := FirstHit(buttons, e.px, e.py, 0).value;
              && OnEvent(v, buttons, e) == View(v.active, buttons[i].caption, 0, None)
              && buttons[i].Hit(e.px, e.py)
              && forall j :: 0 <= j < i ==> !buttons[j].Hit(e.px, e.py)
    ensures e.MouseDown? && e.button == 1 && (forall j :: 0 <= j < |buttons| ==> !buttons[j].Hit(e.px, e.py)) ==>
              OnEvent(v, buttons, e) == v
    ensures !(e.MouseDown? && e.button == 1) ==>
              OnEvent(v, buttons, e).selected == v.selected && OnEvent(v, buttons, e).cachedKey == v.cachedKey
  {
  }

  /** With the sidebar's own buttons, clicking button `i` selects story `i`. */
  lemma ClickOnButton(keys: seq<string>, buttons: seq<Button>, v: View, i: int, px: int, py: int)
    requires |buttons| == |keys| && forall k :: 0 <= k < |keys| ==> buttons[k] == ButtonAt(k, keys[k])
    requires 0 <= i < |keys| && buttons[i].Hit(px, py)
    ensures OnEvent(v, buttons, MouseDown(1, px, py)) == View(v.active, keys[i], 0, None)
  {
    var r := FirstHit(buttons, px, py, 0);
    if r != Some(i) {
      var j := r.value;
      ButtonsApart(i, j, keys[i], keys[j], px, py);
    }
  }

  /** The story keys, in order. */
  function Keys(stories: seq<(string, string)>): (r: seq<string>)
    ensures |r| == |stories| && forall i :: 0 <= i < |stories| ==> r[i] == stories[i].0
  {
    seq(|stories|, i requires 0 <= i < |stories| => stories[i].0)
  }

  /** `STORY_DATA[key]`. */
  function TextOf(stories: seq<(string, string)>, key: string): string
    requires key in Keys(stories)
    decreases |stories|
  {
    if stories[0].0 == key then stories[0].1
    else
      assert Keys(stories) == [stories[0].0] + Keys(stories[1..]);
      TextOf(stories[1..], key)
  }

  /** The text height, `len(lines) * line_height`, or 0 with nothing cached. */
  function TextHeight(cached: Option<seq<string>>, lineHeight: int): int
  {
    if cached.Some? && cached.value != [] then |cached.value| * lineHeight else 0
  }

  /** The scroll clamp of `draw`. */
  function ClampScroll(scroll: int, textH: int): int
  {
    Max(0, Min(scroll, Max(0, textH - (ContentH - TextInset))))
  }

  /** The clamped offset lies between 0 and the height the text overflows
      the panel by; an offset already in range is kept, and clamping twice
      is clamping once. */
  lemma ClampScrollSpec(scroll: int, textH: int)
    ensures 0 <= ClampScroll(scroll, textH) <= Max(0, textH - (ContentH - TextInset))
    ensures 0 <= scroll <= textH - (ContentH - TextInset) ==> ClampScroll(scroll, textH) == scroll
    ensures textH <= ContentH - TextInset ==> ClampScroll(scroll, textH) == 0
    ensures ClampScroll(ClampScroll(scroll, textH), textH) == ClampScroll(scroll, textH)
  {
  }

  class StoryView {
    var active: bool
    var selectedKey: string
    var scroll: int
    var stories: seq<(string, string)>
    var buttons: seq<Button>
    var cachedLines: Option<seq<string>>
    var cachedKey: Option<string>
    /** `body_font.get_linesize()`. */
    var lineHeight: int

    function State(): View
      reads this
    {
      View(active, selectedKey, scroll, cachedKey)
    }

    /** The selection is always a story, and button `i` is story `i`'s. */
    predicate Valid()
      reads this
    {
      && selectedKey in Keys(stories)
      && |buttons| == |stories|
      && forall i :: 0 <= i < |stories| ==> buttons[i] == ButtonAt(i, stories[i].0)
    }

    /** `StoryView()` over the stories in their order; `lineHeight` is the
        body font's line height. */
    constructor (stories: seq<(string, string)>, lineHeight: int)
      requires |stories| > 0
      ensures Valid()
      ensures State() == View(true, stories[0].0, 0, None)
      ensures this.stories == stories && this.lineHeight == lineHeight && cachedLines == None
    {
      this.stories := stories;
      this.lineHeight := lineHeight;
      active := true;
      selectedKey := stories[0].0;
      scroll := 0;
      var bs := MakeButtons(Keys(stories));
      buttons := bs;
      cachedLines := None;
      cachedKey := None;
    }

    /** `handle_event(event)`. */
    method HandleEvent(e: Event)
      requires Valid()
      modifies this`active, this`selectedKey, this`scroll, this`cachedKey
      ensures Valid()
      ensures State() == OnEvent(old(State()), buttons, e)
    {
      match e {
        case KeyDown(key, _) =>
          if key == K_ESCAPE {
            active := false;
          } else if key == K_DOWN || key == K_s {
            scroll := scroll + LineScroll;
          } else if key == K_UP || key == K_w {
            scroll := scroll - LineScroll;
          } else if key == K_PAGEUP {
            scroll := scroll - PageScroll;
          } else if key == K_PAGEDOWN {
            scroll := scroll + PageScroll;
          }
        case MouseDown(button, px, py) =>
          if button == 1 {
            var i := 0;
            while i < |buttons|
              invariant 0 <= i <= |buttons|
              invariant FirstHit(buttons, px, py, 0) == FirstHit(buttons, px, py, i)
            {
              if buttons[i].Hit(px, py) {
                selectedKey := buttons[i].caption;
                scroll := 0;
                cachedKey := None;
                break;
              }
              i := i + 1;
            }
          } else if button == 4 {
            scroll := scroll - WheelScroll;
          } else if button == 5 {
            scroll := scroll + WheelScroll;
          }
        case _ =>
      }
    }

    /** The cache and scroll part of `draw`: wrap the selected story again
        only when the selection changed (and scroll back to the top), then
        clamp the scroll offset to the text. */
    method Layout(width: string -> int)
      requires Valid()
      modifies this`cachedLines, this`cachedKey, this`scroll
      ensures old(cachedKey) != Some(selectedKey) ==>
                && cachedLines == Some(WrapText(TextOf(stories, selectedKey), width, ContentW - TextInset))
                && cachedKey == Some(selectedKey)
                && scroll == ClampScroll(0, TextHeight(cachedLines, lineHeight))
      ensures old(cachedKey) == Some(selectedKey) ==>
                && cachedLines == old(cachedLines) && cachedKey == old(cachedKey)
                && scroll == ClampScroll(old(scroll), TextHeight(cachedLines, lineHeight))
    {
      if cachedKey != Some(selectedKey) {
        var lines := Wrap(TextOf(stories, selectedKey), width, ContentW - TextInset);
        cachedLines := Some(lines);
        cachedKey := Some(selectedKey);
        scroll := 0;
      }
      var totalH := if cachedLines.Some? && cachedLines.value != [] then |cachedLines.value| * lineHeight else 0;
      var maxScroll := Max(0, totalH - (ContentH - TextInset));
      scroll := Max(0, Min(scroll, maxScroll));
    }
  }
}
