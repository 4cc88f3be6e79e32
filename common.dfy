/** Helpers shared by the whole model: an option type, clamps, and the few
    Python built-ins the game code leans on (`str.strip`, `str.split`,
    `int(...)`, `str(int)`, `//` on floats), written out for the inputs
    the game feeds them; `int(...)` is narrowed to ASCII decimal digits
    (see `ParseInt`). */
module Common {

  datatype Option<T> = None | Some(value: T)

  // ---------------------------------------------------------------------
  // Numbers
  // ---------------------------------------------------------------------

  function Min(a: int, b: int): int { if a <= b then a else b }
  function Max(a: int, b: int): int { if a >= b then a else b }
  function MinR(a: real, b: real): real { if a <= b then a else b }
  function MaxR(a: real, b: real): real { if a >= b then a else b }

  /** `max(lo, min(hi, x))`, the clamp idiom the game uses everywhere. */
  function ClampR(lo: real, hi: real, x: real): (r: real)
    requires lo <= hi
    ensures lo <= r <= hi
    ensures lo <= x <= hi ==> r == x
    ensures x < lo ==> r == lo
    ensures x > hi ==> r == hi
  {
    MaxR(lo, MinR(hi, x))
  }

  /** Python's `x // y` on floats followed by `int(...)`: the floor of x / y. */
  function FloorDiv(x: real, y: real): (r: int)
    requires y > 0.0
    ensures r as real * y <= x < (r + 1) as real * y
  {
    var q := x / y;
    assert q.Floor as real <= q < q.Floor as real + 1.0;
    FloorDivBounds(x, y, q.Floor);
    q.Floor
  }

  lemma FloorDivBounds(x: real, y: real, f: int)
    requires y > 0.0
    requires f as real <= x / y < f as real + 1.0
    ensures f as real * y <= x < (f + 1) as real * y
  {
    var q := x / y;
    assert x == q * y;
    MulMonotone(f as real, q, y);
    assert f as real * y <= x;
    var b := f as real + 1.0;
    MulStrict(q, b, y);
    assert q * y < b * y;
    assert x < b * y;
    assert (f + 1) as real == f as real + 1.0;
  }

  lemma MulMonotone(a: real, b: real, y: real)
    requires a <= b && y > 0.0
    ensures a * y <= b * y
  {
  }

  lemma MulStrict(a: real, b: real, y: real)
    requires a < b && y > 0.0
    ensures a * y < b * y
  {
  }

  /** A fraction of a non-negative quantity lies between 0 and the whole. */
  lemma FractionOf(d: real, k: real)
    requires d >= 0.0 && 0.0 <= k <= 1.0
    ensures 0.0 <= d * k <= d
  {
    if d > 0.0 && k > 0.0 {
      MulMonotone(k, 1.0, d);
      MulMonotone(0.0, k, d);
    }
  }

  /** Python's `int(x)` on a float: truncation toward zero. */
  function Trunc(x: real): (r: int)
    ensures x >= 0.0 ==> r >= 0 && r as real <= x < r as real + 1.0
    ensures x < 0.0 ==> r <= 0 && r as real - 1.0 < x <= r as real
  {
    if x >= 0.0 then x.Floor
    else
      var f := (-x).Floor;
      assert f as real <= -x < f as real + 1.0;
      -f
  }

  /** Truncating a value between two integers stays between them. */
  lemma TruncBetween(a: int, b: int, v: real)
    requires a as real <= v <= b as real
    ensures a <= Trunc(v) <= b
  {
  }

  lemma TruncOfInt(n: int)
    ensures Trunc(n as real) == n
  {
  }

  // ---------------------------------------------------------------------
  // Characters and whitespace
  // ---------------------------------------------------------------------

  /** The characters Python's `str.strip()` and `str.isspace()` treat as
      white space. */
  predicate IsSpace(c: char)
  {
    || c == ' ' || c == '\t' || c == '\n' || c == '\r'
    || c == '\U{000B}' || c == '\U{000C}'
    || ('\U{001C}' <= c <= '\U{001F}')
    || c == '\U{0085}' || c == '\U{00A0}' || c == '\U{1680}'
    || ('\U{2000}' <= c <= '\U{200A}')
    || c == '\U{2028}' || c == '\U{2029}' || c == '\U{202F}'
    || c == '\U{205F}' || c == '\U{3000}'
  }

  predicate AllSpace(s: string)
  {
    forall i :: 0 <= i < |s| ==> IsSpace(s[i])
  }

  /** The index of the first character at or after `i` that is not white
      space (`|s|` when there is none). */
  function SkipLeft(s: string, i: nat): (k: nat)
    requires i <= |s|
    ensures i <= k <= |s|
    ensures forall j :: i <= j < k ==> IsSpace(s[j])
    ensures k == |s| || !IsSpace(s[k])
    decreases |s| - i
  {
    if i < |s| && IsSpace(s[i]) then SkipLeft(s, i + 1) else i
  }

  /** One past the last character before `j` that is not white space,
      looking no further left than `lo` (`lo` when there is none). */
  function SkipRight(s: string, lo: nat, j: nat): (k: nat)
    requires lo <= j <= |s|
    ensures lo <= k <= j
    ensures forall m :: k <= m < j ==> IsSpace(s[m])
    ensures k == lo || !IsSpace(s[k - 1])
    decreases j
  {
    if j > lo && IsSpace(s[j - 1]) then SkipRight(s, lo, j - 1) else j
  }

  /** Python's `s.strip()`: `rstrip` of `lstrip`. */
  function Strip(s: string): (r: string)
  {
    var i := SkipLeft(s, 0);
    s[i..SkipRight(s, i, |s|)]
  }

  /** What `strip` keeps is a slice of its input with no white space at
      either end, and everything it drops is white space. */
  lemma StripShape(s: string)
    ensures exists i, j :: 0 <= i <= j <= |s| && Strip(s) == s[i..j]
                           && AllSpace(s[..i]) && AllSpace(s[j..])
    ensures Strip(s) == [] || (!IsSpace(Strip(s)[0]) && !IsSpace(Strip(s)[|Strip(s)| - 1]))
  {
    var i := SkipLeft(s, 0);
    var j := SkipRight(s, i, |s|);
    assert AllSpace(s[..i]);
    assert AllSpace(s[j..]);
  }

  /** `s.strip() == ""` holds exactly for white-space-only strings. */
  lemma StripEmptyIffBlank(s: string)
    ensures Strip(s) == [] <==> AllSpace(s)
  {
    var i := SkipLeft(s, 0);
    var j := SkipRight(s, i, |s|);
    if Strip(s) == [] {
      forall m | 0 <= m < |s|
        ensures IsSpace(s[m])
      {
      }
    }
  }

  lemma StripIdentity(s: string)
    requires s == [] || (!IsSpace(s[0]) && !IsSpace(s[|s| - 1]))
    ensures Strip(s) == s
  {
    assert s[0..|s|] == s;
  }

  /** The text with its white space taken out. */
  function Visible(s: string): string
    decreases |s|
  {
    if s == [] then []
    else Visible(s[..|s| - 1]) + (if IsSpace(s[|s| - 1]) then [] else [s[|s| - 1]])
  }

  /** A single character is visible exactly when it is not white space. */
  lemma VisibleOne(c: char)
    ensures Visible([c]) == if IsSpace(c) then [] else [c]
  {
    assert [c][..0] == [];
  }

  lemma {:induction false} VisibleAppend(a: string, b: string)
    ensures Visible(a + b) == Visible(a) + Visible(b)
    decreases |b|
  {
    if b == [] {
      assert a + b == a;
    } else {
      var b' := b[..|b| - 1];
      assert (a + b)[..|a + b| - 1] == a + b';
      VisibleAppend(a, b');
    }
  }

  /** Nothing is left of a text exactly when it is all white space. */
  lemma {:induction false} VisibleEmptyIffBlank(s: string)
    ensures Visible(s) == [] <==> AllSpace(s)
    decreases |s|
  {
    if s != [] {
      var n := |s| - 1;
      VisibleEmptyIffBlank(s[..n]);
      assert forall i :: 0 <= i < n ==> s[..n][i] == s[i];
    }
  }

  /** A text with nothing visible strips to the empty string. */
  lemma VisibleBlankStrip(s: string)
    requires Visible(s) == []
    ensures Strip(s) == []
  {
    VisibleEmptyIffBlank(s);
    StripEmptyIffBlank(s);
  }

  /** `strip` drops only white space. */
  lemma VisibleStrip(s: string)
    ensures Visible(Strip(s)) == Visible(s)
  {
    var i := SkipLeft(s, 0);
    var j := SkipRight(s, i, |s|);
    var front, kept, back := s[..i], s[i..j], s[j..];
    assert s == front + kept + back;
    assert kept == Strip(s);
    assert AllSpace(front) by {
      forall k | 0 <= k < |front| ensures IsSpace(front[k]) { assert front[k] == s[k]; }
    }
    assert AllSpace(back) by {
      forall k | 0 <= k < |back| ensures IsSpace(back[k]) { assert back[k] == s[j + k]; }
    }
    VisibleEmptyIffBlank(front);
    VisibleEmptyIffBlank(back);
    VisibleAppend(front, kept);
    VisibleAppend(front + kept, back);
  }

  /** Joining pieces with a space and gluing them together leave the same
      visible text. */
  lemma {:induction false} VisibleJoin(ws: seq<string>)
    requires |ws| >= 1
    ensures Visible(Join(ws, ' ')) == Visible(Concat(ws))
    decreases |ws|
  {
    if |ws| == 1 {
      assert Concat(ws) == ws[0] + Concat([]);
      assert ws[0] + [] == ws[0];
    } else {
      VisibleJoin(ws[1..]);
      VisibleAppend(ws[0] + [' '], Join(ws[1..], ' '));
      VisibleAppend(ws[0], [' ']);
      VisibleOne(' ');
      VisibleAppend(ws[0], Concat(ws[1..]));
    }
  }

  /** `os.path.join(folder, name)` on POSIX for a relative `name`. */
  function JoinPath(folder: string, name: string): (r: string)
    ensures folder == "" ==> r == name
    ensures folder != "" && folder[|folder| - 1] == '/' ==> r == folder + name
    ensures folder != "" && folder[|folder| - 1] != '/' ==> r == folder + "/" + name
  {
    if folder == "" || folder[|folder| - 1] == '/' then folder + name else folder + "/" + name
  }

  // ---------------------------------------------------------------------
  // str.split with an explicit one-character separator
  // ---------------------------------------------------------------------

  /** `s.split(sep)` for a one-character `sep`: empty pieces are kept, and
      `"".split(sep) == [""]`. */
  function Split(s: string, sep: char): (parts: seq<string>)
    ensures |parts| >= 1
    ensures forall p :: p in parts ==> sep !in p
    decreases |s|
  {
    if s == [] then [""]
    else
      var rest := Split(s[1..], sep);
      if s[0] == sep then [""] + rest
      else [[s[0]] + rest[0]] + rest[1..]
  }

  /** `sep.join(parts)`. */
  function Join(parts: seq<string>, sep: char): string
    requires |parts| >= 1
  {
    if |parts| == 1 then parts[0] else parts[0] + [sep] + Join(parts[1..], sep)
  }

  /** Splitting and joining again gives the input back. */
  lemma {:induction false} SplitJoin(s: string, sep: char)
    ensures Join(Split(s, sep), sep) == s
    decreases |s|
  {
    if s != [] {
      var rest := Split(s[1..], sep);
      SplitJoin(s[1..], sep);
      if s[0] == sep {
        assert Split(s, sep) == [""] + rest;
        assert ([""] + rest)[1..] == rest;
      } else {
        var parts := [[s[0]] + rest[0]] + rest[1..];
        assert Split(s, sep) == parts;
        if |rest| == 1 {
          assert s == [s[0]] + s[1..];
        } else {
          assert parts[1..] == rest[1..];
          assert Join(rest, sep) == rest[0] + [sep] + Join(rest[1..], sep);
          assert s == [s[0]] + s[1..];
        }
      }
    }
  }

  lemma {:induction false} SplitNoSep(s: string, sep: char)
    requires sep !in s
    ensures Split(s, sep) == [s]
    decreases |s|
  {
    if s != [] {
      SplitNoSep(s[1..], sep);
      assert [s[0]] + s[1..] == s;
    }
  }

  lemma {:induction false} SplitAtSep(a: string, sep: char, b: string)
    requires sep !in a
    ensures Split(a + [sep] + b, sep) == [a] + Split(b, sep)
    decreases |a|
  {
    if a == [] {
      assert a + [sep] + b == [sep] + b;
      assert ([sep] + b)[1..] == b;
    } else {
      var s := a + [sep] + b;
      assert s[0] == a[0];
      assert s[1..] == a[1..] + [sep] + b;
      SplitAtSep(a[1..], sep, b);
      assert [a[0]] + a[1..] == a;
    }
  }

  /** All the strings one after another. */
  function Concat(ls: seq<string>): string
    decreases |ls|
  {
    if ls == [] then [] else ls[0] + Concat(ls[1..])
  }

  lemma {:induction false} ConcatSnoc(ls: seq<string>, l: string)
    ensures Concat(ls + [l]) == Concat(ls) + l
    decreases |ls|
  {
    if ls == [] {
      assert Concat([l]) == l + Concat([]);
    } else {
      assert (ls + [l])[1..] == ls[1..] + [l];
      ConcatSnoc(ls[1..], l);
    }
  }

  // ---------------------------------------------------------------------
  // Decimal integers: str(n) and int(s)
  // ---------------------------------------------------------------------

  predicate IsDigit(c: char) { '0' <= c <= '9' }

  function DigitChar(d: nat): (c: char)
    requires d < 10
    ensures IsDigit(c)
  {
    ('0' as int + d) as char
  }

  function DigitValue(c: char): (d: nat)
    requires IsDigit(c)
    ensures d < 10
  {
    (c as int - '0' as int)
  }

  function NatToString(n: nat): (s: string)
    ensures |s| >= 1
    ensures forall i :: 0 <= i < |s| ==> IsDigit(s[i])
  {
    if n < 10 then [DigitChar(n)] else NatToString(n / 10) + [DigitChar(n % 10)]
  }

  /** Python's `str(n)` / f-string rendering of an int. */
  function IntToString(n: int): (s: string)
  {
    if n < 0 then "-" + NatToString(-n) else NatToString(n)
  }

  predicate AllDigits(s: string)
  {
    forall i :: 0 <= i < |s| ==> IsDigit(s[i])
  }

  function DigitsValue(s: string): nat
    requires AllDigits(s)
  {
    if s == [] then 0 else DigitsValue(s[..|s| - 1]) * 10 + DigitValue(s[|s| - 1])
  }

  /** Python's `int(s)` on a string, narrowed: optional surrounding white
      space, an optional sign, then one or more ASCII digits; anything else
      is `None` here, standing for the `ValueError`. Python also accepts
      single underscores between digits (`"1_000"`) and the decimal digits
      of other scripts; this model rejects both. */
  function ParseInt(s: string): Option<int>
  {
    var t := Strip(s);
    if |t| >= 2 && (t[0] == '-' || t[0] == '+') && AllDigits(t[1..]) then
      Some(if t[0] == '-' then -(DigitsValue(t[1..]) as int) else DigitsValue(t[1..]))
    else if |t| >= 1 && AllDigits(t) then Some(DigitsValue(t))
    else None
  }

  lemma {:induction false} NatToStringValue(n: nat)
    ensures DigitsValue(NatToString(n)) == n
  {
    if n >= 10 {
      NatToStringValue(n / 10);
      var s := NatToString(n);
      assert s[..|s| - 1] == NatToString(n / 10);
    }
  }

  /** `int(str(n)) == n` for every integer. */
  lemma ParseIntToString(n: int)
    ensures ParseInt(IntToString(n)) == Some(n)
  {
    if n < 0 {
      ParseNegative(n);
    } else {
      ParseNonNegative(n);
    }
  }

  lemma ParseNegative(n: int)
    requires n < 0
    ensures ParseInt(IntToString(n)) == Some(n)
  {
    var d := NatToString(-n);
    NegativeRendering(n, d);
    NatToStringValue(-n);
    ParseSignedDigits(d, IntToString(n), -n);
  }

  lemma NegativeRendering(n: int, d: string)
    requires n < 0 && d == NatToString(-n)
    ensures IntToString(n) == "-" + d && |d| >= 1 && AllDigits(d)
  {
  }

  lemma ParseNonNegative(n: int)
    requires n >= 0
    ensures ParseInt(IntToString(n)) == Some(n)
  {
    NatToStringValue(n);
    ParseDigits(IntToString(n));
  }

  /** `int(s)` for `s` a minus sign and a non-empty run of digits `d`. */
  lemma ParseSignedDigits(d: string, s: string, m: nat)
    requires |d| >= 1 && AllDigits(d) && s == "-" + d && DigitsValue(d) == m
    ensures ParseInt(s) == Some(-(m as int))
  {
    assert s[|s| - 1] == d[|d| - 1];
    StripIdentity(s);
    var t := Strip(s);
    assert t[1..] == d;
    assert |t| >= 2 && t[0] == '-' && AllDigits(t[1..]);
  }

  /** `int(d)` for a non-empty run of digits `d`. */
  lemma ParseDigits(d: string)
    requires |d| >= 1 && AllDigits(d)
    ensures ParseInt(d) == Some(DigitsValue(d))
  {
    assert IsDigit(d[0]) && IsDigit(d[|d| - 1]);
    StripIdentity(d);
    var t := Strip(d);
    assert t == d && !(t[0] == '-' || t[0] == '+');
  }

  lemma IntToStringNoComma(n: int)
    ensures ',' !in IntToString(n)
  {
    if n < 0 {
      var d := NatToString(-n);
      assert IntToString(n) == "-" + d;
      assert ',' !in d;
    }
  }
}
