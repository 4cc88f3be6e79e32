/** The key bindings of key.py: readable key names, the table from names to
    pygame key codes, and the lookup `_key` with its fallback. */
module KeyConfig {
  import opened Common
  import opened Pygame

  const MoveLeftName: string := "A"
  const MoveRightName: string := "D"
  const MoveUpName: string := "W"
  const MoveDownName: string := "S"
  const ContinueTalkName: string := "SPACE"
  const InteractName: string := "F"
  const JumpSpaceName: string := "SPACE"
  const JumpWName: string := "W"
  const InventoryName: string := "E"

  /** `_NAME_TO_KEY`. pygame's letter keys are the codes of the lower-case
      letters. */
  const NameToKey: map<string, int> := map[
    "A" := 'a' as int, "B" := 'b' as int, "C" := 'c' as int, "D" := 'd' as int,
    "E" := 'e' as int, "F" := 'f' as int, "G" := 'g' as int, "H" := 'h' as int,
    "I" := 'i' as int, "J" := 'j' as int, "K" := 'k' as int, "L" := 'l' as int,
    "M" := 'm' as int, "N" := 'n' as int, "O" := 'o' as int, "P" := 'p' as int,
    "Q" := 'q' as int, "R" := 'r' as int, "S" := 's' as int, "T" := 't' as int,
    "U" := 'u' as int, "V" := 'v' as int, "W" := 'w' as int, "X" := 'x' as int,
    "Y" := 'y' as int, "Z" := 'z' as int,
    "SPACE" := K_SPACE, "ESC" := K_ESCAPE,
    "UP" := K_UP, "DOWN" := K_DOWN, "LEFT" := K_LEFT, "RIGHT" := K_RIGHT
  ]

  /** `str.upper()` on one character, as far as it can matter for the
      table: the ASCII letters, and the two other characters whose capital
      is an ASCII letter (dotless i and long s). */
  function UpperChar(c: char): char
  {
    if 'a' <= c <= 'z' then (c as int - 'a' as int + 'A' as int) as char
    else if c == 'ı' then 'I'
    else if c == 'ſ' then 'S'
    else c
  }

  function Upper(s: string): (r: string)
    ensures |r| == |s| && forall i :: 0 <= i < |s| ==> r[i] == UpperChar(s[i])
  {
    seq(|s|, i requires 0 <= i < |s| => UpperChar(s[i]))
  }

  /** `_key(name, fallback)`; `None` stands for a name that is not a string. */
  function Key(name: Option<string>, fallback: int): int
  {
    if name.None? then fallback
    else if Upper(name.value) in NameToKey then NameToKey[Upper(name.value)]
    else fallback
  }

  /** Every name in the table is spelt in capital ASCII letters. */
  lemma TableNamesCapital(n: string)
    requires n in NameToKey
    ensures n != [] && forall i :: 0 <= i < |n| ==> 'A' <= n[i] <= 'Z'
  {
  }

  /** A name works in any mix of upper and lower case and then ignores the
      fallback. */
  lemma AnyCase(s: string, n: string, fallback: int)
    requires n in NameToKey && |s| == |n|
    requires forall i :: 0 <= i < |s| ==> s[i] == n[i] || s[i] == (n[i] as int - 'A' as int + 'a' as int) as char
    ensures Key(Some(s), fallback) == NameToKey[n]
  {
    TableNamesCapital(n);
    assert Upper(s) == n;
  }

  /** Upper-casing twice is upper-casing once, so a name and its capital
      form find the same key. */
  lemma KeyCaseInsensitive(s: string, fallback: int)
    ensures Upper(Upper(s)) == Upper(s)
    ensures Key(Some(Upper(s)), fallback) == Key(Some(s), fallback)
  {
    assert Upper(Upper(s)) == Upper(s);
  }

  /** A non-string name and an unknown name give the fallback; a known name
      gives its table entry whatever the fallback. */
  lemma KeyFallback(name: Option<string>, f1: int, f2: int)
    ensures name.None? ==> Key(name, f1) == f1
    ensures name.Some? && Upper(name.value) !in NameToKey ==> Key(name, f1) == f1
    ensures name.Some? && Upper(name.value) in NameToKey ==> Key(name, f1) == Key(name, f2)
    ensures Key(name, f1) != f1 ==> exists n :: n in NameToKey && Key(name, f1) == NameToKey[n]
  {
  }

  const MoveLeft: int := Key(Some(MoveLeftName), K_a)
  const MoveRight: int := Key(Some(MoveRightName), K_d)
  const MoveUp: int := Key(Some(MoveUpName), K_w)
  const MoveDown: int := Key(Some(MoveDownName), K_s)
  const Interact: int := Key(Some(InteractName), K_f)
  const ContinueTalk: int := Key(Some(ContinueTalkName), K_SPACE)
  const JumpSpace: int := Key(Some(JumpSpaceName), K_SPACE)
  const JumpW: int := Key(Some(JumpWName), K_w)
  const Inventory: int := Key(Some(InventoryName), K_e)

  /** A table name written as it stands finds its own row. */
  lemma KnownName(n: string, fallback: int)
    requires n in NameToKey
    ensures Key(Some(n), fallback) == NameToKey[n]
  {
    TableNamesCapital(n);
    assert Upper(n) == n;
  }

  /** The side-view walking bindings: A left and D right. */
  lemma WalkBindings()
    ensures MoveLeft == K_a && MoveRight == K_d
  {
    KnownName("A", K_a);
    assert NameToKey["A"] == K_a;
    KnownName("D", K_d);
    assert NameToKey["D"] == K_d;
  }

  /** The top-down bindings: W up and S down. */
  lemma ClimbBindings()
    ensures MoveUp == K_w && MoveDown == K_s
  {
    KnownName("W", K_w);
    assert NameToKey["W"] == K_w;
    KnownName("S", K_s);
    assert NameToKey["S"] == K_s;
  }

  /** The action bindings: F to interact, Space both to talk on and to
      jump, W to jump as well, E for the inventory. */
  lemma ActionBindings()
    ensures Interact == K_f && Inventory == K_e
    ensures ContinueTalk == JumpSpace == K_SPACE
    ensures JumpW == MoveUp == K_w
  {
    KnownName("W", K_w);
    assert NameToKey["W"] == K_w;
    KnownName("F", K_f);
    assert NameToKey["F"] == K_f;
    KnownName("E", K_e);
    assert NameToKey["E"] == K_e;
    KnownName("SPACE", K_SPACE);
    assert NameToKey["SPACE"] == K_SPACE;
  }
}
