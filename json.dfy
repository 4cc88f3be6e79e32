/** A parsed JSON document as the game's loaders see it after `json.load`,
    and the Python conversions they apply to its parts. */
module Json {
  import opened Common

  /** An object keeps its members in file order, as a Python dict does;
      the keys of a parsed object are distinct, because `json.load` keeps
      only the last of repeated keys, so a `JObj` stands for the object
      after that merge. */
  datatype Json =
    | JNull
    | JBool(b: bool)
    | JInt(i: int)
    | JReal(r: real)
    | JStr(s: string)
    | JList(items: seq<Json>)
    | JObj(fields: seq<(string, Json)>)

  /** What a loader finds at a path: a file that `json.load` rejects, or a
      parsed document. A missing file is a path absent from the file map. */
  datatype FileContent = Unreadable | Parsed(doc: Json)

  /** `d.get(key)` on the members of an object: the value of the member
      with that key (the only one, in an object as parsed). */
  function Get(fields: seq<(string, Json)>, key: string): Option<Json>
  {
    if fields == [] then None
    else if fields[0].0 == key then Some(fields[0].1)
    else Get(fields[1..], key)
  }

  /** `Get` finds a member exactly when one has the key, and what it finds
      is that member's value. */
  lemma {:induction false} GetFinds(fields: seq<(string, Json)>, key: string)
    ensures Get(fields, key).Some? <==> exists i :: 0 <= i < |fields| && fields[i].0 == key
    ensures Get(fields, key).Some? ==> exists i :: 0 <= i < |fields| && fields[i] == (key, Get(fields, key).value)
  {
    if fields != [] && fields[0].0 != key {
      GetFinds(fields[1..], key);
      assert forall i :: 1 <= i < |fields| ==> fields[i] == fields[1..][i - 1];
      if Get(fields, key).Some? {
        var i :| 0 <= i < |fields[1..]| && fields[1..][i] == (key, Get(fields, key).value);
        assert fields[i + 1] == (key, Get(fields, key).value);
      }
    } else if fields != [] {
      assert fields[0] == (key, Get(fields, key).value);
    }
  }

  /** `Get` finds the first member with the key. */
  lemma {:induction false} GetAt(fields: seq<(string, Json)>, key: string, i: nat)
    requires i < |fields| && fields[i].0 == key
    requires forall j :: 0 <= j < i ==> fields[j].0 != key
    ensures Get(fields, key) == Some(fields[i].1)
  {
    if i > 0 {
      assert fields[0].0 != key;
      GetAt(fields[1..], key, i - 1);
    }
  }

  /** Both members of a two-member object are found. */
  lemma GetOfTwo(k1: string, v1: Json, k2: string, v2: Json)
    requires k1 != k2
    ensures Get([(k1, v1), (k2, v2)], k1) == Some(v1)
    ensures Get([(k1, v1), (k2, v2)], k2) == Some(v2)
  {
    var f := [(k1, v1), (k2, v2)];
    assert f[1..] == [(k2, v2)];
  }

  /** `d.get(key, default)`. */
  function GetOr(fields: seq<(string, Json)>, key: string, default: Json): Json
  {
    match Get(fields, key)
    case Some(v) => v
    case None => default
  }

  /** `dict(members)`: a later member with the same key wins. */
  function ObjMap(fields: seq<(string, Json)>): map<string, Json>
  {
    if fields == [] then map[]
    else
      var n := |fields| - 1;
      ObjMap(fields[..n])[fields[n].0 := fields[n].1]
  }

  /** Python truthiness of a JSON value. */
  predicate Truthy(j: Json)
  {
    match j
    case JNull => false
    case JBool(b) => b
    case JInt(i) => i != 0
    case JReal(r) => r != 0.0
    case JStr(s) => s != ""
    case JList(items) => items != []
    case JObj(fields) => fields != []
  }

  /** Python's `int(v)`; `None` where `int` raises. */
  function ToInt(j: Json): Option<int>
  {
    match j
    case JBool(b) => Some(if b then 1 else 0)
    case JInt(i) => Some(i)
    case JReal(r) => Some(Trunc(r))
    case JStr(s) => ParseInt(s)
    case _ => None
  }

  /** Python's `str(v)` for strings, integers, booleans and `null`. A
      float, list or object is rendered as the empty string here, where
      Python gives its `repr` (`"1.5"`, `"[1, 2]"`, `"{'a': 1}"`). */
  function ToStr(j: Json): string
  {
    match j
    case JStr(s) => s
    case JInt(i) => IntToString(i)
    case JBool(b) => if b then "True" else "False"
    case JNull => "None"
    case _ => ""
  }

  /** An `isinstance(p, (list, tuple)) and len(p) == 2` pair of ints. */
  function IntPair(p: Json): Option<(int, int)>
    requires p.JList? && |p.items| == 2
  {
    match (ToInt(p.items[0]), ToInt(p.items[1]))
    case (Some(a), Some(b)) => Some((a, b))
    case _ => None
  }

  function PairJson(a: int, b: int): Json
  {
    JList([JInt(a), JInt(b)])
  }

  lemma IntPairRoundTrip(a: int, b: int)
    ensures IntPair(PairJson(a, b)) == Some((a, b))
  {
  }

  // -----------------------------------------------------------------------
  // Iterating a value and collecting its items
  // -----------------------------------------------------------------------

  /** What `for item in v` yields: the items of a list, the one-character
      strings of a string, the keys of an object; `None` where Python
      raises because the value is not iterable. */
  function Elements(j: Json): (r: Option<seq<Json>>)
    ensures j.JList? ==> r == Some(j.items)
    ensures r.None? <==> !(j.JList? || j.JStr? || j.JObj?)
  {
    match j
    case JList(items) => Some(items)
    case JStr(s) => Some(seq(|s|, i requires 0 <= i < |s| => JStr([s[i]])))
    case JObj(fields) => Some(seq(|fields|, i requires 0 <= i < |fields| => JStr(fields[i].0)))
    case _ => None
  }

  /** A loop over `items` that reads each with `f`: `None` from `f` raises
      (and so does the loop), `Some(None)` skips the item, `Some(Some(x))`
      appends `x`. */
  function Collect<T>(items: seq<Json>, f: Json -> Option<Option<T>>): Option<seq<T>>
  {
    if items == [] then Some([])
    else
      var n := |items| - 1;
      var prev := Collect(items[..n], f);
      if prev.None? then None
      else
        match f(items[n])
        case None => None
        case Some(None) => prev
        case Some(Some(x)) => Some(prev.value + [x])
  }

  /** Once an item has raised, the whole loop has. */
  lemma {:induction false} CollectStops<T>(items: seq<Json>, f: Json -> Option<Option<T>>, i: nat)
    requires i <= |items| && Collect(items[..i], f).None?
    ensures Collect(items, f).None?
    decreases |items| - i
  {
    if i < |items| {
      assert items[..i + 1][..i] == items[..i];
      CollectStops(items, f, i + 1);
    } else {
      assert items[..i] == items;
    }
  }

  /** `xs` written out item by item with `enc`. */
  function Encode<T>(xs: seq<T>, enc: T -> Json): (r: seq<Json>)
    ensures |r| == |xs|
  {
    if xs == [] then [] else Encode(xs[..|xs| - 1], enc) + [enc(xs[|xs| - 1])]
  }

  /** Items written with an encoding that `f` reads back are collected
      back unchanged, in order. */
  lemma {:induction false} CollectEncode<T>(xs: seq<T>, enc: T -> Json, f: Json -> Option<Option<T>>)
    requires forall x :: f(enc(x)) == Some(Some(x))
    ensures Collect(Encode(xs, enc), f) == Some(xs)
  {
    if xs != [] {
      var n := |xs| - 1;
      var items := Encode(xs, enc);
      assert items[..n] == Encode(xs[..n], enc);
      CollectEncode(xs[..n], enc, f);
      assert f(items[n]) == Some(Some(xs[n]));
      assert xs[..n] + [xs[n]] == xs;
    }
  }

  /** The loop itself, stopping at the first item that raises. */
  method CollectItems<T>(items: seq<Json>, f: Json -> Option<Option<T>>) returns (r: Option<seq<T>>)
    ensures r == Collect(items, f)
  {
    var acc: seq<T> := [];
    for i := 0 to |items|
      invariant Collect(items[..i], f) == Some(acc)
    {
      assert items[..i + 1][..i] == items[..i];
      var got := f(items[i]);
      if got.None? {
        CollectStops(items, f, i + 1);
        return None;
      }
      if got.value.Some? {
        acc := acc + [got.value.value];
      }
    }
    assert items[..|items|] == items;
    return Some(acc);
  }
}
