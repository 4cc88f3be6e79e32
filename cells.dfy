/** Grid cells as integer pairs, and `sorted(...)` on a set of them, which
    both the block store and the level editor use when they save. */
module Cells {

  type Cell = (int, int)

  /** Python's tuple order on pairs. */
  predicate Less(a: Cell, b: Cell)
  {
    a.0 < b.0 || (a.0 == b.0 && a.1 < b.1)
  }

  predicate StrictlySorted(s: seq<Cell>)
  {
    forall i, j :: 0 <= i < j < |s| ==> Less(s[i], s[j])
  }

  /** `order` lists the cells of `m`, each once: the order in which a
      dict keyed by cells yields its items. */
  ghost predicate Enumerates<V>(order: seq<Cell>, m: map<Cell, V>)
  {
    && (forall c :: c in order <==> c in m)
    && (forall i, j :: 0 <= i < j < |order| ==> order[i] != order[j])
  }

  /** `order` lists the cells of the set `s`, each once: the order in
      which iterating over a set of cells yields them. */
  ghost predicate Lists(order: seq<Cell>, s: set<Cell>)
  {
    && (forall c :: c in order <==> c in s)
    && (forall i, j :: 0 <= i < j < |order| ==> order[i] != order[j])
  }

  /** Every non-empty set of cells has a least element. */
  lemma {:induction false} Least(s: set<Cell>) returns (m: Cell)
    requires s != {}
    ensures m in s
    ensures forall c :: c in s && c != m ==> Less(m, c)
    decreases |s|
  {
    var x :| x in s;
    var rest := s - {x};
    if rest == {} {
      m := x;
      forall c | c in s
        ensures c == x
      {
        assert c !in rest;
      }
    } else {
      var r := Least(rest);
      if Less(r, x) {
        m := r;
        forall c | c in s && c != m
          ensures Less(m, c)
        {
          if c != x {
            assert c in rest;
          }
        }
      } else {
        m := x;
        assert r != x;
        assert Less(x, r);
        forall c | c in s && c != x
          ensures Less(x, c)
        {
          assert c in rest;
          if c != r {
            assert Less(r, c);
          }
        }
      }
    }
  }

  /** `sorted(cells)`: the cells in increasing order, each exactly once. */
  method SortedCells(cells: set<Cell>) returns (out: seq<Cell>)
    ensures StrictlySorted(out)
    ensures forall c :: c in out <==> c in cells
    ensures |out| == |cells|
  {
    out := [];
    var rest := cells;
    while rest != {}
      invariant StrictlySorted(out)
      invariant forall c :: c in cells <==> c in out || c in rest
      invariant forall c :: c in out ==> c !in rest
      invariant forall i, c :: 0 <= i < |out| && c in rest ==> Less(out[i], c)
      invariant |out| + |rest| == |cells|
      decreases |rest|
    {
      ghost var least := Least(rest);
      var m :| m in rest && forall c :: c in rest && c != m ==> Less(m, c);
      out := out + [m];
      rest := rest - {m};
    }
  }
}
