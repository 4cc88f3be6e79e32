/** The tile-override and wall-block store of map_system.py: per-map tile
    path overrides saved as `"r,c"` keys, their metadata, the set of wall
    blocks, the grid conversions and the circle-against-blocks collision
    test. The module's globals are the fields of one `MapStore`; the files
    it reads and writes are the store's `disk`, a map from path to what
    `json.load` finds there. */
module MapSystem {
  import opened Common
  import opened Json
  import opened Cells

  const TileSize: int := 256
  const MapRows: int := 12
  const MapCols: int := 12
  const WorldW: int := 4800
  const WorldH: int := 540
  const BlockSize: int := 32
  const TileFolder: string := "assets/tiles"

  // -----------------------------------------------------------------------
  // Paths
  // -----------------------------------------------------------------------

  /** `_norm`: every backslash becomes a slash. */
  function Norm(path: string): string
  {
    if path == [] then [] else [if path[0] == '\\' then '/' else path[0]] + Norm(path[1..])
  }

  /** `Norm` keeps the length and replaces each backslash, and only those. */
  lemma {:induction false} NormChars(path: string)
    ensures |Norm(path)| == |path|
    ensures forall i :: 0 <= i < |path| ==> Norm(path)[i] == if path[i] == '\\' then '/' else path[i]
  {
    if path != [] {
      NormChars(path[1..]);
    }
  }

  /** A normalised path has no backslash left, and normalising it again
      changes nothing. */
  lemma NormIdempotent(path: string)
    ensures '\\' !in Norm(path)
    ensures Norm(Norm(path)) == Norm(path)
  {
    var n := Norm(path);
    NormChars(path);
    NormChars(n);
    assert forall i :: 0 <= i < |n| ==> n[i] != '\\';
    assert forall i :: 0 <= i < |n| ==> Norm(n)[i] == n[i];
  }

  function OverridePath(mapId: string): string
  {
    "map_overrides_" + mapId + ".json"
  }

  function BlocksPath(mapId: string): string
  {
    "map_blocks_" + mapId + ".json"
  }

  /** Each map has its own override file and its own block file, and no
      override file is ever a block file. */
  lemma PathsDistinct(a: string, b: string)
    ensures OverridePath(a) == OverridePath(b) ==> a == b
    ensures BlocksPath(a) == BlocksPath(b) ==> a == b
    ensures OverridePath(a) != BlocksPath(b)
  {
    var oa, ob := OverridePath(a), OverridePath(b);
    assert oa[14..|oa| - 5] == a && ob[14..|ob| - 5] == b;
    var ba, bb := BlocksPath(a), BlocksPath(b);
    assert ba[11..|ba| - 5] == a && bb[11..|bb| - 5] == b;
    assert oa[4] == 'o' && ba[4] == 'b';
  }

  // -----------------------------------------------------------------------
  // The "r,c" key encoding
  // -----------------------------------------------------------------------

  /** `f"{r},{c}"`. */
  function EncodeKey(c: Cell): string
  {
    IntToString(c.0) + "," + IntToString(c.1)
  }

  /** `r, c = map(int, k.split(","))`; `None` where that raises. */
  function ParseKey(k: string): Option<Cell>
  {
    var parts := Split(k, ',');
    if |parts| != 2 then None
    else
      match (ParseInt(parts[0]), ParseInt(parts[1]))
      case (Some(r), Some(c)) => Some((r, c))
      case _ => None
  }

  /** Parsing an encoded key gives the cell back. */
  lemma KeyRoundTrip(c: Cell)
    ensures ParseKey(EncodeKey(c)) == Some(c)
  {
    var a, b := IntToString(c.0), IntToString(c.1);
    IntToStringNoComma(c.0);
    IntToStringNoComma(c.1);
    assert EncodeKey(c) == a + [','] + b;
    SplitAtSep(a, ',', b);
    SplitNoSep(b, ',');
    assert Split(EncodeKey(c), ',') == [a, b];
    ParseIntToString(c.0);
    ParseIntToString(c.1);
  }

  // -----------------------------------------------------------------------
  // Override documents
  // -----------------------------------------------------------------------

  /** The overrides read from the members of an override object, in file
      order: a later key for the same cell wins, and keys that are not two
      comma-separated integers, or whose value is not a string, are
      skipped. */
  function OverridesFrom(entries: seq<(string, Json)>): map<Cell, string>
    decreases |entries|
  {
    if entries == [] then map[]
    else
      var n := |entries| - 1;
      var prev := OverridesFrom(entries[..n]);
      match EntryOverride(entries[n])
      case Some(o) => prev[o.0 := o.1]
      case None => prev
  }

  /** One member `k: v` of an override object as a cell and its normalised
      path, when `k` parses and `v` is a string. */
  function EntryOverride(e: (string, Json)): Option<(Cell, string)>
  {
    match (ParseKey(e.0), e.1)
    case (Some(cell), JStr(p)) => Some((cell, Norm(p)))
    case _ => None
  }

  lemma EntryOverrideEncoded(c: Cell, p: string)
    ensures EntryOverride((EncodeKey(c), JStr(p))) == Some((c, Norm(p)))
  {
    KeyRoundTrip(c);
  }

  /** The metadata keys every loaded or saved override file carries. */
  predicate MetaComplete(m: map<string, Json>)
  {
    "map" in m && "override_file" in m && "tile_folder" in m && "file" in m && "count" in m
  }

  /** `_ensure_meta_defaults(map_id, meta)` with `ACTIVE_TILE_FOLDER` as
      `folder` and `len(TILE_OVERRIDE)` as `count`. */
  function EnsureMetaDefaults(mapId: string, meta: map<string, Json>, folder: string, count: int)
    : (r: map<string, Json>)
    ensures MetaComplete(r)
  {
    var m1 := if "map" in meta then meta else meta["map" := JStr(mapId)];
    var m2 := if "override_file" in m1 then m1 else m1["override_file" := JStr(OverridePath(mapId))];
    var m3 := if "tile_folder" in m2 then m2 else m2["tile_folder" := JStr(folder)];
    var m4 := if "file" in m3 then m3 else m3["file" := m3["override_file"]];
    m4["count" := JInt(count)]
  }

  /** Completing metadata fills the missing defaults, never overwrites a
      supplied value, lets `file` fall back to `override_file`, always sets
      the count, and keeps every other member. */
  lemma MetaDefaultsSpec(mapId: string, meta: map<string, Json>, folder: string, count: int)
    ensures var r := EnsureMetaDefaults(mapId, meta, folder, count);
      && r["map"] == (if "map" in meta then meta["map"] else JStr(mapId))
      && r["override_file"] == (if "override_file" in meta then meta["override_file"] else JStr(OverridePath(mapId)))
      && r["tile_folder"] == (if "tile_folder" in meta then meta["tile_folder"] else JStr(folder))
      && r["file"] == (if "file" in meta then meta["file"] else r["override_file"])
      && r["count"] == JInt(count)
      && (forall k :: k in meta ==> k in r)
      && (forall k :: k in r && k !in {"map", "override_file", "tile_folder", "file", "count"} ==>
                         k in meta && r[k] == meta[k])
  {
  }

  /** What `load_overrides` leaves behind: the overrides and the metadata. */
  datatype Loaded = Loaded(overrides: map<Cell, string>, meta: map<string, Json>)

  /** `load_overrides` for map `mid` as a function of the files. A missing
      or unreadable file, a document that is not an object, and an
      `"overrides"` member that is not an object give no overrides and
      default metadata. Otherwise the `"overrides"` object is read, or the
      whole document when it has none (the legacy flat format), and the
      `"_meta"` object, if any, is completed with defaults. */
  function LoadOverridesFrom(disk: map<string, FileContent>, mid: string, folder: string): Loaded
  {
    var parts := OverrideParts(disk, OverridePath(mid));
    Loaded(parts.0, EnsureMetaDefaults(mid, parts.1, folder, |parts.0|))
  }

  /** The overrides and the raw metadata the file at `path` supplies. */
  function OverrideParts(disk: map<string, FileContent>, path: string): (map<Cell, string>, map<string, Json>)
  {
    if path in disk && disk[path].Parsed? && disk[path].doc.JObj? then
      var raw := disk[path].doc;
      var data := GetOr(raw.fields, "overrides", raw);
      if data.JObj? then
        var m := GetOr(raw.fields, "_meta", JObj([]));
        (OverridesFrom(data.fields), if m.JObj? then ObjMap(m.fields) else map[])
      else (map[], map[])
    else (map[], map[])
  }

  /** The metadata `save_overrides` keeps after writing. */
  function SavedMeta(mid: string, folder: string, count: int): map<string, Json>
  {
    EnsureMetaDefaults(mid, map["map" := JStr(mid), "override_file" := JStr(OverridePath(mid)), "tile_folder" := JStr(folder)],
                       folder, count)
  }

  /** The same metadata as the members of the written object, in the order
      the dict holds them. */
  function SavedMetaFields(mid: string, folder: string, count: int): seq<(string, Json)>
  {
    [ ("map", JStr(mid)), ("override_file", JStr(OverridePath(mid))), ("tile_folder", JStr(folder)),
      ("file", JStr(OverridePath(mid))), ("count", JInt(count)) ]
  }

  lemma SavedMetaFieldsAgree(mid: string, folder: string, count: int)
    ensures ObjMap(SavedMetaFields(mid, folder, count)) == SavedMeta(mid, folder, count)
  {
    var f := SavedMetaFields(mid, folder, count);
    var op := JStr(OverridePath(mid));
    assert ObjMap(f[..1]) == map["map" := JStr(mid)] by {
      assert f[..1][..0] == [];
    }
    assert ObjMap(f[..2]) == map["map" := JStr(mid), "override_file" := op] by {
      assert f[..2][..1] == f[..1];
    }
    assert ObjMap(f[..3]) == map["map" := JStr(mid), "override_file" := op, "tile_folder" := JStr(folder)] by {
      assert f[..3][..2] == f[..2];
    }
    assert ObjMap(f[..4]) == map["map" := JStr(mid), "override_file" := op, "tile_folder" := JStr(folder), "file" := op] by {
      assert f[..4][..3] == f[..3];
    }
    assert f[..5] == f;
  }

  /** The `"overrides"` members `save_overrides` writes, in `order`. */
  function EntriesOf(order: seq<Cell>, m: map<Cell, string>): (r: seq<(string, Json)>)
    requires forall c :: c in order ==> c in m
    ensures |r| == |order|
  {
    if order == [] then []
    else
      var n := |order| - 1;
      EntriesOf(order[..n], m) + [(EncodeKey(order[n]), JStr(Norm(m[order[n]])))]
  }

  function SavedDoc(meta: seq<(string, Json)>, entries: seq<(string, Json)>): Json
  {
    JObj([("_meta", JObj(meta)), ("overrides", JObj(entries))])
  }

  function NormAll(m: map<Cell, string>): map<Cell, string>
  {
    map c | c in m :: Norm(m[c])
  }

  /** The normalised overrides of the cells listed in `order`. */
  function NormOver(order: seq<Cell>, m: map<Cell, string>): map<Cell, string>
  {
    map c | c in order && c in m :: Norm(m[c])
  }

  lemma {:induction false} OverridesOfEntries(order: seq<Cell>, m: map<Cell, string>)
    requires forall c :: c in order ==> c in m
    ensures OverridesFrom(EntriesOf(order, m)) == NormOver(order, m)
    decreases |order|
  {
    if order != [] {
      var n := |order| - 1;
      var last := order[n];
      var before := EntriesOf(order[..n], m);
      var e := (EncodeKey(last), JStr(Norm(m[last])));
      assert EntriesOf(order, m) == before + [e];
      OverridesFromSnoc(before, e);
      OverridesOfEntries(order[..n], m);
      EntryOverrideEncoded(last, Norm(m[last]));
      NormIdempotent(m[last]);
      NormOverSnoc(order, m);
    }
  }

  lemma NormOverSnoc(order: seq<Cell>, m: map<Cell, string>)
    requires order != [] && order[|order| - 1] in m
    ensures var n := |order| - 1;
      NormOver(order, m) == NormOver(order[..n], m)[order[n] := Norm(m[order[n]])]
  {
    var n := |order| - 1;
    assert order == order[..n] + [order[n]];
    var got := NormOver(order[..n], m)[order[n] := Norm(m[order[n]])];
    var want := NormOver(order, m);
    assert got.Keys == want.Keys;
  }

  lemma OverridesFromSnoc(entries: seq<(string, Json)>, e: (string, Json))
    ensures OverridesFrom(entries + [e]) ==
              match EntryOverride(e)
              case Some(o) => OverridesFrom(entries)[o.0 := o.1]
              case None => OverridesFrom(entries)
  {
    assert (entries + [e])[..|entries|] == entries;
  }

  /** Saving the overrides of a map and loading them again gives back the
      same cells with normalised paths, and the same metadata, whatever
      tile folder is active when loading. */
  lemma SaveThenLoad(disk: map<string, FileContent>, mid: string, folder: string, folder2: string,
                     m: map<Cell, string>, order: seq<Cell>)
    requires Enumerates(order, m)
    ensures var saved := disk[OverridePath(mid) := Parsed(SavedDoc(SavedMetaFields(mid, folder, |m|), EntriesOf(order, m)))];
      LoadOverridesFrom(saved, mid, folder2) == Loaded(NormAll(m), SavedMeta(mid, folder, |m|))
  {
    var fields := SavedMetaFields(mid, folder, |m|);
    var entries := EntriesOf(order, m);
    var raw := SavedDoc(fields, entries);
    var saved := disk[OverridePath(mid) := Parsed(raw)];
    SavedEntriesRead(m, order);
    var ov := OverridesFrom(entries);
    GetOfTwo("_meta", JObj(fields), "overrides", JObj(entries));
    assert GetOr(raw.fields, "overrides", raw) == JObj(entries);
    assert GetOr(raw.fields, "_meta", JObj([])) == JObj(fields);
    SavedMetaFieldsAgree(mid, folder, |m|);
    MetaDefaultsFixed(mid, SavedMeta(mid, folder, |m|), folder2, |m|);
    var meta := EnsureMetaDefaults(mid, ObjMap(fields), folder2, |ov|);
    assert meta == SavedMeta(mid, folder, |m|);
    assert LoadOverridesFrom(saved, mid, folder2) == Loaded(ov, meta);
  }

  /** The written `"overrides"` members read back as the normalised
      overrides. */
  lemma SavedEntriesRead(m: map<Cell, string>, order: seq<Cell>)
    requires Enumerates(order, m)
    ensures OverridesFrom(EntriesOf(order, m)) == NormAll(m)
    ensures |NormAll(m)| == |m|
  {
    OverridesOfEntries(order, m);
    assert NormOver(order, m).Keys == m.Keys;
    assert NormOver(order, m) == NormAll(m);
    assert NormAll(m).Keys == m.Keys;
  }

  /** Completing metadata that is already complete, with the count it
      already has, changes nothing. */
  lemma MetaDefaultsFixed(mid: string, meta: map<string, Json>, folder: string, count: int)
    requires MetaComplete(meta) && meta["count"] == JInt(count)
    ensures EnsureMetaDefaults(mid, meta, folder, count) == meta
  {
  }

  /** Paths are already normalised in memory, so the round trip restores
      the overrides exactly. */
  lemma NormAllIdentity(m: map<Cell, string>)
    requires forall c :: c in m ==> Norm(m[c]) == m[c]
    ensures NormAll(m) == m
  {
  }

  // -----------------------------------------------------------------------
  // Block documents
  // -----------------------------------------------------------------------

  /** The blocks read from a `"blocks"` list, in order, and whether the
      reading got through: a two-element list adds its pair, other items
      are skipped, and the first pair whose `int()` fails stops the reading
      with the pairs read so far. */
  function BlocksFrom(items: seq<Json>): (set<Cell>, bool)
    decreases |items|
  {
    if items == [] then ({}, true)
    else
      var n := |items| - 1;
      var prev := BlocksFrom(items[..n]);
      var p := items[n];
      if !prev.1 then prev
      else if p.JList? && |p.items| == 2 then
        match IntPair(p)
        case Some(c) => (prev.0 + {c}, true)
        case None => (prev.0, false)
      else prev
  }

  /** Once a pair has failed, later items change nothing. */
  lemma {:induction false} BlocksFromStops(items: seq<Json>, i: nat)
    requires i <= |items| && !BlocksFrom(items[..i]).1
    ensures BlocksFrom(items) == BlocksFrom(items[..i])
    decreases |items| - i
  {
    if i < |items| {
      assert items[..i + 1][..i] == items[..i];
      BlocksFromStops(items, i + 1);
      if i + 1 == |items| {
        assert items[..i + 1] == items;
      }
    } else {
      assert items[..i] == items;
    }
  }

  /** `load_blocks` for map `mid` as a function of the files. */
  function LoadBlocksFrom(disk: map<string, FileContent>, mid: string): set<Cell>
  {
    var path := BlocksPath(mid);
    if path !in disk then {}
    else
      match disk[path]
      case Unreadable => {}
      case Parsed(raw) =>
        if !raw.JObj? then {}
        else
          var bl := GetOr(raw.fields, "blocks", JList([]));
          if bl.JList? then BlocksFrom(bl.items).0 else {}
  }

  function PairsJson(cells: seq<Cell>): (r: seq<Json>)
    ensures |r| == |cells|
    ensures forall i :: 0 <= i < |cells| ==> r[i] == PairJson(cells[i].0, cells[i].1)
  {
    seq(|cells|, i requires 0 <= i < |cells| => PairJson(cells[i].0, cells[i].1))
  }

  /** The document `save_blocks` writes, with the blocks in `sorted`. */
  function BlocksDoc(mid: string, sorted: seq<Cell>): Json
  {
    JObj([("_meta", JObj([("map", JStr(mid)), ("block_size", JInt(BlockSize))])),
          ("blocks", JList(PairsJson(sorted)))])
  }

  lemma {:induction false} BlocksOfPairs(cells: seq<Cell>)
    ensures BlocksFrom(PairsJson(cells)) == (set c | c in cells, true)
    decreases |cells|
  {
    if cells != [] {
      var n := |cells| - 1;
      var items := PairsJson(cells);
      assert items[..n] == PairsJson(cells[..n]);
      BlocksOfPairs(cells[..n]);
      IntPairRoundTrip(cells[n].0, cells[n].1);
      assert items[n] == PairJson(cells[n].0, cells[n].1);
      assert BlocksFrom(items) == (BlocksFrom(items[..n]).0 + {cells[n]}, true);
      assert cells == cells[..n] + [cells[n]];
      assert (set c | c in cells) == (set c | c in cells[..n]) + {cells[n]};
    } else {
      assert (set c | c in cells) == {};
    }
  }

  /** Saving the blocks of a map and loading them again gives the same set. */
  lemma SaveBlocksThenLoad(disk: map<string, FileContent>, mid: string, blocks: set<Cell>, sorted: seq<Cell>)
    requires forall c :: c in sorted <==> c in blocks
    ensures LoadBlocksFrom(disk[BlocksPath(mid) := Parsed(BlocksDoc(mid, sorted))], mid) == blocks
  {
    BlocksOfPairs(sorted);
    var doc := BlocksDoc(mid, sorted);
    GetOfTwo("_meta", doc.fields[0].1, "blocks", JList(PairsJson(sorted)));
    assert GetOr(doc.fields, "blocks", JList([])) == JList(PairsJson(sorted));
    assert (set c | c in sorted) == blocks;
  }

  // -----------------------------------------------------------------------
  // Blocks and cells in world coordinates
  // -----------------------------------------------------------------------

  /** `world_to_block`: the block whose square contains the point. */
  function WorldToBlock(x: real, y: real): (b: Cell)
    ensures (b.0 * BlockSize) as real <= x < ((b.0 + 1) * BlockSize) as real
    ensures (b.1 * BlockSize) as real <= y < ((b.1 + 1) * BlockSize) as real
  {
    (FloorDiv(x, BlockSize as real), FloorDiv(y, BlockSize as real))
  }

  /** `toggle_block_at_world`'s effect on the block set: `None` flips the
      block, `True` adds it, `False` removes it. */
  function Toggled(blocks: set<Cell>, b: Cell, setTo: Option<bool>): (r: set<Cell>)
    ensures b in r <==> if setTo.None? then b !in blocks else setTo.value
    ensures forall c :: c != b ==> (c in r <==> c in blocks)
  {
    match setTo
    case None => if b in blocks then blocks - {b} else blocks + {b}
    case Some(v) => if v then blocks + {b} else blocks - {b}
  }

  /** Flipping the same block twice restores the set. */
  lemma ToggleTwice(blocks: set<Cell>, b: Cell)
    ensures Toggled(Toggled(blocks, b, None), b, None) == blocks
  {
    var r := Toggled(Toggled(blocks, b, None), b, None);
    assert forall c :: c in r <==> c in blocks;
  }

  /** `get_cell_from_world`: the 1-based tile cell (row, column) holding
      the point, defined exactly on the 12 x 12 tile grid. */
  function GetCellFromWorld(x: real, y: real): (r: Option<Cell>)
    ensures r.Some? <==> 0.0 <= x < (MapCols * TileSize) as real && 0.0 <= y < (MapRows * TileSize) as real
    ensures r.Some? ==> 1 <= r.value.0 <= MapRows && 1 <= r.value.1 <= MapCols
    ensures r.Some? ==> ((r.value.1 - 1) * TileSize) as real <= x < (r.value.1 * TileSize) as real
    ensures r.Some? ==> ((r.value.0 - 1) * TileSize) as real <= y < (r.value.0 * TileSize) as real
  {
    var c := FloorDiv(x, TileSize as real) + 1;
    var r := FloorDiv(y, TileSize as real) + 1;
    if 1 <= r <= MapRows && 1 <= c <= MapCols then Some((r, c)) else None
  }

  /** `clamp_to_world`. */
  function ClampToWorld(x: real, y: real): (p: (real, real))
    ensures 0.0 <= p.0 <= WorldW as real && 0.0 <= p.1 <= WorldH as real
    ensures 0.0 <= x <= WorldW as real ==> p.0 == x
    ensures 0.0 <= y <= WorldH as real ==> p.1 == y
  {
    (MaxR(0.0, MinR(WorldW as real, x)), MaxR(0.0, MinR(WorldH as real, y)))
  }

  /** The image `draw_background` draws for cell (r, c): its override when
      there is a non-empty one, else `{r}-{c}.png` in the active folder. */
  function TilePath(overrides: map<Cell, string>, folder: string, cell: Cell): (p: string)
    ensures cell in overrides && overrides[cell] != "" ==> p == overrides[cell]
    ensures !(cell in overrides && overrides[cell] != "") ==>
              p == JoinPath(folder, IntToString(cell.0) + "-" + IntToString(cell.1) + ".png")
  {
    if cell in overrides && overrides[cell] != "" then overrides[cell]
    else JoinPath(folder, IntToString(cell.0) + "-" + IntToString(cell.1) + ".png")
  }

  // -----------------------------------------------------------------------
  // Collision
  // -----------------------------------------------------------------------

  /** `_circle_rect_intersect`: the point of the rectangle nearest to the
      centre is within the radius. */
  predicate CircleRectIntersect(cx: real, cy: real, cr: real, rx: real, ry: real, rw: real, rh: real)
  {
    var nx := MaxR(rx, MinR(cx, rx + rw));
    var ny := MaxR(ry, MinR(cy, ry + rh));
    var dx, dy := cx - nx, cy - ny;
    dx * dx + dy * dy <= cr * cr
  }

  predicate InRectWithin(cx: real, cy: real, cr: real, rx: real, ry: real, rw: real, rh: real, px: real, py: real)
  {
    rx <= px <= rx + rw && ry <= py <= ry + rh && (cx - px) * (cx - px) + (cy - py) * (cy - py) <= cr * cr
  }

  lemma SquareMonotone(a: real, b: real)
    requires 0.0 <= a <= b
    ensures a * a <= b * b
  {
    assert a * a <= a * b;
    assert a * b <= b * b;
  }

  /** Along one axis the clamped coordinate is the nearest one. */
  lemma NearestOnAxis(c: real, lo: real, hi: real, p: real)
    requires lo <= p <= hi
    ensures var n := MaxR(lo, MinR(c, hi)); (c - n) * (c - n) <= (c - p) * (c - p)
  {
    var n := MaxR(lo, MinR(c, hi));
    if c < lo {
      SquareMonotone(lo - c, p - c);
    } else if c > hi {
      SquareMonotone(c - hi, c - p);
    }
  }

  /** For a rectangle of non-negative size, the test holds exactly when
      some point of the (closed) rectangle lies within the radius. */
  lemma CircleRectIntersectMeans(cx: real, cy: real, cr: real, rx: real, ry: real, rw: real, rh: real)
    requires rw >= 0.0 && rh >= 0.0
    ensures CircleRectIntersect(cx, cy, cr, rx, ry, rw, rh) <==>
            exists px, py :: InRectWithin(cx, cy, cr, rx, ry, rw, rh, px, py)
  {
    var nx := MaxR(rx, MinR(cx, rx + rw));
    var ny := MaxR(ry, MinR(cy, ry + rh));
    if CircleRectIntersect(cx, cy, cr, rx, ry, rw, rh) {
      assert InRectWithin(cx, cy, cr, rx, ry, rw, rh, nx, ny);
    }
    forall px, py | InRectWithin(cx, cy, cr, rx, ry, rw, rh, px, py)
      ensures CircleRectIntersect(cx, cy, cr, rx, ry, rw, rh)
    {
      NearestOnAxis(cx, rx, rx + rw, px);
      NearestOnAxis(cy, ry, ry + rh, py);
    }
  }

  /** A centre inside the rectangle always intersects. */
  lemma CentreInsideIntersects(cx: real, cy: real, cr: real, rx: real, ry: real, rw: real, rh: real)
    requires rx <= cx <= rx + rw && ry <= cy <= ry + rh
    ensures CircleRectIntersect(cx, cy, cr, rx, ry, rw, rh)
  {
    assert MaxR(rx, MinR(cx, rx + rw)) == cx;
    assert MaxR(ry, MinR(cy, ry + rh)) == cy;
    assert 0.0 <= cr * cr;
  }

  /** The range of blocks `collides_circle` inspects:
      (first column, first row, last column, last row). */
  function Window(x: real, y: real, radius: real): (int, int, int, int)
  {
    ( Max(0, FloorDiv(x - radius, BlockSize as real)),
      Max(0, FloorDiv(y - radius, BlockSize as real)),
      Min(WorldW / BlockSize, FloorDiv(x + radius, BlockSize as real)),
      Min(WorldH / BlockSize, FloorDiv(y + radius, BlockSize as real)) )
  }

  predicate InWindow(b: Cell, x: real, y: real, radius: real)
  {
    var w := Window(x, y, radius);
    w.0 <= b.0 <= w.2 && w.1 <= b.1 <= w.3
  }

  predicate BlockTouches(b: Cell, x: real, y: real, radius: real)
  {
    CircleRectIntersect(x, y, radius, (b.0 * BlockSize) as real, (b.1 * BlockSize) as real,
                        BlockSize as real, BlockSize as real)
  }

  /** What `collides_circle` answers. */
  predicate CollidesSpec(blocks: set<Cell>, x: real, y: real, radius: real)
  {
    exists b :: b in blocks && InWindow(b, x, y, radius) && BlockTouches(b, x, y, radius)
  }

  lemma AbsBelow(d: real, r: real)
    requires r >= 0.0 && d * d < r * r
    ensures -r < d < r
  {
    if d >= r {
      SquareMonotone(r, d);
    } else if d <= -r {
      SquareMonotone(r, -d);
    }
  }

  lemma SumBelow(a: real, b: real, r: real)
    requires r >= 0.0 && a * a + b * b < r * r
    ensures -r < a < r && -r < b < r
  {
    assert 0.0 <= a * a && 0.0 <= b * b;
    AbsBelow(a, r);
    AbsBelow(b, r);
  }

  /** Along one axis: when the nearest coordinate of block `k` is closer
      than the radius, `k` lies between the floored ends of the span. */
  lemma AxisInRange(p: real, radius: real, k: int)
    requires radius >= 0.0
    requires var n := MaxR((k * BlockSize) as real, MinR(p, (k * BlockSize + BlockSize) as real));
             -radius < p - n < radius
    ensures FloorDiv(p - radius, BlockSize as real) <= k <= FloorDiv(p + radius, BlockSize as real)
  {
    var lo := FloorDiv(p - radius, BlockSize as real);
    var hi := FloorDiv(p + radius, BlockSize as real);
    assert p - radius < (k + 1) as real * 32.0;
    assert (lo as real) * 32.0 < (k + 1) as real * 32.0;
    assert p + radius > (k as real) * 32.0;
    assert (k as real) * 32.0 < (hi + 1) as real * 32.0;
  }

  /** Every block inside the world grid that the circle overlaps by more
      than a touch lies in the inspected range, so the test finds it. */
  lemma CollidesFindsOverlap(blocks: set<Cell>, x: real, y: real, radius: real, b: Cell)
    requires b in blocks && radius >= 0.0
    requires 0 <= b.0 <= WorldW / BlockSize && 0 <= b.1 <= WorldH / BlockSize
    requires var rx, ry := (b.0 * BlockSize) as real, (b.1 * BlockSize) as real;
             var nx := MaxR(rx, MinR(x, rx + BlockSize as real));
             var ny := MaxR(ry, MinR(y, ry + BlockSize as real));
             (x - nx) * (x - nx) + (y - ny) * (y - ny) < radius * radius
    ensures CollidesSpec(blocks, x, y, radius)
  {
    var rx, ry := (b.0 * BlockSize) as real, (b.1 * BlockSize) as real;
    var nx := MaxR(rx, MinR(x, rx + BlockSize as real));
    var ny := MaxR(ry, MinR(y, ry + BlockSize as real));
    SumBelow(x - nx, y - ny, radius);
    AxisInRange(x, radius, b.0);
    AxisInRange(y, radius, b.1);
    assert InWindow(b, x, y, radius);
    assert BlockTouches(b, x, y, radius);
  }

  /** What `load_overrides` reads from the file at `path`: a missing or
      unreadable file, or a read that raises, supplies nothing. */
  method ReadOverrideFile(disk: map<string, FileContent>, path: string) returns (ov: map<Cell, string>, metaIn: map<string, Json>)
    ensures (ov, metaIn) == OverrideParts(disk, path)
  {
    ov, metaIn := map[], map[];
    if path in disk && disk[path].Parsed? && disk[path].doc.JObj? {
      var raw := disk[path].doc;
      var data := GetOr(raw.fields, "overrides", raw);
      if data.JObj? {
        ov := ReadOverrides(data.fields);
        var m := GetOr(raw.fields, "_meta", JObj([]));
        metaIn := if m.JObj? then ObjMap(m.fields) else map[];
      }
    }
  }

  /** The loop of `load_overrides` over the members of `"overrides"`. */
  method ReadOverrides(entries: seq<(string, Json)>) returns (ov: map<Cell, string>)
    ensures ov == OverridesFrom(entries)
  {
    ov := map[];
    for i := 0 to |entries|
      invariant ov == OverridesFrom(entries[..i])
    {
      assert entries[..i + 1][..i] == entries[..i];
      var o := EntryOverride(entries[i]);
      if o.Some? {
        ov := ov[o.value.0 := o.value.1];
      }
    }
    assert entries[..|entries|] == entries;
  }

  /** The loop of `save_overrides` building the `"overrides"` object: the
      cells in the dict's order (some order of them), each with its key and
      normalised path. */
  method WriteOverrides(m: map<Cell, string>) returns (order: seq<Cell>, entries: seq<(string, Json)>)
    ensures Enumerates(order, m)
    ensures entries == EntriesOf(order, m)
  {
    order := [];
    entries := [];
    var rest := m.Keys;
    while rest != {}
      invariant forall c :: c in m <==> c in order || c in rest
      invariant forall c :: c in order ==> c !in rest
      invariant forall i, j :: 0 <= i < j < |order| ==> order[i] != order[j]
      invariant entries == EntriesOf(order, m)
      decreases |rest|
    {
      var c :| c in rest;
      assert (order + [c])[..|order|] == order;
      assert EntriesOf(order + [c], m) == entries + [(EncodeKey(c), JStr(Norm(m[c])))];
      order := order + [c];
      entries := entries + [(EncodeKey(c), JStr(Norm(m[c])))];
      rest := rest - {c};
    }
  }

  // -----------------------------------------------------------------------
  // The store
  // -----------------------------------------------------------------------

  class MapStore {
    var currentMapId: string
    var activeTileFolder: string
    var tileOverride: map<Cell, string>
    /** The paths `_image_cache` holds an entry for. */
    var imageCache: set<string>
    var blocks: set<Cell>
    var overrideMeta: map<string, Json>
    var disk: map<string, FileContent>

    /** Loaded or saved metadata always carries the default keys. */
    ghost predicate Valid()
      reads this
    {
      overrideMeta == map[] || MetaComplete(overrideMeta)
    }

    /** The module's state at import time, over the given files. */
    constructor (disk: map<string, FileContent>)
      ensures currentMapId == "city" && activeTileFolder == TileFolder
      ensures tileOverride == map[] && imageCache == {} && blocks == {} && overrideMeta == map[]
      ensures this.disk == disk
      ensures Valid()
    {
      currentMapId := "city";
      activeTileFolder := TileFolder;
      tileOverride := map[];
      imageCache := {};
      blocks := {};
      overrideMeta := map[];
      this.disk := disk;
    }

    /** `map_id or CURRENT_MAP_ID`. */
    function Mid(mapId: Option<string>): string
      reads this
    {
      if mapId.Some? && mapId.value != "" then mapId.value else currentMapId
    }

    /** `get_current_map`. */
    function CurrentMap(): string
      reads this
    {
      currentMapId
    }

    /** `get_override_meta`: the loaded metadata, or defaults for the map
        when none is loaded; either way it carries every default key. */
    function GetOverrideMeta(mapId: Option<string>): (r: map<string, Json>)
      requires Valid()
      reads this
      ensures MetaComplete(r)
      ensures overrideMeta != map[] ==> r == overrideMeta
      ensures overrideMeta == map[] ==>
                r["map"] == JStr(Mid(mapId)) && r["count"] == JInt(|tileOverride|)
    {
      if overrideMeta != map[] then overrideMeta
      else EnsureMetaDefaults(Mid(mapId), map[], activeTileFolder, |tileOverride|)
    }

    /** `load_overrides(map_id)`. */
    method LoadOverrides(mapId: Option<string>)
      modifies this`tileOverride, this`imageCache, this`overrideMeta
      ensures var l := LoadOverridesFrom(disk, old(Mid(mapId)), activeTileFolder);
        tileOverride == l.overrides && overrideMeta == l.meta
      ensures imageCache == {}
      ensures Valid()
    {
      tileOverride := map[];
      imageCache := {};
      var mid := Mid(mapId);
      var ov, metaIn := ReadOverrideFile(disk, OverridePath(mid));
      tileOverride := ov;
      overrideMeta := EnsureMetaDefaults(mid, metaIn, activeTileFolder, |tileOverride|);
    }

    /** `save_overrides(map_id)`: writes every override under its `"r,c"`
        key, in some order of the cells, with freshly completed metadata,
        and keeps that metadata. */
    method SaveOverrides(mapId: Option<string>) returns (order: seq<Cell>)
      modifies this`disk, this`overrideMeta
      ensures Enumerates(order, tileOverride)
      ensures var mid := old(Mid(mapId));
              var meta := SavedMeta(mid, activeTileFolder, |tileOverride|);
        && disk == old(disk)[OverridePath(mid) := Parsed(SavedDoc(SavedMetaFields(mid, activeTileFolder, |tileOverride|),
                                                                  EntriesOf(order, tileOverride)))]
        && overrideMeta == meta
      ensures Valid()
    {
      var mid := Mid(mapId);
      var m := tileOverride;
      var entries;
      order, entries := WriteOverrides(m);
      var meta := EnsureMetaDefaults(mid, map["map" := JStr(mid), "override_file" := JStr(OverridePath(mid)),
                                               "tile_folder" := JStr(activeTileFolder)],
                                     activeTileFolder, |m|);
      disk := disk[OverridePath(mid) := Parsed(SavedDoc(SavedMetaFields(mid, activeTileFolder, |m|), entries))];
      overrideMeta := meta;
    }

    /** `load_blocks(map_id)`. */
    method LoadBlocks(mapId: Option<string>)
      modifies this`blocks
      ensures blocks == LoadBlocksFrom(disk, Mid(mapId))
    {
      blocks := {};
      var mid := Mid(mapId);
      var path := BlocksPath(mid);
      if path !in disk {
        return;
      }
      match disk[path]
      case Unreadable =>
      case Parsed(raw) =>
        if !raw.JObj? {
          return;
        }
        var bl := GetOr(raw.fields, "blocks", JList([]));
        if !bl.JList? {
          return;
        }
        var items := bl.items;
        var found: set<Cell> := {};
        var i := 0;
        var ok := true;
        while i < |items| && ok
          invariant 0 <= i <= |items|
          invariant (found, ok) == BlocksFrom(items[..i])
        {
          assert items[..i + 1][..i] == items[..i];
          var p := items[i];
          if p.JList? && |p.items| == 2 {
            var pair := IntPair(p);
            if pair.Some? {
              found := found + {pair.value};
            } else {
              ok := false;
            }
          }
          i := i + 1;
        }
        if ok {
          assert items[..i] == items;
        } else {
          BlocksFromStops(items, i);
        }
        blocks := found;
    }

    /** `save_blocks(map_id)`: writes the blocks in sorted order. */
    method SaveBlocks(mapId: Option<string>) returns (sorted: seq<Cell>)
      modifies this`disk
      ensures StrictlySorted(sorted) && (forall c :: c in sorted <==> c in blocks)
      ensures disk == old(disk)[BlocksPath(Mid(mapId)) := Parsed(BlocksDoc(Mid(mapId), sorted))]
    {
      var mid := Mid(mapId);
      sorted := SortedCells(blocks);
      disk := disk[BlocksPath(mid) := Parsed(BlocksDoc(mid, sorted))];
    }

    /** `toggle_block_at_world(world_pos, set_to)`. */
    method ToggleBlockAtWorld(x: real, y: real, setTo: Option<bool>)
      modifies this`blocks
      ensures blocks == Toggled(old(blocks), WorldToBlock(x, y), setTo)
    {
      var b := WorldToBlock(x, y);
      match setTo
      case None =>
        if b in blocks {
          blocks := blocks - {b};
        } else {
          blocks := blocks + {b};
        }
      case Some(v) =>
        if v {
          blocks := blocks + {b};
        } else {
          blocks := blocks - {b};
        }
    }

    /** `set_current_map(map_id, tile_folder=..., autoload=...)`. */
    method SetCurrentMap(mapId: string, tileFolder: Option<string>, autoload: bool)
      modifies this`currentMapId, this`activeTileFolder, this`tileOverride, this`imageCache, this`blocks,
               this`overrideMeta
      ensures currentMapId == mapId
      ensures activeTileFolder == if tileFolder.Some? then tileFolder.value else old(activeTileFolder)
      ensures imageCache == {}
      ensures autoload ==>
        && var l := LoadOverridesFrom(disk, mapId, activeTileFolder);
        && tileOverride == l.overrides && overrideMeta == l.meta
        && blocks == LoadBlocksFrom(disk, mapId)
      ensures !autoload ==> tileOverride == map[] && blocks == {} && overrideMeta == map[]
      ensures Valid()
    {
      currentMapId := mapId;
      if tileFolder.Some? {
        activeTileFolder := tileFolder.value;
      }
      tileOverride := map[];
      imageCache := {};
      blocks := {};
      overrideMeta := map[];
      if autoload {
        LoadOverrides(Some(currentMapId));
        LoadBlocks(Some(currentMapId));
      }
    }

    /** `collides_circle(pos, radius)`: scans the blocks in range row by
        row and stops at the first one the circle meets. */
    method CollidesCircle(x: real, y: real, radius: real) returns (hit: bool)
      ensures hit <==> CollidesSpec(blocks, x, y, radius)
    {
      var w := Window(x, y, radius);
      var row := w.1;
      while row <= w.3
        invariant forall b :: b in blocks && InWindow(b, x, y, radius) && b.1 < row ==> !BlockTouches(b, x, y, radius)
        decreases w.3 - row
      {
        var col := w.0;
        while col <= w.2
          invariant forall b :: b in blocks && InWindow(b, x, y, radius) && (b.1 < row || (b.1 == row && b.0 < col))
                               ==> !BlockTouches(b, x, y, radius)
          decreases w.2 - col
        {
          if (col, row) in blocks {
            var rx, ry := col * BlockSize, row * BlockSize;
            if CircleRectIntersect(x, y, radius, rx as real, ry as real, BlockSize as real, BlockSize as real) {
              assert InWindow((col, row), x, y, radius);
              return true;
            }
          }
          col := col + 1;
        }
        row := row + 1;
      }
      return false;
    }
  }
}
