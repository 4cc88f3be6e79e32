/** The side-view level (`level.py`): the map document it loads and saves,
    the ground line, the support height under props, the solid rectangles
    and the wall grid. */
module Levels {
  import opened Common
  import opened Json
  import opened Cells
  import opened Pygame
  import MapSystem

  type Rgb = (int, int, int)

  /** A prop: its rectangle, whether it blocks, and its `name` value. */
  datatype Prop = Prop(rect: Rect, solid: bool, name: Json)

  datatype Photo = Photo(x: int, y: int, w: int, h: int, path: string)

  /** The `wall_grid` dict: size in cells, cell size and origin. */
  datatype WallGrid = WallGrid(cols: int, rows: int, cell: int, ox: int, oy: int)

  /** Everything a map document sets. */
  datatype LevelData = LevelData(
    worldW: int, worldH: int, skyTop: Rgb, skyBottom: Rgb,
    ground: seq<(int, int)>, walls: seq<Rect>, props: seq<Prop>, photos: seq<Photo>,
    grid: WallGrid, wallCells: set<Cell>)

  /** How `load_map` ends: loaded, `FileNotFoundError`, a malformed
      document (the exceptions of `json.load`, `int`, a missing key or a
      value of the wrong kind), or the `ValueError` for a map without
      ground. */
  datatype Outcome = Loaded(data: LevelData) | FileNotFound | Malformed | NoGround(head: Head)

  const DefaultGrid: WallGrid := WallGrid(5, 3, 80, 1200, 180)
  const SkyTop: Rgb := (255, 210, 225)
  const SkyBottom: Rgb := (255, 230, 240)

  // -----------------------------------------------------------------------
  // Reading a map document
  // -----------------------------------------------------------------------

  /** The `_meta` part: world size and the two sky colours. */
  datatype Head = Head(worldW: int, worldH: int, skyTop: Rgb, skyBottom: Rgb)

  /** A sky colour: a three-element list replaces the current one (each
      element must convert to int); anything else keeps it. */
  function RgbOf(j: Json, cur: Rgb): Option<Rgb>
  {
    if j.JList? && |j.items| == 3 then
      match (ToInt(j.items[0]), ToInt(j.items[1]), ToInt(j.items[2]))
      case (Some(r), Some(g), Some(b)) => Some((r, g, b))
      case _ => None
    else Some(cur)
  }

  function HeadOf(meta: Json, cur: LevelData): Option<Head>
  {
    if !meta.JObj? then None
    else
      var f := meta.fields;
      match (ToInt(GetOr(f, "world_w", JInt(cur.worldW))), ToInt(GetOr(f, "world_h", JInt(cur.worldH))),
             RgbOf(GetOr(f, "sky_top", JNull), cur.skyTop), RgbOf(GetOr(f, "sky_bottom", JNull), cur.skyBottom))
      case (Some(w), Some(h), Some(st), Some(sb)) => Some(Head(w, h, st, sb))
      case _ => None
  }

  /** A ground point or wall cell: a two-element list is read as a pair of
      ints, anything else is skipped. */
  function PairItem(p: Json): Option<Option<(int, int)>>
  {
    if p.JList? && |p.items| == 2 then
      match IntPair(p)
      case Some(c) => Some(Some(c))
      case None => None
    else Some(None)
  }

  /** `pygame.Rect(int(w["x"]), int(w["y"]), int(w["w"]), int(w["h"]))`. */
  function RectOf(w: Json): Option<Rect>
  {
    if !w.JObj? then None
    else
      var f := w.fields;
      match (Get(f, "x"), Get(f, "y"), Get(f, "w"), Get(f, "h"))
      case (Some(x), Some(y), Some(ww), Some(hh)) =>
        (match (ToInt(x), ToInt(y), ToInt(ww), ToInt(hh))
         case (Some(a), Some(b), Some(c), Some(d)) => Some(Rect(a, b, c, d))
         case _ => None)
      case _ => None
  }

  function WallItem(w: Json): Option<Option<Rect>>
  {
    match RectOf(w)
    case Some(r) => Some(Some(r))
    case None => None
  }

  /** A prop is solid unless it says otherwise; its name defaults to `""`. */
  function PropItem(p: Json): Option<Option<Prop>>
  {
    match RectOf(p)
    case Some(r) =>
      Some(Some(Prop(r, Truthy(GetOr(p.fields, "solid", JBool(true))), GetOr(p.fields, "name", JStr("")))))
    case None => None
  }

  /** A photo defaults to position (0, 0), size 96 x 96 and an empty path. */
  function PhotoItem(ph: Json): Option<Option<Photo>>
  {
    if !ph.JObj? then None
    else
      var f := ph.fields;
      match (ToInt(GetOr(f, "x", JInt(0))), ToInt(GetOr(f, "y", JInt(0))),
             ToInt(GetOr(f, "w", JInt(96))), ToInt(GetOr(f, "h", JInt(96))))
      case (Some(x), Some(y), Some(w), Some(h)) => Some(Some(Photo(x, y, w, h, ToStr(GetOr(f, "path", JStr(""))))))
      case _ => None
  }

  /** `_apply_wall_grid_from_json`'s grid part: an object updates the
      members it has (a two-element `origin` list replaces the origin);
      anything else keeps the current grid. */
  function GridOf(g: Json, cur: WallGrid): Option<WallGrid>
  {
    if !g.JObj? then Some(cur)
    else
      var f := g.fields;
      var org := GetOr(f, "origin", JNull);
      var origin := if org.JList? && |org.items| == 2 then IntPair(org) else Some((cur.ox, cur.oy));
      match (ToInt(GetOr(f, "cols", JInt(cur.cols))), ToInt(GetOr(f, "rows", JInt(cur.rows))),
             ToInt(GetOr(f, "cell", JInt(cur.cell))), origin)
      case (Some(c), Some(r), Some(s), Some(o)) => Some(WallGrid(c, r, s, o.0, o.1))
      case _ => None
  }

  /** `for item in d.get(key, [])` collecting with `f`. */
  function CollectOf<T>(fields: seq<(string, Json)>, key: string, f: Json -> Option<Option<T>>): Option<seq<T>>
  {
    match Elements(GetOr(fields, key, JList([])))
    case Some(items) => Collect(items, f)
    case None => None
  }

  function SetOf(s: seq<Cell>): (r: set<Cell>)
    ensures forall c :: c in r <==> c in s
  {
    set c | c in s
  }

  /** The body of `load_map` after `json.load`, given the values the level
      holds before (world size, sky colours and wall grid survive when the
      document does not set them). */
  function ParseLevel(data: Json, cur: LevelData): Outcome
  {
    if !data.JObj? then Malformed
    else
      var f := data.fields;
      var head := HeadOf(GetOr(f, "_meta", JObj([])), cur);
      var ground := CollectOf(f, "ground_segments", PairItem);
      if head.None? || ground.None? then Malformed
      else if ground.value == [] then NoGround(head.value)
      else
        var walls := CollectOf(f, "walls", WallItem);
        var props := CollectOf(f, "props", PropItem);
        var photos := CollectOf(f, "photos", PhotoItem);
        var grid := GridOf(GetOr(f, "wall_grid", JNull), cur.grid);
        var cells := CollectOf(f, "wall_cells", PairItem);
        if walls.None? || props.None? || photos.None? || grid.None? || cells.None? then Malformed
        else
          var h := head.value;
          Loaded(LevelData(h.worldW, h.worldH, h.skyTop, h.skyBottom, ground.value, walls.value,
                           props.value, photos.value, grid.value, SetOf(cells.value)))
  }

  /** `load_map` as a function of the files. */
  function LoadLevel(disk: map<string, FileContent>, path: string, cur: LevelData): Outcome
  {
    if path !in disk then FileNotFound
    else
      match disk[path]
      case Unreadable => Malformed
      case Parsed(data) => ParseLevel(data, cur)
  }

  /** The level after `load_map` has emptied its lists. */
  function Cleared(d: LevelData): (r: LevelData)
    ensures r.ground == [] && r.walls == [] && r.props == [] && r.photos == [] && r.wallCells == {}
    ensures r.worldW == d.worldW && r.worldH == d.worldH && r.skyTop == d.skyTop && r.skyBottom == d.skyBottom
    ensures r.grid == d.grid
  {
    d.(ground := [], walls := [], props := [], photos := [], wallCells := {})
  }

  /** What `load_map` leaves when it ends with `outcome` (a malformed
      document leaves the lists empty here; see the notes on partial
      loads). */
  function StateAfter(outcome: Outcome, cur: LevelData): LevelData
  {
    match outcome
    case Loaded(data) => data
    case NoGround(h) => Cleared(cur).(worldW := h.worldW, worldH := h.worldH, skyTop := h.skyTop, skyBottom := h.skyBottom)
    case _ => Cleared(cur)
  }

  /** A loaded level always has ground. */
  lemma LoadedHasGround(disk: map<string, FileContent>, path: string, cur: LevelData)
    ensures LoadLevel(disk, path, cur).Loaded? ==> LoadLevel(disk, path, cur).data.ground != []
  {
  }

  // -----------------------------------------------------------------------
  // Writing a map document
  // -----------------------------------------------------------------------

  function RgbJson(c: Rgb): Json
  {
    JList([JInt(c.0), JInt(c.1), JInt(c.2)])
  }

  function RectJson(r: Rect): Json
  {
    JObj([("x", JInt(r.x)), ("y", JInt(r.y)), ("w", JInt(r.w)), ("h", JInt(r.h))])
  }

  function PropJson(p: Prop): Json
  {
    JObj([("x", JInt(p.rect.x)), ("y", JInt(p.rect.y)), ("w", JInt(p.rect.w)), ("h", JInt(p.rect.h)),
          ("solid", JBool(p.solid)), ("name", p.name)])
  }

  function PhotoJson(ph: Photo): Json
  {
    JObj([("x", JInt(ph.x)), ("y", JInt(ph.y)), ("w", JInt(ph.w)), ("h", JInt(ph.h)), ("path", JStr(ph.path))])
  }

  function GridJson(g: WallGrid): Json
  {
    JObj([("cols", JInt(g.cols)), ("rows", JInt(g.rows)), ("cell", JInt(g.cell)),
          ("origin", PairJson(g.ox, g.oy))])
  }

  function PairOf(p: (int, int)): Json
  {
    PairJson(p.0, p.1)
  }

  /** The document `save_map` writes, with the wall cells in `sortedCells`
      and the map id `id`. */
  function LevelDoc(d: LevelData, sortedCells: seq<Cell>, id: string): Json
  {
    JObj([
      ("_meta", JObj([("id", JStr(id)), ("world_w", JInt(d.worldW)), ("world_h", JInt(d.worldH)),
                      ("sky_top", RgbJson(d.skyTop)), ("sky_bottom", RgbJson(d.skyBottom))])),
      ("ground_segments", JList(Encode(d.ground, PairOf))),
      ("walls", JList(Encode(d.walls, RectJson))),
      ("props", JList(Encode(d.props, PropJson))),
      ("photos", JList(Encode(d.photos, PhotoJson))),
      ("wall_grid", GridJson(d.grid)),
      ("wall_cells", JList(Encode(sortedCells, PairOf)))])
  }

  lemma PairItemRoundTrip()
    ensures forall p :: PairItem(PairOf(p)) == Some(Some(p))
  {
    forall p: (int, int) ensures PairItem(PairOf(p)) == Some(Some(p)) {
      IntPairRoundTrip(p.0, p.1);
    }
  }

  lemma WallItemRoundTrip()
    ensures forall r :: WallItem(RectJson(r)) == Some(Some(r))
  {
    forall r: Rect ensures WallItem(RectJson(r)) == Some(Some(r)) {
      RectRoundTrip(r);
    }
  }

  lemma PropItemRoundTrip()
    ensures forall p :: PropItem(PropJson(p)) == Some(Some(p))
  {
    forall p: Prop ensures PropItem(PropJson(p)) == Some(Some(p)) {
      PropRoundTrip(p);
    }
  }

  lemma PhotoItemRoundTrip()
    ensures forall ph :: PhotoItem(PhotoJson(ph)) == Some(Some(ph))
  {
    forall ph: Photo ensures PhotoItem(PhotoJson(ph)) == Some(Some(ph)) {
      PhotoRoundTrip(ph);
    }
  }

  lemma RectRoundTrip(r: Rect)
    ensures RectOf(RectJson(r)) == Some(r)
  {
    var f := RectJson(r).fields;
    GetAt(f, "x", 0);
    GetAt(f, "y", 1);
    GetAt(f, "w", 2);
    GetAt(f, "h", 3);
  }

  lemma PropRoundTrip(p: Prop)
    ensures PropItem(PropJson(p)) == Some(Some(p))
  {
    var f := PropJson(p).fields;
    GetAt(f, "x", 0);
    GetAt(f, "y", 1);
    GetAt(f, "w", 2);
    GetAt(f, "h", 3);
    GetAt(f, "solid", 4);
    GetAt(f, "name", 5);
  }

  lemma PhotoRoundTrip(ph: Photo)
    ensures PhotoItem(PhotoJson(ph)) == Some(Some(ph))
  {
    var f := PhotoJson(ph).fields;
    GetAt(f, "x", 0);
    GetAt(f, "y", 1);
    GetAt(f, "w", 2);
    GetAt(f, "h", 3);
    GetAt(f, "path", 4);
  }

  lemma GridRoundTrip(g: WallGrid, cur: WallGrid)
    ensures GridOf(GridJson(g), cur) == Some(g)
  {
    var f := GridJson(g).fields;
    GetAt(f, "cols", 0);
    GetAt(f, "rows", 1);
    GetAt(f, "cell", 2);
    GetAt(f, "origin", 3);
    IntPairRoundTrip(g.ox, g.oy);
  }

  lemma HeadRoundTrip(d: LevelData, id: string, cur: LevelData)
    ensures HeadOf(LevelDoc(d, [], id).fields[0].1, cur) == Some(Head(d.worldW, d.worldH, d.skyTop, d.skyBottom))
  {
    var f := LevelDoc(d, [], id).fields[0].1.fields;
    GetAt(f, "world_w", 1);
    GetAt(f, "world_h", 2);
    GetAt(f, "sky_top", 3);
    GetAt(f, "sky_bottom", 4);
  }

  /** A list member written with an encoding its reader inverts is read
      back whole. */
  lemma CollectOfAt<T>(f: seq<(string, Json)>, i: nat, key: string, xs: seq<T>,
                       enc: T -> Json, item: Json -> Option<Option<T>>)
    requires i < |f| && f[i] == (key, JList(Encode(xs, enc)))
    requires forall j :: 0 <= j < i ==> f[j].0 != key
    requires forall x :: item(enc(x)) == Some(Some(x))
    ensures CollectOf(f, key, item) == Some(xs)
  {
    GetAt(f, key, i);
    CollectEncode(xs, enc, item);
  }

  /** `ParseLevel` on a document whose parts all read. */
  lemma ParseLevelLoaded(f: seq<(string, Json)>, cur: LevelData, d: LevelData, cells: seq<Cell>)
    requires HeadOf(GetOr(f, "_meta", JObj([])), cur) == Some(Head(d.worldW, d.worldH, d.skyTop, d.skyBottom))
    requires CollectOf(f, "ground_segments", PairItem) == Some(d.ground) && d.ground != []
    requires CollectOf(f, "walls", WallItem) == Some(d.walls)
    requires CollectOf(f, "props", PropItem) == Some(d.props)
    requires CollectOf(f, "photos", PhotoItem) == Some(d.photos)
    requires GridOf(GetOr(f, "wall_grid", JNull), cur.grid) == Some(d.grid)
    requires CollectOf(f, "wall_cells", PairItem) == Some(cells) && SetOf(cells) == d.wallCells
    ensures ParseLevel(JObj(f), cur) == Loaded(d)
  {
  }

  /** Saving a level with ground and loading the file again gives back
      every value the document carries, whatever the level held before. */
  lemma SaveThenLoad(disk: map<string, FileContent>, path: string, d: LevelData, sortedCells: seq<Cell>,
                     id: string, cur: LevelData)
    requires d.ground != []
    requires forall c :: c in sortedCells <==> c in d.wallCells
    ensures LoadLevel(disk[path := Parsed(LevelDoc(d, sortedCells, id))], path, cur) == Loaded(d)
  {
    var f := LevelDoc(d, sortedCells, id).fields;
    SavedShape(d, sortedCells, id, cur);
    SavedSolids(d, sortedCells, id);
    SavedPhotosCells(d, sortedCells, id);
    assert SetOf(sortedCells) == d.wallCells;
    ParseLevelLoaded(f, cur, d, sortedCells);
  }

  /** The `_meta`, `wall_grid` and `ground_segments` members of a saved
      document read back as saved. */
  lemma SavedShape(d: LevelData, sortedCells: seq<Cell>, id: string, cur: LevelData)
    ensures var f := LevelDoc(d, sortedCells, id).fields;
      && HeadOf(GetOr(f, "_meta", JObj([])), cur) == Some(Head(d.worldW, d.worldH, d.skyTop, d.skyBottom))
      && GridOf(GetOr(f, "wall_grid", JNull), cur.grid) == Some(d.grid)
      && CollectOf(f, "ground_segments", PairItem) == Some(d.ground)
  {
    var f := LevelDoc(d, sortedCells, id).fields;
    GetAt(f, "_meta", 0);
    HeadRoundTrip(d, id, cur);
    assert LevelDoc(d, [], id).fields[0].1 == f[0].1;
    GetAt(f, "wall_grid", 5);
    GridRoundTrip(d.grid, cur.grid);
    PairItemRoundTrip();
    CollectOfAt(f, 1, "ground_segments", d.ground, PairOf, PairItem);
  }

  /** The `walls` and `props` members of a saved document read back as
      saved. */
  lemma SavedSolids(d: LevelData, sortedCells: seq<Cell>, id: string)
    ensures var f := LevelDoc(d, sortedCells, id).fields;
      && CollectOf(f, "walls", WallItem) == Some(d.walls)
      && CollectOf(f, "props", PropItem) == Some(d.props)
  {
    var f := LevelDoc(d, sortedCells, id).fields;
    WallItemRoundTrip();
    CollectOfAt(f, 2, "walls", d.walls, RectJson, WallItem);
    PropItemRoundTrip();
    CollectOfAt(f, 3, "props", d.props, PropJson, PropItem);
  }

  /** The `photos` and `wall_cells` members of a saved document read back
      as saved. */
  lemma SavedPhotosCells(d: LevelData, sortedCells: seq<Cell>, id: string)
    ensures var f := LevelDoc(d, sortedCells, id).fields;
      && CollectOf(f, "photos", PhotoItem) == Some(d.photos)
      && CollectOf(f, "wall_cells", PairItem) == Some(sortedCells)
  {
    var f := LevelDoc(d, sortedCells, id).fields;
    PhotoItemRoundTrip();
    CollectOfAt(f, 4, "photos", d.photos, PhotoJson, PhotoItem);
    PairItemRoundTrip();
    CollectOfAt(f, 6, "wall_cells", sortedCells, PairOf, PairItem);
  }

  /** `os.path.splitext(os.path.basename(path))[0]`: the part after the
      last `/`, without its extension (a name made only of leading dots
      keeps them). */
  function Stem(path: string): (r: string)
    ensures '/' !in r
  {
    var slash := LastIndexOf(path, '/');
    var base := if slash.Some? then path[slash.value + 1..] else path;
    assert '/' !in base;
    var dot := LastIndexOf(base, '.');
    if dot.Some? && exists i :: 0 <= i < dot.value && base[i] != '.' then base[..dot.value] else base
  }

  function LastIndexOf(s: string, c: char): (r: Option<nat>)
    ensures r.Some? ==> r.value < |s| && s[r.value] == c && forall j :: r.value < j < |s| ==> s[j] != c
    ensures r.None? ==> c !in s
  {
    if s == [] then None
    else if s[|s| - 1] == c then Some(|s| - 1)
    else LastIndexOf(s[..|s| - 1], c)
  }

  // -----------------------------------------------------------------------
  // Ground and support
  // -----------------------------------------------------------------------

  /** `int(y0 * (1 - t) + y1 * t)` with `t = (x - x0) / max(1, x1 - x0)`. */
  function Interp(x0: int, y0: int, x1: int, y1: int, x: int): int
  {
    Lerp(y0, y1, (x - x0) as real / Max(1, x1 - x0) as real)
  }

  /** `int(y0 * (1 - t) + y1 * t)`. */
  function Lerp(y0: int, y1: int, t: real): int
  {
    Trunc(Mix(y0 as real, y1 as real, t))
  }

  /** `a * (1 - t) + b * t`. */
  function Mix(a: real, b: real, t: real): real
  {
    a * (1.0 - t) + b * t
  }

  /** On a segment the interpolated height lies between its end heights. */
  lemma InterpBetween(x0: int, y0: int, x1: int, y1: int, x: int)
    requires x0 <= x <= x1
    ensures Min(y0, y1) <= Interp(x0, y0, x1, y1, x) <= Max(y0, y1)
  {
    RatioWithin(x - x0, Max(1, x1 - x0));
    LerpBetween(y0, y1, (x - x0) as real / Max(1, x1 - x0) as real);
  }

  lemma LerpBetween(y0: int, y1: int, t: real)
    requires 0.0 <= t <= 1.0
    ensures Min(y0, y1) <= Lerp(y0, y1, t) <= Max(y0, y1)
  {
    Blend(y0 as real, y1 as real, t);
    assert MinR(y0 as real, y1 as real) == Min(y0, y1) as real;
    assert MaxR(y0 as real, y1 as real) == Max(y0, y1) as real;
    TruncBetween(Min(y0, y1), Max(y0, y1), Mix(y0 as real, y1 as real, t));
  }

  lemma RatioWithin(a: int, d: int)
    requires 0 <= a <= d && d >= 1
    ensures 0.0 <= a as real / d as real <= 1.0
  {
    var q := a as real / d as real;
    assert q * d as real == a as real;
    if q > 1.0 {
      MulStrict(1.0, q, d as real);
    }
  }

  /** `a * (1 - t) + b * t` lies between `a` and `b` for `t` in [0, 1]. */
  lemma Blend(a: real, b: real, t: real)
    requires 0.0 <= t <= 1.0
    ensures MinR(a, b) <= Mix(a, b, t) <= MaxR(a, b)
  {
    var d := b - a;
    assert Mix(a, b, t) == a + d * t;
    if a <= b {
      FractionOf(d, t);
    } else {
      FractionOf(-d, t);
      assert (-d) * t == -(d * t);
      assert b <= a + d * t <= a;
    }
  }


  /** The height from the first segment `i..` whose x range holds `x`,
      or the last point's height when none does. */
  function BracketY(segs: seq<(int, int)>, x: int, i: nat): int
    requires segs != []
    decreases |segs| - i
  {
    if i + 1 >= |segs| then segs[|segs| - 1].1
    else if segs[i].0 <= x <= segs[i + 1].0 then Interp(segs[i].0, segs[i].1, segs[i + 1].0, segs[i + 1].1, x)
    else BracketY(segs, x, i + 1)
  }

  /** `surface_y_rect_x`: flat beyond either end, else interpolated on the
      first segment that holds `x`. */
  function GroundY(segs: seq<(int, int)>, x: int): int
    requires segs != []
  {
    if x <= segs[0].0 then segs[0].1
    else if x >= segs[|segs| - 1].0 then segs[|segs| - 1].1
    else BracketY(segs, x, 0)
  }

  /** Between the ends, the height comes from the first segment holding
      `x` and lies between that segment's end heights. */
  lemma {:induction false} BracketFirst(segs: seq<(int, int)>, x: int, i: nat, k: nat)
    requires segs != [] && i <= k && k + 1 < |segs| && segs[k].0 <= x <= segs[k + 1].0
    requires forall j :: i <= j < k ==> !(segs[j].0 <= x <= segs[j + 1].0)
    ensures BracketY(segs, x, i) == Interp(segs[k].0, segs[k].1, segs[k + 1].0, segs[k + 1].1, x)
    ensures Min(segs[k].1, segs[k + 1].1) <= BracketY(segs, x, i) <= Max(segs[k].1, segs[k + 1].1)
    decreases k - i
  {
    if i < k {
      BracketFirst(segs, x, i + 1, k);
    } else {
      InterpBetween(segs[k].0, segs[k].1, segs[k + 1].0, segs[k + 1].1, x);
    }
  }

  lemma GroundYEnds(segs: seq<(int, int)>, x: int)
    requires segs != []
    ensures x <= segs[0].0 ==> GroundY(segs, x) == segs[0].1
    ensures segs[0].0 < x && segs[|segs| - 1].0 <= x ==> GroundY(segs, x) == segs[|segs| - 1].1
  {
  }

  /** Does prop `p` hold up a point at `x` above height `best`? */
  predicate Supports(p: Prop, x: int)
  {
    p.solid && p.rect.Left() <= x <= p.rect.Right()
  }

  /** `get_support_y`'s loop: the lowest top (smallest y) among the solid
      props spanning `x`, starting from `base`. */
  function SupportOver(props: seq<Prop>, x: int, base: int): int
  {
    if props == [] then base
    else
      var n := |props| - 1;
      var best := SupportOver(props[..n], x, base);
      if Supports(props[n], x) && props[n].rect.Top() < best then props[n].rect.Top() else best
  }

  /** The support height is the minimum of the ground height and the tops of
      the solid props spanning `x`: never below any of them, and equal to
      one of them. */
  lemma {:induction false} SupportIsMin(props: seq<Prop>, x: int, base: int)
    ensures SupportOver(props, x, base) <= base
    ensures forall p :: p in props && Supports(p, x) ==> SupportOver(props, x, base) <= p.rect.Top()
    ensures SupportOver(props, x, base) == base
            || exists p :: p in props && Supports(p, x) && SupportOver(props, x, base) == p.rect.Top()
  {
    if props != [] {
      var n := |props| - 1;
      SupportIsMin(props[..n], x, base);
      assert props == props[..n] + [props[n]];
      forall p | p in props && Supports(p, x)
        ensures SupportOver(props, x, base) <= p.rect.Top()
      {
        if p != props[n] {
          assert p in props[..n];
        }
      }
      var best := SupportOver(props[..n], x, base);
      if best != base && !(Supports(props[n], x) && props[n].rect.Top() < best) {
        var p :| p in props[..n] && Supports(p, x) && best == p.rect.Top();
        assert p in props;
      }
    }
  }

  /** The rectangles of the solid props, in order. */
  function SolidPropRects(props: seq<Prop>): (r: seq<Rect>)
    ensures forall x :: x in r <==> exists p :: p in props && p.solid && p.rect == x
  {
    if props == [] then []
    else
      var rest := SolidPropRects(props[1..]);
      assert forall p :: p in props[1..] ==> p in props;
      assert forall p :: p in props && p != props[0] ==> p in props[1..];
      if props[0].solid then [props[0].rect] + rest else rest
  }

  /** A single prop contributes its rectangle exactly when it is solid. */
  lemma SolidPropRectsOne(p: Prop)
    ensures SolidPropRects([p]) == if p.solid then [p.rect] else []
  {
    assert [p][1..] == [];
  }

  /** Collecting over two runs of props is collecting over each in turn:
      together with `SolidPropRectsOne` this fixes the order and the
      multiplicity of every rectangle, not only which ones occur. */
  lemma {:induction false} SolidPropRectsAppend(a: seq<Prop>, b: seq<Prop>)
    ensures SolidPropRects(a + b) == SolidPropRects(a) + SolidPropRects(b)
  {
    if a != [] {
      assert (a + b)[0] == a[0];
      assert (a + b)[1..] == a[1..] + b;
      SolidPropRectsAppend(a[1..], b);
    } else {
      assert a + b == b;
    }
  }

  // -----------------------------------------------------------------------
  // The wall grid
  // -----------------------------------------------------------------------

  predicate InGrid(g: WallGrid, c: Cell)
  {
    0 <= c.0 < g.cols && 0 <= c.1 < g.rows
  }

  /** The in-range wall cells. */
  function GridCells(g: WallGrid, cells: set<Cell>): set<Cell>
  {
    set c | c in cells && InGrid(g, c)
  }

  /** The wall of cell (c, r): a `cell x cell` square at the cell's
      offset from the origin. */
  function CellRect(g: WallGrid, c: Cell): Rect
  {
    Rect(g.ox + c.0 * g.cell, g.oy + c.1 * g.cell, g.cell, g.cell)
  }

  function GridRects(g: WallGrid, order: seq<Cell>): (r: seq<Rect>)
    ensures |r| == |order|
    ensures forall i :: 0 <= i < |order| ==> r[i] == CellRect(g, order[i])
  {
    if order == [] then [] else GridRects(g, order[..|order| - 1]) + [CellRect(g, order[|order| - 1])]
  }

  /** `wall_cell_from_world`: the cell (column, row) holding the world
      point, or `None` left of or above the origin or outside the grid. */
  function WallCellFromWorld(g: WallGrid, wx: real, wy: real): (r: Option<Cell>)
    requires g.cell != 0
    ensures r.Some? ==> InGrid(g, r.value)
    ensures wx < g.ox as real || wy < g.oy as real ==> r.None?
  {
    var lx, ly := wx - g.ox as real, wy - g.oy as real;
    if lx < 0.0 || ly < 0.0 then None
    else
      var c, r := (lx / g.cell as real).Floor, (ly / g.cell as real).Floor;
      if 0 <= c < g.cols && 0 <= r < g.rows then Some((c, r)) else None
  }

  /** With a positive cell size, a world point maps to exactly the cell
      whose wall square holds it. */
  lemma WallCellMeans(g: WallGrid, wx: real, wy: real, c: Cell)
    requires g.cell > 0 && InGrid(g, c)
    ensures WallCellFromWorld(g, wx, wy) == Some(c) <==>
            var r := CellRect(g, c);
            r.x as real <= wx < (r.x + r.w) as real && r.y as real <= wy < (r.y + r.h) as real
  {
    AxisCell(wx, g.ox, g.cell, c.0);
    AxisCell(wy, g.oy, g.cell, c.1);
  }

  /** Dividing by a positive number keeps comparisons. */
  lemma DivCompare(l: real, s: real, c: real)
    requires s > 0.0
    ensures c <= l / s <==> c * s <= l
    ensures l / s < c <==> l < c * s
  {
    var q := l / s;
    assert q * s == l;
    if c <= q {
      MulMonotone(c, q, s);
    } else {
      MulStrict(q, c, s);
    }
  }

  lemma CastMul(k: int, s: int)
    requires s > 0 && k >= 0
    ensures (k * s) as real == k as real * s as real
    ensures (k * s + s) as real == (k + 1) as real * s as real
    ensures k * s >= 0
  {
  }

  lemma FloorIs(q: real, k: int)
    ensures q.Floor == k <==> k as real <= q < (k + 1) as real
  {
  }

  /** Along one axis: the point is at or past the origin and floors to
      cell `k` exactly when it lies in that cell's span. */
  lemma AxisCell(w: real, o: int, s: int, k: int)
    requires s > 0 && k >= 0
    ensures (w - o as real >= 0.0 && ((w - o as real) / s as real).Floor == k) <==>
            (o + k * s) as real <= w < (o + k * s + s) as real
  {
    var l := w - o as real;
    var q := l / s as real;
    CastMul(k, s);
    DivCompare(l, s as real, k as real);
    DivCompare(l, s as real, (k + 1) as real);
    FloorIs(q, k);
  }

  // -----------------------------------------------------------------------
  // The level
  // -----------------------------------------------------------------------

  class Level {
    var mapFile: string
    var worldW: int
    var worldH: int
    var skyTop: Rgb
    var skyBottom: Rgb
    var groundSegments: seq<(int, int)>
    var walls: seq<Rect>
    var props: seq<Prop>
    var photos: seq<Photo>
    /** The (path, w, h) keys `_photo_cache` holds an entry for. */
    var photoCache: set<(string, int, int)>
    var wallGrid: WallGrid
    var wallCells: set<Cell>
    var disk: map<string, FileContent>

    function Data(): LevelData
      reads this
    {
      LevelData(worldW, worldH, skyTop, skyBottom, groundSegments, walls, props, photos, wallGrid, wallCells)
    }

    /** The state `__init__` sets up before it loads `mapFile`. */
    constructor (mapFile: string, disk: map<string, FileContent>)
      ensures this.mapFile == mapFile && this.disk == disk
      ensures Data() == LevelData(MapSystem.WorldW, MapSystem.WorldH, SkyTop, SkyBottom, [], [], [], [], DefaultGrid, {})
      ensures photoCache == {}
    {
      this.mapFile := mapFile;
      worldW := MapSystem.WorldW;
      worldH := MapSystem.WorldH;
      skyTop := SkyTop;
      skyBottom := SkyBottom;
      groundSegments := [];
      walls := [];
      props := [];
      photos := [];
      photoCache := {};
      wallGrid := DefaultGrid;
      wallCells := {};
      this.disk := disk;
    }

    /** `load_map(map_file)`. Everything the document sets is taken over;
        when wall cells were read, the walls are rebuilt from them (in the
        set's order, returned as `order`). */
    method LoadMap(file: Option<string>) returns (outcome: Outcome, order: seq<Cell>)
      modifies this`mapFile, this`worldW, this`worldH, this`skyTop, this`skyBottom, this`groundSegments,
               this`walls, this`props, this`photos, this`photoCache, this`wallGrid, this`wallCells
      ensures mapFile == if file.Some? && file.value != "" then file.value else old(mapFile)
      ensures outcome == LoadLevel(disk, mapFile, old(Data()))
      ensures photoCache == {}
      ensures !outcome.Malformed? ==> Data() == StateAfter(outcome, old(Data())).(walls := walls)
      ensures outcome.Loaded? && outcome.data.wallCells != {} ==>
                Lists(order, GridCells(wallGrid, wallCells)) && walls == GridRects(wallGrid, order)
      ensures !(outcome.Loaded? && outcome.data.wallCells != {}) ==> walls == StateAfter(outcome, old(Data())).walls
    {
      var cur := Data();
      if file.Some? && file.value != "" {
        mapFile := file.value;
      }
      photoCache := {};
      outcome := ReadMapFile(disk, mapFile, cur);
      order := TakeOver(outcome, cur);
    }

    /** The level's values after `load_map` ends with `outcome`, with the
        walls rebuilt when wall cells were loaded. */
    method TakeOver(outcome: Outcome, cur: LevelData) returns (order: seq<Cell>)
      modifies this`worldW, this`worldH, this`skyTop, this`skyBottom, this`groundSegments,
               this`walls, this`props, this`photos, this`wallGrid, this`wallCells
      ensures Data() == StateAfter(outcome, cur).(walls := walls)
      ensures outcome.Loaded? && outcome.data.wallCells != {} ==>
                Lists(order, GridCells(wallGrid, wallCells)) && walls == GridRects(wallGrid, order)
      ensures !(outcome.Loaded? && outcome.data.wallCells != {}) ==> walls == StateAfter(outcome, cur).walls
    {
      SetData(StateAfter(outcome, cur));
      order := [];
      if outcome.Loaded? && wallCells != {} {
        order := RebuildWallsFromGrid();
      }
    }

    /** Takes over every value of `d`. */
    method SetData(d: LevelData)
      modifies this`worldW, this`worldH, this`skyTop, this`skyBottom, this`groundSegments, this`walls,
               this`props, this`photos, this`wallGrid, this`wallCells
      ensures Data() == d
    {
      worldW := d.worldW;
      worldH := d.worldH;
      skyTop := d.skyTop;
      skyBottom := d.skyBottom;
      groundSegments := d.ground;
      walls := d.walls;
      props := d.props;
      photos := d.photos;
      wallGrid := d.grid;
      wallCells := d.wallCells;
    }

    /** `rebuild_walls_from_grid`: one wall per in-range wall cell, in the
        set's order. */
    method RebuildWallsFromGrid() returns (order: seq<Cell>)
      modifies this`walls
      ensures Lists(order, GridCells(wallGrid, wallCells))
      ensures walls == GridRects(wallGrid, order)
    {
      order, walls := GridWalls(wallGrid, wallCells);
    }

    /** `toggle_wall_cell(c, r, set_to)`: `None` flips the cell, `True`
        adds it, `False` removes it; then the walls are rebuilt. */
    method ToggleWallCell(c: int, r: int, setTo: Option<bool>) returns (order: seq<Cell>)
      modifies this
      ensures wallCells == MapSystem.Toggled(old(wallCells), (c, r), setTo)
      ensures Lists(order, GridCells(wallGrid, wallCells)) && walls == GridRects(wallGrid, order)
      ensures Data() == old(Data()).(walls := walls, wallCells := wallCells)
      ensures mapFile == old(mapFile) && photoCache == old(photoCache) && disk == old(disk)
    {
      wallCells := MapSystem.Toggled(wallCells, (c, r), setTo);
      order := RebuildWallsFromGrid();
    }

    /** `save_map(map_file)`: writes the level with its wall cells sorted. */
    method SaveMap(file: Option<string>) returns (sorted: seq<Cell>)
      modifies this
      ensures mapFile == if file.Some? && file.value != "" then file.value else old(mapFile)
      ensures StrictlySorted(sorted) && (forall c :: c in sorted <==> c in wallCells)
      ensures disk == old(disk)[mapFile := Parsed(LevelDoc(Data(), sorted, Stem(mapFile)))]
      ensures Data() == old(Data()) && photoCache == old(photoCache)
    {
      if file.Some? && file.value != "" {
        mapFile := file.value;
      }
      sorted := SortedCells(wallCells);
      disk := disk[mapFile := Parsed(LevelDoc(Data(), sorted, Stem(mapFile)))];
    }

    /** `surface_y_rect_x(world_x)`. */
    method SurfaceYRectX(x: int) returns (y: int)
      requires groundSegments != []
      ensures y == GroundY(groundSegments, x)
    {
      var segs := groundSegments;
      if x <= segs[0].0 {
        return segs[0].1;
      }
      if x >= segs[|segs| - 1].0 {
        return segs[|segs| - 1].1;
      }
      for i := 0 to |segs| - 1
        invariant BracketY(segs, x, 0) == BracketY(segs, x, i)
      {
        if segs[i].0 <= x <= segs[i + 1].0 {
          return Interp(segs[i].0, segs[i].1, segs[i + 1].0, segs[i + 1].1, x);
        }
      }
      return segs[|segs| - 1].1;
    }

    /** `surface_y(rect)`: where a rectangle standing on the ground at its
        centre has its top. */
    method SurfaceY(r: Rect) returns (y: int)
      requires groundSegments != []
      ensures y == GroundY(groundSegments, r.CenterX()) - r.h
    {
      var base := SurfaceYRectX(r.CenterX());
      y := base - r.h;
    }

    /** `get_support_y(world_x)`. */
    method GetSupportY(x: int) returns (best: int)
      requires groundSegments != []
      ensures best == SupportOver(props, x, GroundY(groundSegments, x))
    {
      best := SurfaceYRectX(x);
      ghost var base := best;
      for i := 0 to |props|
        invariant best == SupportOver(props[..i], x, base)
      {
        assert props[..i + 1][..i] == props[..i];
        var p := props[i];
        if !p.solid {
          continue;
        }
        if p.rect.Left() <= x <= p.rect.Right() && p.rect.Top() < best {
          best := p.rect.Top();
        }
      }
      assert props[..|props|] == props;
    }

    /** `get_solid_rects`: all walls in order, then the solid props'
        rectangles in order. */
    function GetSolidRects(): (r: seq<Rect>)
      reads this
      ensures |r| >= |walls| && r[..|walls|] == walls
      ensures forall x :: x in r[|walls|..] <==> exists p :: p in props && p.solid && p.rect == x
      ensures r[|walls|..] == SolidPropRects(props)
    {
      var r := walls + SolidPropRects(props);
      assert r[|walls|..] == SolidPropRects(props);
      r
    }
  }

  /** `load_map` from the existence check on: a missing file, a file
      `json.load` refuses, or the document read step by step. */
  method ReadMapFile(disk: map<string, FileContent>, path: string, cur: LevelData) returns (outcome: Outcome)
    ensures outcome == LoadLevel(disk, path, cur)
  {
    if path !in disk {
      return FileNotFound;
    }
    match disk[path]
    case Unreadable => outcome := Malformed;
    case Parsed(doc) => outcome := ReadLevel(doc, cur);
  }

  /** The body of `load_map` after `json.load`, step by step. */
  method ReadLevel(data: Json, cur: LevelData) returns (outcome: Outcome)
    ensures outcome == ParseLevel(data, cur)
  {
    if !data.JObj? {
      return Malformed;
    }
    var f := data.fields;
    var head := HeadOf(GetOr(f, "_meta", JObj([])), cur);
    if head.None? {
      return Malformed;
    }
    var ground := ReadItems(f, "ground_segments", PairItem);
    if ground.None? {
      return Malformed;
    }
    if ground.value == [] {
      return NoGround(head.value);
    }
    var walls := ReadItems(f, "walls", WallItem);
    var props := ReadItems(f, "props", PropItem);
    var photos := ReadItems(f, "photos", PhotoItem);
    var grid := GridOf(GetOr(f, "wall_grid", JNull), cur.grid);
    var cells := ReadItems(f, "wall_cells", PairItem);
    if walls.None? || props.None? || photos.None? || grid.None? || cells.None? {
      return Malformed;
    }
    var h := head.value;
    outcome := Loaded(LevelData(h.worldW, h.worldH, h.skyTop, h.skyBottom, ground.value, walls.value,
                                props.value, photos.value, grid.value, SetOf(cells.value)));
  }

  /** The loop of `rebuild_walls_from_grid`: the in-range cells in the
      set's order, and a wall for each. */
  method GridWalls(g: WallGrid, cells: set<Cell>) returns (order: seq<Cell>, out: seq<Rect>)
    ensures Lists(order, GridCells(g, cells))
    ensures out == GridRects(g, order)
  {
    order, out := [], [];
    var rest := cells;
    while rest != {}
      invariant rest <= cells
      invariant forall c :: c in cells && InGrid(g, c) <==> c in order || (c in rest && InGrid(g, c))
      invariant forall c :: c in order ==> c !in rest
      invariant forall i, j :: 0 <= i < j < |order| ==> order[i] != order[j]
      invariant out == GridRects(g, order)
      decreases |rest|
    {
      var c :| c in rest;
      if InGrid(g, c) {
        assert (order + [c])[..|order|] == order;
        assert GridRects(g, order + [c]) == out + [CellRect(g, c)];
        order := order + [c];
        out := out + [CellRect(g, c)];
      }
      rest := rest - {c};
    }
  }

  /** `for item in fields.get(key, [])`, reading each with `f`. */
  method ReadItems<T>(fields: seq<(string, Json)>, key: string, f: Json -> Option<Option<T>>) returns (r: Option<seq<T>>)
    ensures r == CollectOf(fields, key, f)
  {
    var items := Elements(GetOr(fields, key, JList([])));
    if items.None? {
      return None;
    }
    r := CollectItems(items.value, f);
  }
}
