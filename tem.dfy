/** The single-file prototype `tem.py`: the NPC dialog manager, the
    nearest-NPC pick on Space, the override file it saves and loads, and
    the in-game tile editor. Tile size, grid and tile folder are the same
    as the map system's; the world is the 12 x 12 tile grid. */
module Tem {
  import opened Common
  import opened Json
  import opened Cells
  import opened Pygame
  import MapSystem

  const WorldW: int := MapSystem.MapCols * MapSystem.TileSize
  const WorldH: int := MapSystem.MapRows * MapSystem.TileSize
  const MapSavePath: string := "map_overrides.json"
  const InteractDistance: real := 70.0
  /** The initial `best_dist` of the nearest-NPC search. */
  const FarAway: real := 1000000000.0

  /** An NPC of the prototype: a name, a world position and its lines. */
  datatype Npc = Npc(name: string, x: real, y: real, lines: seq<string>)

  // -----------------------------------------------------------------------
  // Facing test and nearest NPC
  // -----------------------------------------------------------------------

  /** `is_in_front_of_player` given the distance to the NPC, the squared
      length of the player's facing vector, the dot product of the facing
      with the unit vector towards the NPC, and the cosine of the field of
      view. */
  predicate IsInFrontOfPlayer(dist: real, facingLenSq: real, dot: real, fovCos: real)
  {
    if dist > InteractDistance then false
    else if dist < 1.0 then true
    else if facingLenSq < 0.000001 then dist <= InteractDistance * 0.6
    else dot >= fovCos
  }

  /** Only NPCs within reach are in front; an NPC on top of the player
      always is; a player standing still reaches 60% of the distance. */
  lemma InFrontMeans(dist: real, facingLenSq: real, dot: real, fovCos: real)
    ensures IsInFrontOfPlayer(dist, facingLenSq, dot, fovCos) ==> dist <= InteractDistance
    ensures dist < 1.0 ==> IsInFrontOfPlayer(dist, facingLenSq, dot, fovCos)
    ensures facingLenSq < 0.000001 ==> (IsInFrontOfPlayer(dist, facingLenSq, dot, fovCos) <==> dist <= 42.0)
  {
  }

  /** What the Space handler knows of one NPC: whether it is in front of
      the player, and its distance. */
  datatype Candidate = Candidate(inFront: bool, dist: real)

  predicate Eligible(c: Candidate)
  {
    c.inFront && c.dist < FarAway
  }

  /** `i` is the eligible candidate with the strictly smallest distance,
      earlier candidates winning ties. */
  ghost predicate IsNearest(cands: seq<Candidate>, i: nat)
  {
    && i < |cands| && Eligible(cands[i])
    && (forall j :: 0 <= j < i && cands[j].inFront ==> cands[j].dist > cands[i].dist)
    && (forall j :: i < j < |cands| && cands[j].inFront ==> cands[j].dist >= cands[i].dist)
  }

  /** The search loop of the Space handler (`best_npc`, `best_dist`). */
  method NearestInFront(cands: seq<Candidate>) returns (best: Option<nat>)
    ensures best.None? <==> forall j :: 0 <= j < |cands| ==> !Eligible(cands[j])
    ensures best.Some? ==> IsNearest(cands, best.value)
  {
    best := None;
    var bestDist := FarAway;
    for i := 0 to |cands|
      invariant best.None? ==> bestDist == FarAway && forall j :: 0 <= j < i ==> !Eligible(cands[j])
      invariant best.Some? ==> best.value < i && Eligible(cands[best.value]) && bestDist == cands[best.value].dist
      invariant forall j :: 0 <= j < i && cands[j].inFront ==> cands[j].dist >= bestDist
      invariant best.Some? ==> forall j :: 0 <= j < best.value && cands[j].inFront ==> cands[j].dist > bestDist
    {
      if cands[i].inFront && cands[i].dist < bestDist {
        bestDist := cands[i].dist;
        best := Some(i);
      }
    }
  }

  /** There is at most one nearest candidate. */
  lemma NearestUnique(cands: seq<Candidate>, i: nat, k: nat)
    requires IsNearest(cands, i) && IsNearest(cands, k)
    ensures i == k
  {
  }

  // -----------------------------------------------------------------------
  // Dialog manager
  // -----------------------------------------------------------------------

  /** The state of a `DialogManager`. */
  datatype DialogState = DialogState(active: bool, npc: Option<Npc>, index: int)

  function ClosedState(): DialogState
  {
    DialogState(false, None, 0)
  }

  function Opened(n: Npc): DialogState
  {
    DialogState(true, Some(n), 0)
  }

  /** `progress`: nothing without an open dialog on an NPC; otherwise the
      next line, closing after the last one. */
  function Progressed(s: DialogState): (r: DialogState)
    ensures !(s.active && s.npc.Some?) ==> r == s
    ensures s.active && s.npc.Some? && s.index + 1 < |s.npc.value.lines| ==> r == s.(index := s.index + 1)
    ensures s.active && s.npc.Some? && s.index + 1 >= |s.npc.value.lines| ==> r == ClosedState()
  {
    if !s.active || s.npc.None? then s
    else if s.index + 1 >= |s.npc.value.lines| then ClosedState()
    else s.(index := s.index + 1)
  }

  /** `k` presses of Space on an open dialog. */
  function ProgressedTimes(s: DialogState, k: nat): DialogState
  {
    if k == 0 then s else Progressed(ProgressedTimes(s, k - 1))
  }

  /** After opening an NPC, each Space shows its next line, and the dialog
      closes exactly when the lines run out. */
  lemma {:induction false} ProgressWalksLines(n: Npc, k: nat)
    ensures k < |n.lines| ==> ProgressedTimes(Opened(n), k) == Opened(n).(index := k)
    ensures 1 <= k && |n.lines| <= k ==> ProgressedTimes(Opened(n), k) == ClosedState()
  {
    if k > 0 {
      ProgressWalksLines(n, k - 1);
    }
  }

  /** An open dialog shows one of its NPC's lines, unless the NPC has
      none. */
  ghost predicate DialogInv(s: DialogState)
  {
    && 0 <= s.index
    && (s.active && s.npc.Some? && s.npc.value.lines != [] ==> s.index < |s.npc.value.lines|)
  }

  lemma ProgressKeepsInv(s: DialogState)
    requires DialogInv(s)
    ensures DialogInv(Progressed(s))
  {
  }

  /** `DialogManager`: the open flag, the NPC spoken to and the line shown. */
  class DialogManager {
    var active: bool
    var npc: Option<Npc>
    var index: int

    function State(): DialogState
      reads this
    {
      DialogState(active, npc, index)
    }

    ghost predicate Valid()
      reads this
    {
      DialogInv(State())
    }

    constructor ()
      ensures State() == ClosedState() && Valid()
    {
      active := false;
      npc := None;
      index := 0;
    }

    /** `open(npc)`. */
    method Open(n: Npc)
      modifies this
      ensures State() == Opened(n) && Valid()
    {
      active := true;
      npc := Some(n);
      index := 0;
    }

    /** `close()`. */
    method Close()
      modifies this
      ensures State() == ClosedState() && Valid()
    {
      active := false;
      npc := None;
      index := 0;
    }

    /** `progress()`. */
    method Progress()
      requires Valid()
      modifies this
      ensures State() == Progressed(old(State())) && Valid()
    {
      if !active || npc.None? {
        return;
      }
      index := index + 1;
      if index >= |npc.value.lines| {
        Close();
      }
    }

    /** Space outside the editor: progress an open dialog, or open the
        nearest NPC in front of the player, if any. */
    method OnSpace(npcs: seq<Npc>, cands: seq<Candidate>) returns (chosen: Option<nat>)
      requires |cands| == |npcs| && Valid()
      modifies this
      ensures old(active) ==> chosen.None? && State() == Progressed(old(State()))
      ensures !old(active) && chosen.None? ==> State() == old(State()) && forall j :: 0 <= j < |cands| ==> !Eligible(cands[j])
      ensures !old(active) && chosen.Some? ==> IsNearest(cands, chosen.value) && State() == Opened(npcs[chosen.value])
      ensures Valid()
    {
      if active {
        Progress();
        chosen := None;
      } else {
        chosen := NearestInFront(cands);
        if chosen.Some? {
          Open(npcs[chosen.value]);
        }
      }
    }
  }

  // -----------------------------------------------------------------------
  // The override file
  // -----------------------------------------------------------------------

  /** The overrides read from the members of the file's object: each `"r,c"`
      key that parses keeps its value as it is; a later key for the same
      cell wins. */
  function ParsedFrom(entries: seq<(string, Json)>): map<Cell, Json>
  {
    if entries == [] then map[]
    else
      var n := |entries| - 1;
      var prev := ParsedFrom(entries[..n]);
      match MapSystem.ParseKey(entries[n].0)
      case Some(c) => prev[c := entries[n].1]
      case None => prev
  }

  /** `load_overrides` as a function of the files: `None` when the file is
      missing, unreadable or not an object, in which case nothing changes. */
  function LoadFrom(disk: map<string, FileContent>): Option<map<Cell, Json>>
  {
    if MapSavePath in disk && disk[MapSavePath].Parsed? && disk[MapSavePath].doc.JObj? then
      Some(ParsedFrom(disk[MapSavePath].doc.fields))
    else None
  }

  /** The members `save_overrides` writes, in `order`. */
  function EntriesOf(order: seq<Cell>, m: map<Cell, Json>): seq<(string, Json)>
    requires forall c :: c in order ==> c in m
  {
    if order == [] then []
    else
      var n := |order| - 1;
      EntriesOf(order[..n], m) + [(MapSystem.EncodeKey(order[n]), m[order[n]])]
  }

  /** The part of `m` whose cells `order` lists. */
  function Listed(order: seq<Cell>, m: map<Cell, Json>): map<Cell, Json>
  {
    map c | c in order && c in m :: m[c]
  }

  lemma ListedSnoc(order: seq<Cell>, m: map<Cell, Json>)
    requires order != [] && order[|order| - 1] in m
    ensures var n := |order| - 1;
      Listed(order, m) == Listed(order[..n], m)[order[n] := m[order[n]]]
  {
    var n := |order| - 1;
    assert order == order[..n] + [order[n]];
    var got := Listed(order[..n], m)[order[n] := m[order[n]]];
    assert got.Keys == Listed(order, m).Keys;
  }

  lemma ParsedFromSnoc(entries: seq<(string, Json)>, e: (string, Json))
    ensures ParsedFrom(entries + [e]) ==
              match MapSystem.ParseKey(e.0)
              case Some(c) => ParsedFrom(entries)[c := e.1]
              case None => ParsedFrom(entries)
  {
    assert (entries + [e])[..|entries|] == entries;
  }

  lemma {:induction false} ParsedOfEntries(order: seq<Cell>, m: map<Cell, Json>)
    requires forall c :: c in order ==> c in m
    ensures ParsedFrom(EntriesOf(order, m)) == Listed(order, m)
    decreases |order|
  {
    if order != [] {
      var n := |order| - 1;
      var last := order[n];
      var e := (MapSystem.EncodeKey(last), m[last]);
      assert EntriesOf(order, m) == EntriesOf(order[..n], m) + [e];
      ParsedFromSnoc(EntriesOf(order[..n], m), e);
      ParsedOfEntries(order[..n], m);
      MapSystem.KeyRoundTrip(last);
      ListedSnoc(order, m);
    } else {
      assert Listed(order, m) == map[];
    }
  }

  /** Saving the overrides and loading them again gives back the same map,
      values included. */
  lemma SaveThenLoad(disk: map<string, FileContent>, m: map<Cell, Json>, order: seq<Cell>)
    requires Enumerates(order, m)
    ensures LoadFrom(disk[MapSavePath := Parsed(JObj(EntriesOf(order, m)))]) == Some(m)
  {
    ParsedOfEntries(order, m);
    assert Listed(order, m) == m;
  }

  /** The loop of `load_overrides` over the members. */
  method ParseOverrides(entries: seq<(string, Json)>) returns (parsed: map<Cell, Json>)
    ensures parsed == ParsedFrom(entries)
  {
    parsed := map[];
    for i := 0 to |entries|
      invariant parsed == ParsedFrom(entries[..i])
    {
      assert entries[..i + 1][..i] == entries[..i];
      var key := MapSystem.ParseKey(entries[i].0);
      if key.Some? {
        parsed := parsed[key.value := entries[i].1];
      }
    }
    assert entries[..|entries|] == entries;
  }

  /** The dict comprehension of `save_overrides`, in the dict's order of
      the cells (some order of them). */
  method EncodeOverrides(m: map<Cell, Json>) returns (order: seq<Cell>, entries: seq<(string, Json)>)
    ensures Enumerates(order, m)
    ensures entries == EntriesOf(order, m)
  {
    order := [];
    entries := [];
    var rest := m.Keys;
    while rest != {}
      invariant forall c :: c in m <==> c in order || c in rest
      invariant forall c :: c in order ==> c !in rest
      invariant forall i, j :: 0 <= i < j < |order| ==> order[i] != order[j]
      invariant entries == EntriesOf(order, m)
      decreases |rest|
    {
      var c :| c in rest;
      assert (order + [c])[..|order|] == order;
      assert EntriesOf(order + [c], m) == entries + [(MapSystem.EncodeKey(c), m[c])];
      order := order + [c];
      entries := entries + [(MapSystem.EncodeKey(c), m[c])];
      rest := rest - {c};
    }
  }

  // -----------------------------------------------------------------------
  // World geometry
  // -----------------------------------------------------------------------

  /** `clamp_to_world` of the prototype, on its 3072 x 3072 world. */
  function ClampToWorld(x: real, y: real): (p: (real, real))
    ensures 0.0 <= p.0 <= WorldW as real && 0.0 <= p.1 <= WorldH as real
    ensures 0.0 <= x <= WorldW as real ==> p.0 == x
    ensures 0.0 <= y <= WorldH as real ==> p.1 == y
    ensures x < 0.0 ==> p.0 == 0.0
    ensures x > WorldW as real ==> p.0 == WorldW as real
    ensures y < 0.0 ==> p.1 == 0.0
    ensures y > WorldH as real ==> p.1 == WorldH as real
  {
    (MaxR(0.0, MinR(WorldW as real, x)), MaxR(0.0, MinR(WorldH as real, y)))
  }

  // -----------------------------------------------------------------------
  // The tile editor
  // -----------------------------------------------------------------------

  /** The path a cell shows when it has no truthy override. */
  function DefaultPath(cell: Cell): string
  {
    JoinPath(MapSystem.TileFolder, IntToString(cell.0) + "-" + IntToString(cell.1) + ".png")
  }

  /** What a click on `cell` puts in the input box: the cell's override when
      it is truthy, else the default tile path. The override is stored raw,
      so a truthy override that is not a string is `None`: the input box
      then holds a number, list or object, and the frame's prompt
      `prompt + input_text` raises `TypeError`. */
  function Prefill(overrides: map<Cell, Json>, cell: Cell): Option<string>
  {
    if cell in overrides && Truthy(overrides[cell]) then
      (if overrides[cell].JStr? then Some(overrides[cell].s) else None)
    else Some(DefaultPath(cell))
  }

  /** The three outcomes of a click: no truthy override gives the default
      path, a non-empty string override gives that string, and any other
      truthy override cannot be shown. */
  lemma PrefillCases(overrides: map<Cell, Json>, cell: Cell)
    ensures !(cell in overrides && Truthy(overrides[cell])) ==> Prefill(overrides, cell) == Some(DefaultPath(cell))
    ensures cell in overrides && overrides[cell].JStr? && overrides[cell].s != "" ==>
              Prefill(overrides, cell) == Some(overrides[cell].s)
    ensures Prefill(overrides, cell).None? <==> cell in overrides && Truthy(overrides[cell]) && !overrides[cell].JStr?
  {
  }

  /** Entering a path for a cell and clicking the cell again shows that
      path; entering a blank path brings back the default. */
  lemma EnterThenClick(overrides: map<Cell, Json>, cell: Cell, text: string)
    ensures Strip(text) != "" ==> Prefill(overrides[cell := JStr(Strip(text))], cell) == Some(Strip(text))
    ensures Strip(text) == "" ==> Prefill(overrides - {cell}, cell) == Some(DefaultPath(cell))
  {
  }

  /** `input_text[:-1]`. */
  function DropLast(s: string): (r: string)
    ensures s == "" ==> r == ""
    ensures s != "" ==> r + [s[|s| - 1]] == s
  {
    if s == "" then "" else s[..|s| - 1]
  }

  // -----------------------------------------------------------------------
  // Key dispatch of the main loop
  // -----------------------------------------------------------------------

  /** What a key press does in the main loop's `KEYDOWN` branch. */
  datatype KeyAction =
    | CloseDialog | CancelEdit | StopRunning | ToggleEditor | SaveFile | LoadFile
    | TalkOrProgress | ApplyEdit | Erase | TypeChar | NoAction

  /** The `if`/`elif` chain of the `KEYDOWN` branch: Escape first, then E,
      then S and L in the editor, Space outside it, and only then the input
      box of a cell being edited. */
  function Route(key: int, editorMode: bool, editing: bool, talking: bool): KeyAction
  {
    if key == K_ESCAPE then
      (if talking then CloseDialog else if editorMode && editing then CancelEdit else StopRunning)
    else if key == K_e then ToggleEditor
    else if key == K_s && editorMode then SaveFile
    else if key == K_l && editorMode then LoadFile
    else if key == K_SPACE && !editorMode then TalkOrProgress
    else if editorMode && editing then
      (if key == K_RETURN then ApplyEdit else if key == K_BACKSPACE then Erase else TypeChar)
    else NoAction
  }

  /** A key types into the input box exactly when a cell is being edited
      and the key is none of Escape, E, S, L, Enter and Backspace: the
      earlier branches take those, so whatever the shift state, the letters
      e, s and l never reach the box. Space does reach it in the editor.
      E always toggles the editor, and Escape quits only when no dialog is
      open and no cell is being edited. */
  lemma RouteTyping(key: int, editorMode: bool, editing: bool, talking: bool)
    ensures Route(key, editorMode, editing, talking) == TypeChar <==>
              editorMode && editing && key !in {K_ESCAPE, K_e, K_s, K_l, K_RETURN, K_BACKSPACE}
    ensures editorMode && editing ==> Route(K_SPACE, editorMode, editing, talking) == TypeChar
    ensures Route(K_e, editorMode, editing, talking) == ToggleEditor
    ensures Route(K_ESCAPE, editorMode, editing, talking) == StopRunning <==> !talking && !(editorMode && editing)
    ensures Route(key, editorMode, editing, talking) == TalkOrProgress <==> key == K_SPACE && !editorMode
  {
  }

  /** The tile overrides, the image cache, the editor flag and the editor's
      input box. */
  class TileEditor {
    var overrides: map<Cell, Json>
    /** The paths `_image_cache` holds an entry for. */
    var imageCache: set<string>
    var disk: map<string, FileContent>
    /** `editor_mode`. */
    var editorMode: bool
    var editingCell: Option<Cell>
    var inputText: string

    constructor (disk: map<string, FileContent>)
      ensures overrides == map[] && imageCache == {} && this.disk == disk
      ensures !editorMode && editingCell.None? && inputText == ""
    {
      overrides := map[];
      imageCache := {};
      this.disk := disk;
      editorMode := false;
      editingCell := None;
      inputText := "";
    }

    /** `load_overrides()`: replaces the overrides and clears the cache when
        the file is read; otherwise changes nothing. */
    method LoadOverrides()
      modifies this`overrides, this`imageCache
      ensures LoadFrom(disk).Some? ==> overrides == LoadFrom(disk).value && imageCache == {}
      ensures LoadFrom(disk).None? ==> overrides == old(overrides) && imageCache == old(imageCache)
      ensures disk == old(disk) && editingCell == old(editingCell) && inputText == old(inputText)
    {
      if MapSavePath in disk && disk[MapSavePath].Parsed? && disk[MapSavePath].doc.JObj? {
        var parsed := ParseOverrides(disk[MapSavePath].doc.fields);
        overrides := parsed;
        imageCache := {};
      }
    }

    /** `save_overrides()`: writes every override under its `"r,c"` key. */
    method SaveOverrides() returns (order: seq<Cell>)
      modifies this`disk
      ensures Enumerates(order, overrides)
      ensures disk == old(disk)[MapSavePath := Parsed(JObj(EntriesOf(order, overrides)))]
      ensures overrides == old(overrides) && imageCache == old(imageCache)
      ensures editingCell == old(editingCell) && inputText == old(inputText)
    {
      var entries;
      order, entries := EncodeOverrides(overrides);
      disk := disk[MapSavePath := Parsed(JObj(entries))];
    }

    /** A left click in the editor at world point (x, y): inside the grid it
        selects the cell and pre-fills the input; outside nothing changes.
        `failed` reports a truthy override that is not a string: the
        source stores it in the input box and the same frame's prompt
        raises `TypeError`, which the string field here cannot hold, so the
        text is left as it was. */
    method EditorClick(x: real, y: real) returns (failed: bool)
      modifies this`editingCell, this`inputText
      ensures var cell := MapSystem.GetCellFromWorld(x, y);
        && (failed <==> cell.Some? && Prefill(overrides, cell.value).None?)
        && (cell.Some? ==> editingCell == cell)
        && (cell.Some? && !failed ==> inputText == Prefill(overrides, cell.value).value)
        && (cell.None? ==> editingCell == old(editingCell))
        && (cell.None? || failed ==> inputText == old(inputText))
      ensures overrides == old(overrides) && imageCache == old(imageCache) && disk == old(disk)
    {
      failed := false;
      var cell := MapSystem.GetCellFromWorld(x, y);
      if cell.Some? {
        editingCell := cell;
        var shown := Prefill(overrides, cell.value);
        if shown.Some? {
          inputText := shown.value;
        } else {
          failed := true;
        }
      }
    }

    /** Enter while a cell is being edited: applies the stripped input —
        a blank input removes the override — evicts that path from the
        cache and closes the input box. */
    method ApplyInput()
      requires editingCell.Some?
      modifies this`overrides, this`imageCache, this`editingCell, this`inputText
      ensures var t := Strip(old(inputText));
        && overrides == (if t == "" then old(overrides) - {old(editingCell).value}
                         else old(overrides)[old(editingCell).value := JStr(t)])
        && imageCache == old(imageCache) - {t}
      ensures editingCell.None? && inputText == "" && disk == old(disk)
    {
      var t := Strip(inputText);
      var cell := editingCell.value;
      overrides := if t == "" then overrides - {cell} else overrides[cell := JStr(t)];
      imageCache := imageCache - {t};
      editingCell := None;
      inputText := "";
    }

    /** A key that reaches the input box other than Enter (Escape, E, S
        and L never do, see `Route`): Backspace drops a character, any
        other key types its character. */
    method TypeKey(key: int, unicode: string)
      requires key !in {K_RETURN, K_ESCAPE, K_e, K_s, K_l}
      modifies this`inputText
      ensures inputText == if key == K_BACKSPACE then DropLast(old(inputText)) else old(inputText) + unicode
    {
      if key == K_BACKSPACE {
        inputText := DropLast(inputText);
      } else if unicode != "" {
        inputText := inputText + unicode;
      }
    }

    /** One `KEYDOWN` event of the main loop, dispatched as `Route` says.
        `cands` describes the NPCs for the Space search; `quit` is
        `running = False`; `order` is the cell order a save writes in. */
    method KeyDown(key: int, unicode: string, dialog: DialogManager, npcs: seq<Npc>, cands: seq<Candidate>)
      returns (quit: bool, chosen: Option<nat>, order: seq<Cell>)
      requires dialog.Valid() && |cands| == |npcs|
      modifies this, dialog
      ensures dialog.Valid()
      ensures var a := Route(key, old(editorMode), old(editingCell).Some?, old(dialog.active));
        && (quit <==> a == StopRunning)
        // the dialog
        && (a == CloseDialog || a == ToggleEditor ==> dialog.State() == ClosedState())
        && (a == TalkOrProgress && old(dialog.active) ==> chosen.None? && dialog.State() == Progressed(old(dialog.State())))
        && (a == TalkOrProgress && !old(dialog.active) && chosen.Some? ==>
              IsNearest(cands, chosen.value) && dialog.State() == Opened(npcs[chosen.value]))
        && (a == TalkOrProgress && !old(dialog.active) && chosen.None? ==>
              dialog.State() == old(dialog.State()) && forall j :: 0 <= j < |cands| ==> !Eligible(cands[j]))
        && (a != CloseDialog && a != ToggleEditor && a != TalkOrProgress ==>
              dialog.State() == old(dialog.State()) && chosen.None?)
        // the editor flag and the input box
        && editorMode == (if a == ToggleEditor then !old(editorMode) else old(editorMode))
        && (a == CancelEdit || a == ToggleEditor || a == ApplyEdit ==> editingCell.None? && inputText == "")
        && (a != CancelEdit && a != ToggleEditor && a != ApplyEdit ==> editingCell == old(editingCell))
        && (a == Erase ==> inputText == DropLast(old(inputText)))
        && (a == TypeChar ==> inputText == old(inputText) + unicode)
        && (a != CancelEdit && a != ToggleEditor && a != ApplyEdit && a != Erase && a != TypeChar ==>
              inputText == old(inputText))
        // the overrides, the cache and the files
        && (a == ApplyEdit ==>
              var t := Strip(old(inputText));
              && overrides == (if t == "" then old(overrides) - {old(editingCell).value}
                               else old(overrides)[old(editingCell).value := JStr(t)])
              && imageCache == old(imageCache) - {t})
        && (a == LoadFile && LoadFrom(old(disk)).Some? ==> overrides == LoadFrom(old(disk)).value && imageCache == {})
        && (a == SaveFile ==>
              Enumerates(order, overrides) && disk == old(disk)[MapSavePath := Parsed(JObj(EntriesOf(order, overrides)))])
        && (a != SaveFile ==> disk == old(disk))
        && (a != ApplyEdit && !(a == LoadFile && LoadFrom(old(disk)).Some?) ==>
              overrides == old(overrides) && imageCache == old(imageCache))
    {
      ghost var a := Route(key, editorMode, editingCell.Some?, dialog.active);
      quit := false;
      chosen := None;
      order := [];
      if key == K_ESCAPE {
        if dialog.active {
          assert a == CloseDialog;
          dialog.Close();
        } else if editorMode && editingCell.Some? {
          assert a == CancelEdit;
          editingCell := None;
          inputText := "";
        } else {
          assert a == StopRunning;
          quit := true;
        }
      } else if key == K_e {
        assert a == ToggleEditor;
        editorMode := !editorMode;
        dialog.Close();
        editingCell := None;
        inputText := "";
      } else if key == K_s && editorMode {
        assert a == SaveFile;
        order := SaveOverrides();
      } else if key == K_l && editorMode {
        assert a == LoadFile;
        LoadOverrides();
      } else if key == K_SPACE && !editorMode {
        assert a == TalkOrProgress;
        chosen := dialog.OnSpace(npcs, cands);
      } else if editorMode && editingCell.Some? {
        if key == K_RETURN {
          assert a == ApplyEdit;
          ApplyInput();
        } else {
          TypeKey(key, unicode);
        }
      } else {
        assert a == NoAction;
      }
    }
  }
}
