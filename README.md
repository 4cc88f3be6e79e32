# Sky-island RPG prototype, modelled in Dafny

The system is a small pygame role-playing prototype. It is a set of
loosely connected scripts, and this project models the logic of each one
as a Dafny module:

- **Npcs** (`npc.dfy`, npc.py): a side-view NPC with a dialogue tree. The
  opening line depends on how often the player has visited. Choices move
  between nodes or end the talk. Space, the digit keys and clicks on the
  drawn choices drive it, and the model proves which node follows each input.
- **MapSystem** (`map_system.dfy`, map_system.py): the tiled world map.
  It covers the per-map tile-override file with its metadata, the
  per-map set of wall blocks, toggling a block, the world-to-tile and
  world-to-block conversions, the clamp to the world, and the
  circle-against-blocks collision test. The JSON files form a
  path-to-content store. Saving then loading gives back what was saved.
  **Cells** (`cells.dfy`) provides the sorted cell list that `save_blocks`
  writes.
- **Tem** (`tem.dfy`, tem.py): the single-file prototype. It has NPCs
  with a dialogue manager, the "in front of the player" NPC choice, the
  override file, the key dispatch of the frame loop (Escape, E, S, L,
  Space and the editor's typed-path input), and the editor's clicks.
- **Levels** (`level.dfy`, level.py): a side-view level. It covers its JSON
  file (load and save, with every item round-tripping), the ground
  polyline and the height it gives under a point, the solid rectangles,
  and the wall grid with its toggled cells.
- **SidePlayers** (`side_player.dfy`, player.py): the side-view player.
  Each frame applies acceleration or friction, the speed limit, the world
  clamp and the push out of solid rectangles, then snaps to the ground.
- **ClickPlayers** (`click_player.dfy`, game/player.py): the click-to-move
  player. It slices its sprite sheet, walks toward the clicked point and
  lands on it exactly, faces along the larger axis, and keeps the fading
  click rings.
- **Toggles** (`toggle_switch.dfy`, ui/toggle_switch.py): the on/off
  switch. It holds a state, an animation that slides toward that state,
  and the calls it makes to its change callback.
- **Stories** (`story.dfy`, story.py): the story viewer. It covers greedy
  word wrapping, the sidebar buttons, the keys and wheel that scroll, and
  the scroll clamp.
- **Topdown** (`isac.dfy`, isac.py): the top-down camera. It eases toward
  the player's centre, clamped to the world, and switches the player's
  movement mode.
- **KeyConfig** (`key.dfy`, key.py): key names, the name-to-key table, and
  the case-insensitive lookup with its fallback.
- **Multiline** (`utils.dfy`, utils.py): the character-by-character line
  breaking of `draw_multiline`.
- **Common**, **Json** and **Pygame** (`common.dfy`, `json.dfy`,
  `pygame.dfy`) hold shared definitions:
  - Python's `strip`, `split`, `int`, `str`, `//` and `int()` on floats;
  - parsed JSON values;
  - `pygame.Rect`, events and key codes.

Modelling choices:

- Classes whose fields the source updates in place are Dafny classes whose
  methods are proved against specification functions. The properties are
  lemmas about those functions.
- Files on disk are a `map` from path to content that the methods read and
  replace.
- The font's pixel width is a parameter `width: string -> int`.
- `math.hypot` is a parameter `dist`, or a squared comparison.
- `random.choice` is a parameter `pick`.
- Screen sizes and clocks are parameters.

The walking animation of game/player.py advances its frame with
`1 + ((anim_index - 1) % 3)`. This maps every walking frame 1, 2 and 3 to
itself, and maps the idle frame 0 to 3. The walk therefore shows frame 3
throughout. The model keeps this behaviour as written, and
`ClickPlayers.NextFrameFixed` states it.

## Model

| member | source | states |
|---|---|---|
| Npcs.SelectSteadyState | npc.py:131-136 | From the fifth visit on, an NPC with at least four line sets says its third or its fourth set; the random draw decides which, and both can come up. |
| Npcs.SelectByVisit | npc.py:131-139 | Below that, visit n picks set n (counting from 1), later visits repeat the last set, visits up to 0 pick the first, and the random draw plays no part. |
| Npcs.SelectFromNothing | npc.py:131-132 | An NPC with no line sets behaves as one whose only set is "...". |
| Npcs.CurrentNode | npc.py:147-150 | The current line is "..." when there are no lines; otherwise it is one of the active lines, and it is the one under the cursor while the cursor is in range. |
| Npcs.FirstHit | npc.py:209-212 | The clicked choice belongs to the first button rectangle that contains the point; there is none exactly when no rectangle contains it. |
| Npcs.StartOpens | npc.py:141-145 | Starting a talk counts one more visit, opens on the first line and shows the selected set, or "..." when that set is empty. |
| Npcs.ApplyChoiceSpec | npc.py:155-173 | A choice leading to a non-empty list of lines reopens on the first of them; one leading to a non-empty string shows just that line; any other choice only closes the talk. The visit count never changes, and the cursor stays on a line. |
| Npcs.SpaceWhileNear | npc.py:187-196 | Space within range opens a closed talk. On a line with choices it is ignored. Otherwise it moves to the next line and closes the talk after the last one. |
| Npcs.SpaceWhenFar | npc.py:187 | Space out of range changes nothing. |
| Npcs.DigitKey | npc.py:199-204 | Keys 1 to 9 apply the matching choice only while talking on a line that offers that many choices; in every other case they change nothing, near or not. |
| Npcs.ClickChoice | npc.py:207-212 | A left click applies the first choice button under the cursor while talking on a line with choices; every other click changes nothing. |
| Npcs.OnEventVisits | npc.py:185-212 | One event adds a visit exactly when it is Space, in range, with no talk open. |
| Npcs.OnEventKeepsInv | npc.py:185-212 | No event moves the cursor of an open talk off its lines. |
| Npcs.RunKeepsInv | npc.py:178-214 | A whole `update` keeps the cursor of an open talk on its lines. |
| Npcs.RunVisitsGrow | npc.py:178-214 | Over one `update` the visit count never goes down and grows by at most one per event. |
| Npcs.FirstVisitToWonee | npc.py:52-69 | With the shipped dialogue table, the first talk with 워니 is visit 1 and shows the first authored set. |
| Npcs.SixthVisitToWonee | npc.py:131-145 | With the shipped dialogue table, the sixth talk with 워니 shows its third or its fourth set. |
| Npcs.Npc.constructor | npc.py:92-122 | A new NPC is 32 by 56, stands on the support height at its x, talks within 90 pixels, takes its line sets from the table ("..." for an unknown id), and has no talk open. |
| Npcs.Npc.StartConversation | npc.py:141-145 | The object's state becomes the `Start` transition of its old state, and the conversation invariant holds. |
| Npcs.Npc.ApplyChoiceOf | npc.py:155-173 | The object's state becomes the `ApplyChoice` transition of its old state. |
| Npcs.Npc.HandleEvent | npc.py:185-212 | One pass of the event loop, including the scan of the choice buttons, equals the `OnEvent` transition and keeps the invariant. |
| Npcs.Npc.Update | npc.py:178-214 | `near` is the centre-distance test against the 90-pixel range, and the new state is the events folded through `OnEvent` in order, all against the line that was current before the loop. The NPC does not move and its choice buttons are unchanged. |
| Npcs.WrapText | npc.py:34-46 | Every dialog line is non-empty, and a line wider than the limit is a single word. The lines hold the text's visible characters, in order, with none lost or added; a text that is not all white space gives at least one line, and one that is gives none. |
| Npcs.WrapWordsShape | npc.py:37-43 | After any run of words without spaces, the closed lines are non-empty and each fits or is a single word, and so is the line being filled. |
| Npcs.WrapWordsContent | npc.py:37-43 | After any run of words, the closed lines and the line being filled hold the visible characters of those words in order, and blank words close no line. |
| Npcs.WrappedShape | npc.py:34-46 | Every line returned is non-empty and fits or is a single word. |
| Npcs.WrappedContent | npc.py:34-46 | The lines returned hold the text's visible characters in order, and there are none exactly when the text is all white space. |
| Npcs.VisibleCandidate | npc.py:38-39 | The stripped candidate `cur + " " + w` holds the visible characters of the current line followed by those of the word. |
| MapSystem.NormChars | map_system.py:56-58 | Normalising keeps the length and turns each backslash, and only those, into a slash. |
| MapSystem.NormIdempotent | map_system.py:56-58 | A normalised path has no backslash, and normalising it again changes nothing. |
| MapSystem.PathsDistinct | map_system.py:60-66 | Different maps have different override files and different block files, and no override file is a block file. |
| MapSystem.KeyRoundTrip | map_system.py:151-168 | Parsing an `"r,c"` key as `load_overrides` does gives back the cell that `save_overrides` encoded. |
| MapSystem.EntryOverrideEncoded | map_system.py:149-152 | A saved member reads back as its cell and its normalised path. |
| MapSystem.EnsureMetaDefaults | map_system.py:99-114 | Completed metadata always carries `map`, `override_file`, `tile_folder`, `file` and `count`. |
| MapSystem.MetaDefaultsSpec | map_system.py:99-114 | Missing fields get their defaults and supplied ones are kept. `file` falls back to `override_file`, `count` is always the loaded cell count, and no other member is added or lost. |
| MapSystem.SavedMetaFieldsAgree | map_system.py:170-175 | The metadata object written to the file reads back as the metadata kept in memory. |
| MapSystem.EntriesOf | map_system.py:168 | One written member per overridden cell. |
| MapSystem.OverridesOfEntries | map_system.py:149-168 | The members written for a list of cells read back as those cells with normalised paths. |
| MapSystem.SaveThenLoad | map_system.py:126-183 | Saving a map's overrides and loading them again gives the same cells with normalised paths and the same metadata, whatever tile folder is then active. |
| MapSystem.SavedEntriesRead | map_system.py:149-168 | The whole written `"overrides"` object reads back as the normalised overrides, with as many cells as before. |
| MapSystem.MetaDefaultsFixed | map_system.py:99-114 | Completing complete metadata with the count it already holds changes nothing. |
| MapSystem.NormAllIdentity | map_system.py:152-168 | When the paths in memory are already normalised, the round trip restores them exactly. |
| MapSystem.BlocksFromStops | map_system.py:198-207 | Once a pair fails `int()`, later items of the `"blocks"` list add nothing. |
| MapSystem.PairsJson | map_system.py:214 | One `[bx, by]` list per block, in the given order. |
| MapSystem.BlocksOfPairs | map_system.py:201-214 | A written list of pairs reads back as exactly the set of its cells. |
| MapSystem.SaveBlocksThenLoad | map_system.py:189-221 | Saving a map's blocks and loading them again gives the same set. |
| MapSystem.WorldToBlock | map_system.py:223-227 | The block returned is the 32-pixel square that contains the point. |
| MapSystem.Toggled | map_system.py:229-244 | `None` flips the block, `True` adds it and `False` removes it; no other block changes. |
| MapSystem.ToggleTwice | map_system.py:234-239 | Flipping the same block twice restores the set. |
| MapSystem.GetCellFromWorld | map_system.py:250-256 | A cell exists exactly for points inside the 12 by 12 grid of 256-pixel tiles; it is 1-based and its square contains the point. |
| MapSystem.ClampToWorld | map_system.py:258-260 | The result lies inside the world, and a coordinate already inside is kept. |
| MapSystem.TilePath | map_system.py:308-310 | A cell draws its non-empty override, otherwise `{r}-{c}.png` in the active tile folder. |
| MapSystem.CircleRectIntersectMeans | map_system.py:350-356 | For a rectangle of non-negative size, the nearest-point test holds exactly when some point of the closed rectangle is within the radius. |
| MapSystem.CentreInsideIntersects | map_system.py:350-356 | A circle whose centre is inside the rectangle always intersects it. |
| MapSystem.NearestOnAxis | map_system.py:353-354 | Along one axis, the clamped coordinate is the nearest point of the span. |
| MapSystem.CollidesFindsOverlap | map_system.py:358-374 | Any block of the world grid that the circle overlaps by more than a touch lies in the scanned range and is found. |
| MapSystem.ReadOverrideFile | map_system.py:136-158 | It reads the overrides and the raw metadata that the file supplies. A missing file, an unreadable file, a non-object document or a non-object `"overrides"` gives none. The legacy flat format is read as overrides. |
| MapSystem.ReadOverrides | map_system.py:148-155 | The loop reads the members in file order. A later key for the same cell wins, and bad keys and non-string values are skipped. |
| MapSystem.WriteOverrides | map_system.py:168 | Every overridden cell is written exactly once, with its key and normalised path. |
| MapSystem.MapStore.constructor | map_system.py:43-50 | At import the current map is "city", the default tile folder is active, and the overrides, image cache, blocks and metadata are all empty. |
| MapSystem.MapStore.GetOverrideMeta | map_system.py:116-124 | It returns the loaded metadata, or the defaults for the given or current map with the current count; the result always carries every default key. |
| MapSystem.MapStore.LoadOverrides | map_system.py:126-162 | The overrides and metadata become what the file supplies, completed with defaults, and the image cache is cleared. |
| MapSystem.MapStore.SaveOverrides | map_system.py:164-183 | The map's override file is replaced by the completed metadata and every override under its `"r,c"` key, and the same metadata is kept in memory. |
| MapSystem.MapStore.LoadBlocks | map_system.py:189-207 | The block set becomes what the block file supplies. |
| MapSystem.MapStore.SaveBlocks | map_system.py:209-221 | The map's block file is replaced by its metadata and the blocks, strictly sorted, each once. |
| MapSystem.MapStore.ToggleBlockAtWorld | map_system.py:229-244 | The block under the point is flipped, added or removed as `Toggled` says. |
| MapSystem.MapStore.SetCurrentMap | map_system.py:71-90 | It switches the map and optionally the tile folder, and clears the cache. With autoload it then holds what the two files supply; without it, everything is empty. |
| MapSystem.MapStore.CollidesCircle | map_system.py:358-374 | The answer is true exactly when a block in the scanned range meets the circle. |
| Cells.SortedCells | map_system.py:214 | `sorted(BLOCKS)` lists every block once, in Python's tuple order. |
| Tem.InFrontMeans | tem.py:82-94 | Only an NPC within 70 pixels can be in front. One closer than a pixel always is. For a player standing still, the test is exactly "within 60% of the reach". |
| Tem.NearestInFront | tem.py:324-333 | The search finds no NPC exactly when none is in front and nearer than the starting bound; otherwise it finds the NPC in front with the strictly smallest distance, the earliest one winning ties. |
| Tem.NearestUnique | tem.py:324-331 | At most one NPC is the nearest one in front. |
| Tem.Progressed | tem.py:113-118 | Without an open dialog on an NPC, `progress` does nothing. Otherwise it shows the next line, or closes after the last one. |
| Tem.ProgressWalksLines | tem.py:103-118 | After opening an NPC, the k-th Space shows line k, and the dialog closes exactly when the lines run out. |
| Tem.ProgressKeepsInv | tem.py:113-118 | An open dialog keeps showing one of its NPC's lines. |
| Tem.DialogManager.constructor | tem.py:98-101 | A new manager is closed, has no NPC and shows line 0. |
| Tem.DialogManager.Open | tem.py:103-106 | Opening shows the NPC's first line. |
| Tem.DialogManager.Close | tem.py:108-111 | Closing forgets the NPC and resets the line. |
| Tem.DialogManager.Progress | tem.py:113-118 | The new state is `Progressed` of the old one. |
| Tem.DialogManager.OnSpace | tem.py:319-333 | Space progresses an open dialog. Otherwise it opens the nearest NPC in front, or changes nothing when no NPC is in front. |
| Tem.SaveThenLoad | tem.py:165-191 | Saving the overrides and loading them again gives back the same map, values included. |
| Tem.ParsedOfEntries | tem.py:173-187 | The members written for a list of cells read back as exactly those cells' overrides. |
| Tem.ParseOverrides | tem.py:172-178 | The loop reads the members in file order. Each key that parses as `"r,c"` keeps its value, a later key wins, and other keys are skipped. |
| Tem.EncodeOverrides | tem.py:187 | Every cell is written once, under its `"r,c"` key, with its value. |
| Tem.ClampToWorld | tem.py:249-250 | The point is clamped into the 3072 by 3072 world. A coordinate inside is kept, and one outside goes to the nearest edge. |
| Tem.EnterThenClick | tem.py:336-369 | After Enter with a non-blank path, clicking the cell shows that path again. After Enter with a blank path, the click shows the default tile path. |
| Tem.DropLast | tem.py:345-346 | Backspace removes the last character, and does nothing to an empty input. |
| Tem.TileEditor.constructor | tem.py:50-51 | The editor starts with no overrides, an empty cache and no cell being edited. |
| Tem.TileEditor.LoadOverrides | tem.py:165-182 | When the file reads as an object, the overrides are replaced and the cache is cleared; otherwise nothing changes. |
| Tem.TileEditor.SaveOverrides | tem.py:185-191 | The save file is replaced by every override under its `"r,c"` key, and memory is unchanged. |
| Tem.PrefillCases | tem.py:366-369 | A cell without a truthy override shows the default `{r}-{c}.png` path, a non-empty string override shows that string, and a truthy override that is not a string cannot be shown as text. |
| Tem.TileEditor.EditorClick | tem.py:359-369 | A click inside the grid selects that cell and pre-fills its override or default path; a truthy non-string override is reported as a failure (the frame's prompt at tem.py:433 then raises `TypeError`); a click outside changes nothing. |
| Tem.TileEditor.ApplyInput | tem.py:337-344 | Enter stores the stripped input for the cell, or removes the override when the input is blank. It evicts that path from the cache and closes the input. |
| Tem.TileEditor.TypeKey | tem.py:345-350 | Backspace drops the last character, and any key that reaches the input box appends its character. |
| Tem.RouteTyping | tem.py:295-350 | A key is typed into the input box exactly when the editor is on, a cell is being edited, and the key is none of Escape, E, S, L, Enter and Backspace, which the earlier branches take; Space is typed while editing. E always toggles the editor, Escape quits exactly when no dialog is open and no cell is being edited, and Space talks exactly when the editor is off. |
| Tem.TileEditor.KeyDown | tem.py:295-350 | One key press does what its branch does: Escape closes an open dialog, else cancels the edit, else quits; E flips the editor, closes the dialog and cancels the edit; S saves and L loads while the editor is on; Space outside the editor talks as `OnSpace`; Enter applies the edit, Backspace erases, and any other key types while editing. Every other branch leaves the dialog, overrides, cache and file unchanged. |
| Levels.SetOf | level.py:235-237 | The wall cells read are exactly the pairs listed. |
| Levels.Cleared | level.py:51-56 | Loading first empties the ground, walls, props, photos and wall cells, and keeps the world size, the sky colours and the grid. |
| Levels.LoadedHasGround | level.py:77-82 | A level that loads always has at least one ground point; an empty ground list is the `ValueError` outcome. |
| Levels.PairItemRoundTrip | level.py:77-79 | Every written `[x, y]` pair reads back as the same pair. |
| Levels.WallItemRoundTrip | level.py:84-86 | Every written wall reads back as the same rectangle. |
| Levels.PropItemRoundTrip | level.py:88-94 | Every written prop reads back with the same rectangle, solidity and name. |
| Levels.PhotoItemRoundTrip | level.py:96-103 | Every written photo reads back unchanged. |
| Levels.RectRoundTrip | level.py:84-86 | A rectangle written as `{"x", "y", "w", "h"}` reads back as itself. |
| Levels.PropRoundTrip | level.py:88-94 | A prop written with its `solid` and `name` reads back as itself. |
| Levels.PhotoRoundTrip | level.py:96-103 | A photo written with all five members reads back as itself, defaults unused. |
| Levels.GridRoundTrip | level.py:225-233 | A written `wall_grid` object reads back as the same grid, whatever grid the level held before. |
| Levels.HeadRoundTrip | level.py:64-75 | The written `_meta` reads back as the same world size and sky colours. |
| Levels.CollectOfAt | level.py:77-103 | A list member written with an encoding that its reader inverts reads back whole, in order. |
| Levels.ParseLevelLoaded | level.py:64-107 | A document whose parts all read is loaded with exactly those parts. |
| Levels.SaveThenLoad | level.py:47-148 | Saving a level that has ground and loading the file again gives back every value the document carries, whatever the level held before. |
| Levels.SavedShape | level.py:115-142 | The saved `_meta`, `wall_grid` and `ground_segments` read back as saved. |
| Levels.SavedSolids | level.py:124-134 | The saved `walls` and `props` read back as saved. |
| Levels.SavedPhotosCells | level.py:135-142 | The saved `photos` and `wall_cells` read back as saved. |
| Levels.Stem | level.py:117 | The map id is taken from the file name, with no directory part. |
| Levels.LastIndexOf | level.py:117 | The position found holds the character and none follows it; `None` means the character does not occur. |
| Levels.InterpBetween | level.py:160-166 | On a segment, the interpolated ground height lies between the segment's end heights. |
| Levels.LerpBetween | level.py:166 | For `t` in [0, 1], the truncated mix of two heights lies between them. |
| Levels.RatioWithin | level.py:164-165 | The interpolation parameter of a point on a segment is in [0, 1]. |
| Levels.Blend | level.py:166 | `a * (1 - t) + b * t` lies between `a` and `b` for `t` in [0, 1]. |
| Levels.BracketFirst | level.py:160-166 | Between the ends, the height comes from the first segment holding x and lies between that segment's end heights. |
| Levels.GroundYEnds | level.py:153-158 | The ground is flat beyond the first and the last point. |
| Levels.SupportIsMin | level.py:173-181 | The support height is the smallest of the ground height and the tops of the solid props spanning x: it is never below any of them and equals one of them. |
| Levels.SolidPropRects | level.py:188 | The rectangles collected are exactly those of the solid props. |
| Levels.SolidPropRectsOne | level.py:188 | One prop contributes its rectangle when it is solid and nothing otherwise. |
| Levels.SolidPropRectsAppend | level.py:188 | Collecting over two runs of props concatenates the two collections, so the order and the multiplicity of the solid props' rectangles are kept. |
| Levels.GridRects | level.py:245-249 | One `cell` by `cell` square per listed cell, at the cell's offset from the grid origin. |
| Levels.WallCellFromWorld | level.py:251-261 | A cell is returned only inside the grid, and never for a point left of or above the origin. |
| Levels.WallCellMeans | level.py:251-261 | With a positive cell size, a point maps to a cell exactly when it lies in that cell's wall square. |
| Levels.DivCompare | level.py:259-260 | Dividing by a positive cell size keeps comparisons, which is what the cell lookup relies on. |
| Levels.AxisCell | level.py:256-260 | Along one axis, a point at or past the origin floors to cell k exactly when it lies in that cell's span. |
| Levels.Level.constructor | level.py:18-40 | Before loading, a level has the default world size, sky colours and 5 by 3 grid of 80-pixel cells at (1200, 180), and no ground, walls, props, photos or wall cells. |
| Levels.Level.LoadMap | level.py:47-109 | The outcome is what the file supplies. A loaded level takes over every value the document sets; a level without ground takes over only the `_meta` part; and loaded wall cells rebuild the walls. |
| Levels.Level.TakeOver | level.py:64-107 | The level holds the values of the outcome, with the walls rebuilt when wall cells were loaded. |
| Levels.Level.SetData | level.py:64-107 | The level takes over every given value. |
| Levels.Level.RebuildWallsFromGrid | level.py:239-249 | There is one wall per in-range wall cell, each in its grid square. |
| Levels.Level.ToggleWallCell | level.py:263-271 | The cell is flipped, added or removed as with blocks, the walls are rebuilt, and nothing else changes. |
| Levels.Level.SaveMap | level.py:111-148 | The file is replaced by the level's document, with the wall cells strictly sorted and the id taken from the file name; the level is unchanged. |
| Levels.Level.SurfaceYRectX | level.py:153-167 | The loop returns the ground height at x. |
| Levels.Level.SurfaceY | level.py:169-171 | A rectangle standing on the ground at its centre has its top at the ground height minus its height. |
| Levels.Level.GetSupportY | level.py:173-181 | The loop returns the support height over the ground at x. |
| Levels.Level.GetSolidRects | level.py:186-189 | It returns all walls in order, followed by the solid props' rectangles in prop order (`SolidPropRects`). |
| Levels.ReadMapFile | level.py:58-62 | A missing file is `FileNotFoundError`, and a file `json.load` refuses is malformed. Otherwise the document is read. |
| Levels.ReadLevel | level.py:64-107 | The step-by-step reading equals `ParseLevel` on every document, stopping at the first part that raises. |
| Levels.GridWalls | level.py:244-249 | The loop produces the in-range cells, each once, and a wall for each. |
| Levels.ReadItems | level.py:77-103 | Each list loop reads the items in order and stops at the first that raises. |
| SidePlayers.Move | player.py:32 | The input direction is +1 exactly when only D is held, -1 exactly when only A is held, and 0 otherwise. |
| SidePlayers.InputAccelerates | player.py:37-39 | With input, the speed changes by exactly `PLAYER_ACCEL * dt` in the input's direction. |
| SidePlayers.FrictionTowardZero | player.py:40-44 | Without input, friction brings the speed toward zero by at most `PLAYER_FRICTION * dt` (exactly that much while it lasts) and never changes its sign. |
| SidePlayers.ClampSpeed | player.py:47 | The speed ends within the limit, is kept when already inside it, and is cut to the limit otherwise. |
| SidePlayers.WorldClamp | player.py:56 | The left edge stays inside the world and is kept when already inside it; a world narrower than the player pins it at 0. |
| SidePlayers.RectAt | player.py:24-26 | The rectangle has the player's size, and its corner is the position truncated. |
| SidePlayers.SnapClears | player.py:61-69 | After a snap the player no longer overlaps the rectangle it hit, and it has stopped. |
| SidePlayers.SnapPushesBack | player.py:63-67 | A snap pushes the player back against its motion. |
| SidePlayers.ResolveClear | player.py:59-69 | When no solid rectangle overlaps the player, the collision loop changes nothing. |
| SidePlayers.ResolveOutcome | player.py:59-69 | The collision loop either leaves the player alone or stops it, and leaves it either where it was or against an edge of one of the rectangles. |
| SidePlayers.LaunchIs | player.py:37-56 | The speed and position computed step by step before collisions are `Launch`'s. |
| SidePlayers.StepIs | player.py:28-74 | Collisions followed by snapping to the ground give `Step`. |
| SidePlayers.StepBounds | player.py:28-74 | After a frame the speed is within the limit, the player faces the way it was pushed (or as before without input), and its bottom stands on the ground under its centre. |
| SidePlayers.StepUnobstructed | player.py:52-69 | With nothing in the way, the player moves by `vel.x * dt`, clamped to the world, and keeps its speed. |
| SidePlayers.StepAtRest | player.py:28-74 | A player at rest inside the world, with no input and nothing in the way, stays where it is. |
| SidePlayers.Player.constructor | player.py:17-22 | A new player stands at the start position, at rest, facing right, with the configured size. |
| SidePlayers.Player.Bounds | player.py:24-26 | `rect` is the truncated position with the player's size. |
| SidePlayers.Player.Update | player.py:28-74 | One frame moves the player to the `Step` of its old state, against the level's world width, solid rectangles and ground. |
| SidePlayers.Player.Travel | player.py:32-56 | The first half of a frame produces the launched speed and clamped position, and the new facing. |
| SidePlayers.Player.Accelerate | player.py:37-47 | The speed becomes the clamped result of input or friction, and the facing follows the input. |
| SidePlayers.Player.SnapAgainst | player.py:59-69 | The collision loop over the solid rectangles, in order, gives `Resolve` of the launched position. |
| ClickPlayers.FramesDisjoint | game/player.py:62-74 | With non-negative spacing, two different frames of the sheet never overlap. |
| ClickPlayers.TargetFor | game/player.py:77-78 | The target is the top-left corner that puts the sprite's centre on the clicked point. |
| ClickPlayers.Heading | game/player.py:109-112 | The player faces right or left when the horizontal distance is the larger one, and down or up otherwise; ties go vertical. |
| ClickPlayers.NextFrameFixed | game/player.py:118 | The next walking frame is always 1, 2 or 3, and each walking frame is its own successor: the first tick from the idle frame gives 3, and the frame never changes after that. |
| ClickPlayers.WalkIs | game/player.py:97-118 | The walking branch, computed step by step as `update` does, is `WalkStep`. |
| ClickPlayers.IdleWithoutTarget | game/player.py:81-84 | Without a target nothing moves, and the animation rests on the idle frame. |
| ClickPlayers.ArrivesExactly | game/player.py:90-102 | When already there or within this frame's step, the player lands exactly on the target, the target is cleared, and the idle frame shows. |
| ClickPlayers.ClickThenArrive | game/player.py:77-102 | A click followed by an arrival leaves the sprite centred on the clicked point. |
| ClickPlayers.Approach | game/player.py:104-106 | Moving `step` along the unit vector leaves a vector of length `dist - step`. |
| ClickPlayers.StepTowardTarget | game/player.py:97-106 | A step short of the target moves straight toward it: the distance left is the distance before less the step, and it stays positive. |
| ClickPlayers.WalkFacing | game/player.py:108-118 | While walking, the player faces along the larger component of the way left, the frame stays in 0..3, and a walking frame that has already ticked never changes. |
| ClickPlayers.Live | game/player.py:136-146 | Pruning never adds a ring. |
| ClickPlayers.LiveMembers | game/player.py:136-146 | Pruning keeps exactly the rings younger than the duration. |
| ClickPlayers.LiveAppend | game/player.py:136-146 | Pruning keeps the original order: pruning a concatenation concatenates the pruned parts. |
| ClickPlayers.LiveLater | game/player.py:131-146 | Pruning at one time and again later is the same as pruning once later: rings only age. |
| ClickPlayers.Player.constructor | game/player.py:11-59 | A new player stands at the start with no target, facing down on the idle frame, with a drawn size of `int(tile * scale)` and no rings. |
| ClickPlayers.Player.SliceSheetWithSpacing | game/player.py:62-74 | The sheet is cut into `rows` rows of `cols` frames, each at its place given by margin and spacing. |
| ClickPlayers.Player.SetTarget | game/player.py:77-78 | The target becomes the corner that centres the sprite on the click. |
| ClickPlayers.Player.Update | game/player.py:80-118 | One frame moves the player to `WalkStep` of its old state; a step that falls short of the target keeps the target and leaves exactly `dist` less the step to go. |
| ClickPlayers.Player.Stride | game/player.py:104-118 | The walking branch moves by the step along the unit vector and updates the facing and the frame timer as `WalkStep` says. |
| ClickPlayers.Player.SpawnClickRing | game/player.py:127-128 | A click appends one ring, stamped with the current time. |
| ClickPlayers.Player.PruneRings | game/player.py:136-146 | The rings kept are `Live` of the old rings at the current time. |
| Toggles.Lerp | ui/toggle_switch.py:76 | The interpolation gives its first end at 0 and its second end at 1. |
| Toggles.LerpBetween | ui/toggle_switch.py:76 | For a fraction between 0 and 1, the interpolation stays between its two ends, in either order. |
| Toggles.Initial | ui/toggle_switch.py:33-35 | A new switch starts at rest on its initial value, with the animation already there. |
| Toggles.SetMeans | ui/toggle_switch.py:49-58 | Setting the current value does nothing and calls nobody. Setting the other value switches, calls `on_change` once with the new value, and either animates from where the knob is or jumps. The invariant holds afterwards. |
| Toggles.ToggleTwice | ui/toggle_switch.py:60-61 | A toggle flips the value, and two toggles restore it. Without animation, two toggles of a switch at rest restore the whole state. |
| Toggles.AdvanceApproaches | ui/toggle_switch.py:68-74 | An animation step moves toward the target and never passes it. It lands on the target once the step covers the gap, and a knob already there stays put. |
| Toggles.AdvanceKeepsInv | ui/toggle_switch.py:68-74 | `update` keeps the animation between 0 and 1 and heading for the state. |
| Toggles.KnobOnTrack | ui/toggle_switch.py:90 | The knob is drawn between its left and right stops. |
| Toggles.ToggleSwitch.constructor | ui/toggle_switch.py:10-43 | Sets up the rectangle, a duration of at least 0.01 s with its positive speed, the initial state, the knob geometry (its travel is width minus height), and an empty call log. |
| Toggles.ToggleSwitch.Value | ui/toggle_switch.py:45-47 | `value` is the switch's state. |
| Toggles.ToggleSwitch.Set | ui/toggle_switch.py:49-58 | The new state is `SetTo` of the old one, and the callback log grows by `Notified`. |
| Toggles.ToggleSwitch.Toggle | ui/toggle_switch.py:60-61 | Toggling sets the opposite value. |
| Toggles.ToggleSwitch.HandleEvent | ui/toggle_switch.py:63-66 | A left click inside the switch toggles it with animation and reports the new value to the callback, if there is one. Any other event changes nothing and calls nobody. |
| Toggles.ToggleSwitch.Update | ui/toggle_switch.py:68-74 | The animation value moves by `Advance` toward its target. |
| Stories.LettersAppend | story.py:66-84 | Taking the spaces out distributes over concatenation. |
| Stories.LettersOfNonSpace | story.py:66-84 | A string holding a non-space character keeps a letter once its spaces are taken out. |
| Stories.JoinLetters | story.py:72-81 | Joining words with spaces keeps the same letters as gluing them together. |
| Stories.GreedyShape | story.py:74-81 | When the words hold no space, every emitted line is non-empty, and every line (emitted or in progress) fits or is a single word. |
| Stories.SpacedLetters | story.py:75 | Joining two pieces with a space keeps their letters. |
| Stories.FillWordLetters | story.py:74-81 | One word through the greedy loop adds exactly its letters to the output. |
| Stories.GreedyLetters | story.py:72-83 | The greedy loop loses and reorders no letter: its lines hold the words' letters, in order. |
| Stories.WrapLineLetters | story.py:68-83 | The lines of a non-blank raw line hold its letters in order. |
| Stories.WrapLineSpec | story.py:68-83 | A blank raw line gives exactly one empty line. Any other gives at least one line, each non-empty and fitting or a single word, together holding its letters in order. |
| Stories.WrapAllSpec | story.py:66-84 | A text wraps to at least one line per raw line, and every line fits or is a single word. |
| Stories.WrapRaw | story.py:69-83 | The loop over one raw line produces `WrapLine`. |
| Stories.Wrap | story.py:66-84 | `wrap_text` produces `WrapText` of the text, whose properties the lemmas above state. |
| Stories.MakeButtons | story.py:127-132 | There is one button per story, in order; button `i` is 48 pixels below button `i-1` and is captioned with story `i`'s key. |
| Stories.ButtonsApart | story.py:127-132 | Two different sidebar buttons never share a point. |
| Stories.FirstHit | story.py:154-159 | The search finds the first button containing the point, or reports that none does. |
| Stories.OnEventInputs | story.py:139-163 | Escape closes the viewer. The arrows, `w` and `s` scroll by 24, the page keys by 240 and the wheel by 36. Every other key or button leaves the view unchanged. |
| Stories.ClickSelects | story.py:152-159 | A left click selects the first button under the cursor, scrolls to the top and drops the wrapped text. A click that misses every button does nothing, and nothing else changes the selection or the cache. |
| Stories.ClickOnButton | story.py:127-159 | With the sidebar's own buttons, clicking inside button `i` selects story `i`. |
| Stories.Keys | story.py:113 | The keys are the stories' keys, in order. |
| Stories.ClampScrollSpec | story.py:200-203 | The clamped offset lies between 0 and the amount the text overflows the panel. An offset already in range is kept, text that fits scrolls to 0, and clamping twice is clamping once. |
| Stories.StoryView.constructor | story.py:107-137 | The viewer opens active, on the first story, scrolled to the top, with one button per story and nothing cached. |
| Stories.StoryView.HandleEvent | story.py:139-163 | The new view state is `OnEvent` of the old one, and every button still belongs to its story. |
| Stories.StoryView.Layout | story.py:192-203 | A changed selection is wrapped again, cached and scrolled to the top; an unchanged one keeps its cache. Either way the scroll ends clamped to the text height. |
| Topdown.AxisTargetSpec | isac.py:64-82 | Along each axis the camera target shows only the world: it lies in `[0, world - screen]` when the world is larger than the screen, and is 0 otherwise or when the level has no such size. Within those bounds it centres the player on the screen. |
| Topdown.EaseBetween | isac.py:94-96 | Easing with a fraction `k` shrinks the gap to the target by the factor `1 - k`, and never overshoots or backs away. |
| Topdown.EaseSpec | isac.py:94-96 | With non-negative `dt` and smoothing the blend is a fraction, so the camera ends between where it was and the target. A frame with `dt * cam_smooth >= 1` lands on the target. |
| Topdown.TopdownView.constructor | isac.py:39-46 | The camera starts at the origin with the given smoothing. |
| Topdown.TopdownView.Enter | isac.py:51-54 | A player with a mode switches to `"topdown"`; one without is untouched. |
| Topdown.TopdownView.Exit | isac.py:56-59 | A player with a mode switches back to `"side"`; one without is untouched. |
| Topdown.TopdownView.Update | isac.py:84-96 | Each camera coordinate eases toward the clamped target by the blend factor. |
| Topdown.TopdownView.GetCamera | isac.py:213-214 | Returns the camera position. |
| KeyConfig.Upper | key.py:76 | Upper-casing maps every character and keeps the length. |
| KeyConfig.TableNamesCapital | key.py:34-70 | Every name in the table is non-empty and spelt in capital ASCII letters. |
| KeyConfig.AnyCase | key.py:72-76 | A table name written in any mix of upper and lower case finds its key, whatever the fallback. |
| KeyConfig.KeyCaseInsensitive | key.py:72-76 | Upper-casing is idempotent, so a name and its capital form find the same key. |
| KeyConfig.KeyFallback | key.py:72-76 | A non-string or unknown name gives the fallback. A known name gives its entry whatever the fallback, and any non-fallback result is a table entry. |
| KeyConfig.KnownName | key.py:72-76 | A table name as spelt finds its own row. |
| KeyConfig.WalkBindings | key.py:81-82 | The walking keys are A for left and D for right. |
| KeyConfig.ClimbBindings | key.py:83-84 | The top-down keys are W for up and S for down. |
| KeyConfig.ActionBindings | key.py:86-91 | F interacts, E opens the inventory, Space both continues talk and jumps, and W jumps as well. |
| Multiline.EmitKeepsForced | utils.py:9-11 | Emitting a line because the next character does not fit keeps every line break forced. |
| Multiline.BreakLines | utils.py:2-13 | The lines lose and reorder no character. Each fits or is one character, and each break is forced: the line plus the next character would not fit. Only the first line can be empty, exactly when the first character alone is too wide, and empty text gives no lines. |
| Common.StripEmptyIffBlank | story.py:69 | `s.strip() == ""` holds exactly for white-space-only strings. |
| Common.SplitJoin | story.py:68 | Splitting on a separator and joining back gives the text back, so the raw lines cover the whole text. |
| Common.ParseIntToString | map_system.py:151 | `int(str(n)) == n` for every integer, which the `"r,c"` override keys rely on. |
| Json.IntPairRoundTrip | map_system.py:214 | A pair written as a two-element list reads back as the same pair. |
| Json.CollectEncode | level.py:77-103 | Items written with an encoding that the reader reads back are collected unchanged, in order. |
| Common.FloorDiv | map_system.py:225-226 | `int(x // y)` for a positive `y` is the floor of the quotient: `r * y <= x < (r + 1) * y`. |
| Common.Trunc | player.py:26 | `int(x)` on a float truncates toward zero: it is within one of `x` on the side of zero. |
| Common.ClampR | map_system.py:258-260 | The clamp idiom `max(lo, min(hi, x))` lands in `[lo, hi]`, keeps a value already inside, and sends one outside to the nearer end. |

## Left out

- Drawing, blitting, fonts and image loading are not modelled: `draw`, `draw_dialog`, `load_image_cached`, `draw_background`, `_load_photo`, `draw_photos`, the level's drawing, the sprite draws, the toggle switch's colours, and the top-down renderers. Only the geometry these functions compute (the knob position, the scroll clamp, the layout cache) is modelled.
- Console output (`print`) and the window and event loops (`main`, tem.py's frame loop beyond its key and click branches, which `Tem.TileEditor.KeyDown` and `Tem.TileEditor.EditorClick` model) are I/O, so they are left out.
- Text width is a parameter standing for `font.size(...)[0]`, and the line height is a parameter standing for `get_linesize()`.
- `random.choice` in npc.py is a `pick` parameter. The NPC method chooses it nondeterministically.
- `math.hypot` in game/player.py is a `dist` parameter. `ClickPlayers.Player.Update` and the lemmas about the walk require that `dist` is the true distance.
- `pygame.time.get_ticks()`, `pygame.display.get_surface()` and `pygame.mouse.get_pos()` are parameters. Hover highlighting is left out, because it only affects drawing.
- `vel.y` of player.py is not modelled. It is always 0, because the player is pinned to the ground each frame.
- Sprite frames of game/player.py are modelled as their source rectangles only, without pixels.
- The `on_change` callback of the toggle switch is modelled as a log of the values it receives. What the callback does is outside the widget.
- `str.upper` is modelled only for the characters that can reach the key table: ASCII letters, dotless i and long s.
- The text of `STORY_DATA` is a parameter (the stories in their order). The model does not copy the Korean story text.
- Floating-point arithmetic is modelled with exact reals, so rounding is not captured.
- Npcs.WrapText: the content it keeps is stated for the visible characters only. Where the text had runs of white space, how the spaces are regrouped is not stated.
- Levels.Level.LoadMap: a photo `path` that is a float, list or object is read as the empty string. level.py:102 applies `str()`, which gives the value's Python `repr`; floats are exact reals here, and that rendering only reaches image loading, which is not modelled.
- Tem.TileEditor.EditorClick: a truthy override that is not a string sets `failed` and leaves the input text as it was. tem.py:369 stores the raw value and the prompt at tem.py:433 then raises `TypeError`, ending the game; the model does not carry that value or the stop further.
- Levels.Level.LoadMap: a malformed document leaves the level's state unspecified. Python leaves it partly loaded.
- Levels.WallCellFromWorld: requires a non-zero cell size. Python raises `ZeroDivisionError` there.
- Levels.Level.SurfaceYRectX, Levels.Level.SurfaceY and Levels.Level.GetSupportY: these require a non-empty ground polyline. Python would raise `IndexError` without one, and every level that loads has ground (`Levels.LoadedHasGround`).
- MapSystem.CollidesFindsOverlap: covers only strict overlap. A block that only touches the circle can lie outside the window that `collides_circle` scans.
- Tem.TileEditor.TypeKey: requires a key other than Enter, Escape, E, S and L, because the frame loop sends those to earlier branches (`Tem.TileEditor.KeyDown`). As in tem.py, those letters cannot be typed into the path box.
- Stories.StoryView.constructor: requires at least one story, because `list(STORY_DATA.keys())[0]` fails on an empty table.
- Topdown.TopdownView.Update: the world sizes are optional, standing for `getattr(level, "world_h", 0)` on a level object that may lack them. level.py sets `world_h` (540 unless `_meta` overrides it), so the vertical target is 0 only while that height is at most the screen height.
- Common.ParseInt: accepts optional white space, an optional sign and ASCII decimal digits. Python's `int` also accepts underscores between digits and non-ASCII decimal digits; those strings are `None` here.
- MapSystem.OverrideParts: a `_meta` member that is not an object is treated as no metadata. Python's `dict(meta or {})` would also accept a list of pairs and raise on a non-empty string or a number.
- Json.Get: a `JObj` has distinct keys. `json.load` keeps the last of repeated keys, and the model stands for the object after that merge.
