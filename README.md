# Animation pack viewer: a Dafny model

This project models the animation-pack logic of the test renderer (`test-render/main.c`). The renderer mounts `.pak` archives and lists the `.json` manifests at their root. It loads one manifest into an `SwfPack`, which holds the texture pages, symbols, frames and hit polygons. It plays the selected symbol frame by frame and tells whether the mouse is over the current frame's hit polygons.

The model covers:

- **Text** (`text.dfy`):
  - `EndsWith`;
  - the last-dot `.json` filter of `FindRootJsonPacks`;
  - the `;`-separated dropdown text, built with `strcat` into a buffer sized in advance.
- **Catalog** (`catalog.dfy`): the pack list, as a filter over the entries of the archive root.
- **CJson** (`cjson.dfy`):
  - the parsed JSON tree;
  - the cJSON accessors the loader uses: case-insensitive first-match `GetObjectItem`, and `(int)` truncation.
- **Pack** (`pack.dfy`):
  - the pack records;
  - a texture provider that hands out fresh non-zero texture ids and records each release;
  - `UnloadSwfPack`.
- **Loader** (`loader.dfy`):
  - `LoadSwfPackFromJson` as a method whose loops mirror the source's loops;
  - the functions that specify it;
  - the default and schema rules of the manifest, as lemmas.
- **HitTest** (`hittest.dfy`): `PointInPoly` (the even-odd rule) and the hover loop over a frame's polygons.
- **Playback** (`playback.dfy`):
  - the effective rate;
  - the frame clock (`curFrame`, `curFrameDurationLeft`) and one tick of it;
  - the accumulator drain loop;
  - timing lemmas: how long a frame is held, when it is left, that the animation loops, and that splitting time over frames loses no tick.
- **Viewer** (`viewer.dfy`): the state `main` keeps across frames, as a class, and each event of a frame as a method:
  - keys and buttons;
  - the animation update;
  - the pack and symbol dropdowns;
  - the hover test;
  - the final unload.

  Its invariant ties the textures the provider holds to the current pack's pages, and the current frame to the selected symbol's frame range.

Modelling choices:

- A manifest is given as `Option<Json>`. `None` stands for a file that is missing or does not parse; the loader then returns the zeroed pack, whose `fps` is 0.0.
- A JSON object keeps its members as a sequence, not a map, because cJSON's lookup ignores ASCII case and returns the first matching member.
- The texture provider's success for a path is a parameter (`loads`).
- The root directory entries, the parsed manifest at each path (`manifest`), the frame time `dt` and the mouse position are parameters. A pack's manifest is read at its own name, as `jsonPath` equals the entry name.
- Times and coordinates are exact reals.

A symbol switch does not re-derive the effective rate; only a pack switch does (`test-render/main.c:516`), and the symbol dropdown (`test-render/main.c:524-528`) leaves `fps` alone. This has no observable effect: the viewer invariant keeps `fps == EffectiveFps(pack.fps)`, and a symbol switch does not change the pack.

## Model

| member | source | states |
|---|---|---|
| Text.EndsWith | test-render/main.c:35-38 | true exactly when `suf` is a suffix of `s`: the result implies `s` is some prefix followed by `suf`, and any such split implies the result |
| Text.LastIndex | test-render/main.c:318 | `strrchr`: `None` exactly when the character does not occur; otherwise an index holding it, with no occurrence after it |
| Text.JsonPackNameIsSuffix | test-render/main.c:318-319 | a name passes the last-dot, case-insensitive `.json` test exactly when its lower-cased form ends with `.json` |
| Text.StrCat | test-render/main.c:423 | `strcat` into a buffer with room: the text grows by exactly `s`, the terminating NUL follows it, and the new length is the old plus `|s|` |
| Text.JoinNames | test-render/main.c:418-425 | the buffer text is the names joined with `;` (none after the last); `total` is 1 plus Σ(|name|+1); the text and its NUL always fit, leaving one spare byte when there is a name |
| Text.SplitJoin | test-render/main.c:418-425 | if no name contains `;`, splitting the joined text at `;` gives back exactly the names, in order |
| Catalog.FindRootJsonPacks | test-render/main.c:311-325 | the loop over the root entries returns `JsonPacks(entries)`: the names of the non-directory entries that pass the `.json` test, in enumeration order |
| Catalog.JsonPacksAreThePackEntries | test-render/main.c:317-320 | a name is listed exactly when some non-directory entry with that name passes the extension test; no more packs than entries |
| Catalog.PackNameExamples | test-render/main.c:318-319 | `431.JSON` is a pack name; `431.json.bak` is not, because only the text after the last dot counts |
| CJson.FindMember | test-render/main.c:151 | the first member whose key equals the name ignoring ASCII case; `None` exactly when no key matches |
| CJson.GetObjectItem | test-render/main.c:151 | `cJSON_GetObjectItem`: finds nothing in a non-object; in an object, finds nothing exactly when no key matches ignoring case |
| CJson.Trunc | test-render/main.c:184-192 | `(int)` of a double rounds toward zero: the fraction is dropped for either sign |
| CJson.FirstMemberWins | test-render/main.c:151 | the first member matching a name decides the lookup, whatever later members hold |
| Pack.LivePages | test-render/main.c:266 | the released ids never include 0, and are exactly the non-zero page ids |
| Pack.LivePagesOnce | test-render/main.c:265-268 | if no texture sits in two slots, each live texture appears exactly once among the releases |
| Pack.TextureProvider.Load | test-render/main.c:162 | a page yields a non-zero id exactly when the provider can load its path; that id is fresh and becomes live |
| Pack.TextureProvider.Unload | test-render/main.c:266 | `UnloadTexture`: the id stops being live and is appended to the release record |
| Pack.UnloadSwfPack | test-render/main.c:248-270 | every slot holding a texture is released once, in slot order; no other texture is released; the pack becomes `(SwfPack){0}` |
| Loader.LoadPoints | test-render/main.c:203-209 | one point per element, in order, each equal to `PointOf` (numeric `x`/`y` or 0.0) |
| Loader.LoadPolys | test-render/main.c:193-236 | the polygons are `PolysOf(poly)`: the single-polygon schema, the multi-polygon schema, or none |
| Loader.ReadInt | test-render/main.c:184-192 | a frame field becomes the truncated number when the member is numeric, and keeps its default otherwise |
| Loader.LoadFrame | test-render/main.c:181-237 | the frame built is `FrameOf(fr)`: field defaults 0, `duration` default 1, polygons per `PolysOf` |
| Loader.LoadFrames | test-render/main.c:176-238 | one frame per element of `frames`, in array order |
| Loader.LoadSymbol | test-render/main.c:172-239 | a symbol is `SymbolOf` its object: its string `name` or `symbol`, and one frame per element of a `frames` array, none otherwise |
| Loader.LoadSymbols | test-render/main.c:166-241 | one symbol per element of `symbols`, in order, each `SymbolOf` the element |
| Loader.LoadPages | test-render/main.c:155-164 | one slot per page entry; a slot is non-zero exactly when the entry is a string the provider loads; new ids are distinct and disjoint from those already live; all of them become live |
| Loader.LoadSwfPackFromJson | test-render/main.c:144-246 | no document gives the zeroed pack and loads nothing; otherwise `fps` is `FpsOf`, symbols are `SymbolsOf`, and pages follow the per-slot rule of `LoadPages`; the live textures grow by exactly the pack's pages |
| Loader.FpsDefault | test-render/main.c:151-152 | a manifest without a numeric `fps` plays at 24.0 |
| Loader.FpsFromManifest | test-render/main.c:151-152 | a numeric `fps` is kept as given, even when it is not positive |
| Loader.FpsKeyIgnoresCase | test-render/main.c:151-152 | `{"FPS": 30, "fps": 12}` gives 30: keys ignore case and the first match wins |
| Loader.NoNumberFound | test-render/main.c:184-192 | in an object none of whose members is a number, or in a non-object, no lookup finds a number |
| Loader.FrameDefaults | test-render/main.c:182-192 | a frame object with no numeric member has every field 0 except `duration`, which is exactly 1 |
| Loader.FrameDurationTruncated | test-render/main.c:192 | a numeric `duration` is truncated toward zero (2.9 gives 2) |
| Loader.PointDefaults | test-render/main.c:205-208 | a missing or non-numeric coordinate is 0.0 |
| Loader.SinglePolygon | test-render/main.c:196-209 | a non-empty `poly` whose first element is an object gives exactly one polygon, with one point per element, in order |
| Loader.MultiPolygon | test-render/main.c:210-232 | otherwise one polygon per element; a non-array element gives a polygon without points; an array element gives its points in order |
| Loader.NoPolygon | test-render/main.c:233-236 | a missing or non-array `poly` gives no polygon |
| Loader.SymbolShape | test-render/main.c:172-180 | a symbol's name is its string `name`, else `symbol`; its frames are those of its `frames` array, one each, in array order (not sorted by `idx`) |
| Loader.ManifestWithoutPoly | test-render/main.c:151-237 | a manifest whose only symbol has one empty frame plays at 24 and has one symbol named `symbol` holding one frame at the origin, lasting one tick, with no polygon |
| HitTest.EdgeTest | test-render/main.c:393-394 | the edge test as written, guard included, equals `Crosses`: the `1e-6` divisor is never used, because a straddling edge is not horizontal |
| HitTest.PointInPoly | test-render/main.c:386-398 | the result is the even-odd rule: an odd number of edges (i, i-1 mod n) straddle `p.y` with `p` left of the crossing |
| HitTest.AnyPolyHit | test-render/main.c:584-590 | the loop that stops at the first hit returns whether any polygon of the frame contains the point |
| HitTest.CrossesSymmetric | test-render/main.c:393-394 | an edge crosses the ray exactly when the same edge walked backwards does |
| HitTest.FewerThanThreePointsNeverHit | test-render/main.c:386-398 | a polygon of 0, 1 or 2 points contains no point |
| HitTest.SquareExample | test-render/main.c:386-398 | the square (0,0)-(10,10) contains (5,5) and not (15,15) |
| Playback.EffectiveFps | test-render/main.c:454 | the rate is the pack's `fps` when above 1, else 24; always above 1 |
| Playback.StartDuration | test-render/main.c:453 | a reset leaves frame 0's duration on the clock, or 1 when the selected symbol has no frames |
| Playback.Next | test-render/main.c:484 | the next frame index is always within the frame count |
| Playback.NextIsRemainder | test-render/main.c:484 | that next index equals `(curFrame + 1) % frameCount` |
| Playback.Step | test-render/main.c:481-486 | one tick keeps the frame index in range; with more than one tick left it only decrements; otherwise the next frame (wrapping) is shown with its full duration |
| Playback.StepsAdd | test-render/main.c:478-487 | n ticks then m ticks are n+m ticks |
| Playback.HoldsForDuration | test-render/main.c:481-486 | a frame with `left` ticks to go stays shown for `left - 1` more ticks, with the count going down by one each tick |
| Playback.AdvancesAfterDuration | test-render/main.c:481-486 | the `left`-th tick shows the next frame (wrapping), with that frame's whole duration |
| Playback.ElapsedPositive | test-render/main.c:481-486 | with durations of at least one tick, the first i frames together last at least i ticks |
| Playback.FrameStartsAfterPredecessors | test-render/main.c:481-486 | from a reset, frame i is shown from the tick where the durations of frames 0..i-1 have run out, with its full duration |
| Playback.LoopsAfterTotalDuration | test-render/main.c:484 | with positive durations the animation loops: after the sum of all durations the clock is back at frame 0 with its full duration |
| Playback.WholeUnits | test-render/main.c:480-481 | the drain loop takes no unit out below 1.0, and otherwise the integer part, leaving a remainder in [0, 1) |
| Playback.Advance | test-render/main.c:479-487 | after the update, the frame index is in range, the accumulator is in [0, 1), and below one unit nothing ticks |
| Playback.Drain | test-render/main.c:479-487 | the `while (acc >= 1)` loop gives exactly `Advance`: as many ticks as whole units in `acc + delta`, with the fraction kept |
| Playback.FloorShift | test-render/main.c:478-480 | adding a whole number to the accumulator adds it to the integer part |
| Playback.AdvanceAdditive | test-render/main.c:478-487 | because `acc` is `static`, updating by d1 and then d2 ends in the same clock and accumulator as one update by d1+d2 |
| Viewer.SymbolNames | test-render/main.c:441-448 | one name per symbol, in order |
| Viewer.SeparatorInNameAddsItem | test-render/main.c:441-448 | a symbol named `a;b` makes the dropdown offer two items for one symbol, the second an index the viewer does not accept (see Findings) |
| Viewer.SeparatorInPackNameAddsItem | test-render/main.c:417-425 | a root entry named `a;b.json` is listed as one pack, but the pack dropdown shows two items for it, one past the end of the pack list (see Findings) |
| Viewer.ItemText | test-render/main.c:446 | an item text keeps the name's length and every character but `;` and line breaks, and contains neither |
| Viewer.ItemTexts | test-render/main.c:445-448 | one item text per name, in order |
| Viewer.ItemTextsMatchSymbols | test-render/main.c:441-448 | with separators replaced in the names, the symbol dropdown offers exactly the accepted indices for every pack |
| Viewer.ItemTextsMatchPacks | test-render/main.c:417-425 | with separators replaced in the entry names, the pack dropdown offers exactly one item per pack |
| Viewer.SymbolDropdownItems | test-render/main.c:441-448 | if no name contains `;`, the symbol dropdown offers exactly the indices the viewer accepts: one per symbol, or the single empty item of a pack with no symbols |
| Viewer.DrawOrigin | test-render/main.c:585-586 | the frame is drawn at the anchor when offsets are ignored, and otherwise at the anchor plus the scaled offset |
| Viewer.RestartKeyUndefinedForEmptySymbol | test-render/main.c:469-472 | `{"symbols":[{}]}` yields one frameless symbol named `symbol`, and the R key's read of `frames[0]` is then undefined |
| Viewer.Gain | test-render/main.c:479 | the ticks a frame time is worth, `dt * fps * speed`, are never negative, and positive for positive time |
| Viewer.Viewer.constructor | test-render/main.c:410-456 | start-up: the packs are the `.json` entries of the root; the first pack is loaded from its manifest, with `fps`, symbols, and one page slot per `pages` entry holding a texture exactly when the entry is a path that loads; symbol 0 selected, the clock reset, the rate derived, playback on |
| Viewer.Viewer.TogglePlaying | test-render/main.c:468 | space and Play/Pause flip `playing`; the pack, the selection, the clock, the accumulator and the offset flag stay |
| Viewer.Viewer.ToggleOffsets | test-render/main.c:465 | the O key flips whether frame offsets are ignored |
| Viewer.Viewer.RestartKey | test-render/main.c:469-472 | the R key as written resets the clock, but only when the selected symbol's `frames[0]` exists (see Findings); playback, the accumulator and the offset flag stay |
| Viewer.Viewer.Restart | test-render/main.c:542-545 | the Restart button resets the clock to frame 0 with its duration, or 1 without frames, keeping the invariant, `playing`, the accumulator and the offset flag |
| Viewer.Viewer.Tick | test-render/main.c:474-489 | while a symbol with frames plays, the clock and accumulator become `Advance` of the old ones by `dt * fps * speed`; otherwise neither moves; the frame index stays in range |
| Viewer.Viewer.PackDropdown | test-render/main.c:495-518 | a new selection releases every texture of the old pack and loads the selected pack's manifest: its `fps`, its symbols, and one page slot per `pages` entry holding a texture exactly when the entry is a path that loads; symbol 0 is selected, the clock reset and the rate re-derived, and playback and the accumulator carry over; the same selection changes nothing |
| Viewer.Viewer.Install | test-render/main.c:504-516 | after a pack switch: symbol 0, frame 0 with its duration, the rate `EffectiveFps` of the new pack, and the invariant restored |
| Viewer.SwapPack | test-render/main.c:501-512 | a reload leaves live exactly the new pack's textures, after releasing each of the old pack's once, in slot order; the new pack's `fps`, symbols and page slots are those of its manifest |
| Viewer.StartThenFirstFrame | test-render/main.c:498-503 | the reload of pack 0 on the first frame (`lastPack` is -1) gives back the start-up pack's rate, symbols and occupied page slots, after releasing its textures |
| Viewer.Viewer.SymbolDropdown | test-render/main.c:520-529 | a new symbol resets the clock on that symbol and leaves the rate alone; the same symbol changes nothing |
| Viewer.Viewer.Hover | test-render/main.c:550-590 | no result when no frame is drawn; otherwise whether some polygon of the current frame, placed at the frame's origin and scale, contains the mouse |
| Viewer.Viewer.Shutdown | test-render/main.c:610-611 | the final unload releases the current pack's textures, leaving none live |
| Viewer.EmptySymbolViewer | test-render/main.c:469-472 | a viewer started on `{"symbols":[{}]}` is in a valid state where the R key reads past a frame array |

## Left out

- PhysFS mounting, enumeration and reading (`MountAllPaksInCwd`, `ReadAllPhysFS`, `ReadTextPhysFS`): file-system I/O. The root entries and each manifest's parsed tree are parameters.
- `ListPakContents` and `FindSwfBases`: debug listing and an unused helper, with no effect on the viewer's state.
- `LoadTextureFromPak` and the DDS cache write: texture decoding and GPU upload. A page is an opaque id, 0 when loading fails, and the provider's success for a path is a parameter.
- cJSON parsing itself: a foreign library. Its output is the `Json` datatype, and a parse failure is `None`.
- raylib/raygui drawing, the atlas and hitbox display flags (A and H keys), and the dropdowns' open/closed state.
- Float rounding: `acc`, `fps`, the frame time and polygon coordinates are exact reals. The `float` casts of `fps` and point coordinates are not modelled. One consequence is therefore not shown: `fps` is accepted when above 1 with no upper bound (`test-render/main.c:152` and 454). With `"fps": 1e10` and a 60 Hz frame time, `acc` exceeds 2^25 in one frame; there `acc -= 1.0f` leaves `acc` unchanged, so the `while (acc >= 1.0f)` loop at line 480 does not end. A value beyond `float`'s range, such as `1e39`, becomes infinity, with the same effect. In the model, `Drain` always ends.
- Viewer.Viewer.SymbolDropdown: requires that an unchanged selection equals the current symbol. A pack switch while the symbol list is open is therefore not modelled.
- Overflow of the `(int)` casts is not modelled: a number outside `int`'s range truncates to an unbounded integer.
- Overflow of the `int` duration counter is not modelled.
- The 512-byte `snprintf` copy of an entry name in `FindRootJsonPacks`: a name is taken whole.
- Memory allocation and freeing (`MemAlloc`, `MemFree`, `TextDuplicate`, `FreePackList`): a non-array polygon's NULL `pts` and an empty one are both `[]`.
- `main` exits when no pack is found; the viewer constructor requires at least one `.json` entry at the root.
- Text.SplitJoin and Viewer.SymbolDropdownItems: hold only for names without `;`. raygui would split such a name into several items (see Findings). The viewer keeps the list as written.
- Viewer.Viewer.PackDropdown: requires `k < |packNames|`. A root entry whose name contains `;` makes the dropdown offer an index past the pack list (see Findings); that selection is not modelled.
- Text.Split: splits at `;` only. raygui's `GuiTextSplit` is not part of this model; it may also split at line breaks and cap the number and length of items. `ItemText` replaces line breaks as well, so the corrected item texts hold none.
- Text.StrCat: requires the NUL at `len`, but not that the text before it and `s` are free of NUL. The model's strings are the contents of C strings, which hold no NUL; this is not enforced by their type.
- The order of the events within one frame of `main` is described in `viewer.dfy`, not composed into one method.
- `swf-exporter-as3/convert_and_pack.py`: external tools and zip packing.

## Findings

| source | as written | input that shows it | evidently intended | confidence | as-written member | corrected member |
|---|---|---|---|---|---|---|
| test-render/main.c:469-472 | the R key sets `curFrameDurationLeft` from `sw.symbols[ddSym].frames[0].duration` whenever the pack has symbols, without checking that the symbol has frames | manifest `{"symbols":[{}]}`: one symbol without frames, selected at start-up; pressing R reads `frames[0]` of a NULL frame array | the guarded reset of the Restart button and the dropdowns: 1 when the symbol has no frames | not executed | Viewer.Viewer.RestartKey, Viewer.EmptySymbolViewer | Viewer.Viewer.Restart |
| test-render/main.c:441-448 | the symbol names are joined with `;` as they are; raygui splits the text at every `;`, so a name containing `;` gives more items than symbols, and selecting an extra item makes `ddSym >= symbolCount`, indexed at lines 476 and 527 | a manifest with one symbol named `a;b`: the dropdown shows `a` and `b`, and choosing `b` selects symbol 1 of 1; this depends on how raygui splits the text | one item per symbol, e.g. by replacing `;` in the item text | not executed | Viewer.SeparatorInNameAddsItem | Viewer.ItemTextsMatchSymbols |
| test-render/main.c:417-425 | the pack names are joined with `;` as they are, and the selection `ddPack` indexes `packs.arr` at line 503 | a root entry named `a;b.json`: it passes the `.json` filter, the dropdown shows `a` and `b.json`, and choosing `b.json` sets `ddPack` to 1 in a one-element list; this depends on how raygui splits the text | one item per pack, e.g. by replacing `;` in the item text | not executed | Viewer.SeparatorInPackNameAddsItem | Viewer.ItemTextsMatchPacks |
