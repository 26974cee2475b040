# EveStarmapVR core, modelled in Dafny

EveStarmapVR is a Unity viewer for the star map of EVE Online. You fly through
the map with a gamepad and configure it from a VR options menu. Around the
engine work sits a small amount of sequential logic, and this project models it
with proofs:

- **CustomMenu** (`menu.dfy`): the options menu. It holds a list of items, and
  each item has a caption, its options, a chosen index and a default index. Two
  cursors track the highlighted item and option. The pure `Apply` function
  gives the meaning of every navigation command, and the class methods are
  proved against it.
- **SimpleVRMenu** (`vrmenu.dfy`): the per-frame controller. It reads the
  D-pad, debounced through `keypadPressed`, with fixed priority. It also reads
  the arrow keys, which are not debounced, the confirm keys (ChooseOption, then
  a notification to the main script) and the open/close toggle. `Update` is
  proved equal to performing a planned list of menu calls. The run stops at the
  first call that throws.
- **GenerateGalaxy**:
  - `galaxy_data.dfy` holds the pure helpers:
    - `Convert.ToInt32` and `ConvertIDFromString`, with round trips;
    - the faction clamp and the faction colour table;
    - `ConvertHexColor`, with a round trip;
    - the spectral-class colours with their fallback to `G`;
    - the security bands (security is held in tenths).
  - `galaxy_load.dfy` holds the region and system loader loops and the merge
    of kill and jump statistics, with a missing entry read as 0.
  - `jump_mesh.dfy` holds the jump-line meshes: `AddLine` with its `Resize`
    copy loops, `UpdateMeshUvs`, and the per-region accounting of
    `GenerateJumps`.
  - `galaxy.dfy` holds the option-change dispatcher, the label-rotation frame
    counter and the label shortlist.
- **Dictionary fills** (`dictionaries.dfy`): every loop above that fills a C#
  `Dictionary` with `Add` shares one pattern. A row yields an entry, nothing,
  or an exception. `Add` throws on a key that is already present. The first
  exception ends the loop, and the entries added so far are kept.
- **EveApi** (`eve_api.dfy`): the `fixJson` wrapper and its inverse. The
  kills and jumps loops over decoded records. The `getTop` ranking.
- **xmlApiWrap** (`api_cache.dfy`): the cache policy. A response comes from the
  fresh cache file, else from the server (the download is written to the
  cache), else from the expired cache file. The cache directory is a map field
  of a class.
- **MyColor** (`colors.dfy`): the table of the extended colour keywords of
  CSS Color Module Level 3, section 4.3. Every entry is opaque.

C# `int` sums are wrapped to 32 bits (`Common.Wrap32`). Exceptions the source
throws or catches are modelled as `Option`/`Result` values or as `ok` flags.
Calls into the engine, the clock, the file system and the network are inputs
or are reported as results.

## Model

| member | source | states |
|---|---|---|
| NamedColors.Rgba | Assets/Scripts/MyColor.cs:14-1271 | every named colour has alpha 255 |
| NamedColors.AquaIsCyan | Assets/Scripts/MyColor.cs:36 | aqua is (0,255,255,255), the same as cyan (line 198) |
| NamedColors.FuchsiaIsMagenta | Assets/Scripts/MyColor.cs:423 | fuchsia is (255,0,255,255), the same as magenta (line 729) |
| NamedColors.BlackAndWhite | Assets/Scripts/MyColor.cs:81 | black is (0,0,0) and white (line 1242) is (255,255,255), both opaque |
| NamedColors.WarningColors | Assets/Scripts/MyColor.cs:1260 | yellow is (255,255,0); dark orange is (255,140,0) and crimson (220,20,60), both opaque |
| NamedColors.GrayGreenLime | Assets/Scripts/MyColor.cs:468 | gray is (128,128,128); green (477) is (0,128,0), which differs from lime (702), (0,255,0) |
| Menu.ApplyKeepsConsistent | Assets/SimpleVRMenu/Scripts/CustomMenu.cs:119-154 | on a consistent menu, only PickOptionRight and ChooseOption throw, and exactly when the list is empty; every command keeps the cursors in range and the items well formed |
| Menu.NavigationKeepsItems | Assets/SimpleVRMenu/Scripts/CustomMenu.cs:119-145 | the Pick commands change only the cursors, never the items |
| Menu.OptionCursorBounds | Assets/SimpleVRMenu/Scripts/CustomMenu.cs:129-145 | PickOptionLeft decrements only above 0; PickOptionRight increments exactly when below the last option, so it never passes it; items and item cursor stay |
| Menu.ChooseOptionFrame | Assets/SimpleVRMenu/Scripts/CustomMenu.cs:147-154 | ChooseOption sets the current item's chosen index to the option cursor; every other item, the item's other fields and both cursors stay |
| Menu.ResetDefaultsMeaning | Assets/SimpleVRMenu/Scripts/CustomMenu.cs:105-117 | after the reset every default equals its chosen index; chosen indices, captions, options and the item count stay |
| Menu.Apply | Assets/SimpleVRMenu/Scripts/CustomMenu.cs:119-154 | no command adds or removes items, and only ChooseOption changes them; the meaning of each command is fixed by the lemmas above and the methods below |
| Menu.CustomMenu.constructor | Assets/SimpleVRMenu/Scripts/CustomMenu.cs:44-50 | a new menu is empty with both cursors at 0 |
| Menu.CustomMenu.AddItem | Assets/SimpleVRMenu/Scripts/CustomMenu.cs:57-70 | a missing label, missing options, or a default outside 0..\|options\| (upper bound included) throw and change nothing; otherwise one item is appended with chosen = default; cursors and earlier items stay |
| Menu.CustomMenu.AddItemWithFirstDefault | Assets/SimpleVRMenu/Scripts/CustomMenu.cs:52-55 | the two-argument overload: AddItem with default 0 |
| Menu.CustomMenu.GetCurrentOptions | Assets/SimpleVRMenu/Scripts/CustomMenu.cs:76-85 | one entry per item, in order, holding its chosen index |
| Menu.CustomMenu.GetDefaultOptions | Assets/SimpleVRMenu/Scripts/CustomMenu.cs:91-100 | one entry per item, in order, holding its default index |
| Menu.CustomMenu.ResetDefaultOptions | Assets/SimpleVRMenu/Scripts/CustomMenu.cs:105-117 | items become ResetDefaults of the old items; cursors stay |
| Menu.CustomMenu.PickItemBelow | Assets/SimpleVRMenu/Scripts/CustomMenu.cs:119-127 | below the last item: item cursor + 1 and option cursor = that item's chosen index; at the last item nothing changes |
| Menu.CustomMenu.PickItemAbove | Assets/SimpleVRMenu/Scripts/CustomMenu.cs:218-225 | above item 0: item cursor - 1 and option cursor = that item's chosen index; at item 0 nothing changes |
| Menu.CustomMenu.PickOptionLeft | Assets/SimpleVRMenu/Scripts/CustomMenu.cs:129-136 | option cursor - 1 only when above 0; items untouched |
| Menu.CustomMenu.PickOptionRight | Assets/SimpleVRMenu/Scripts/CustomMenu.cs:138-145 | throws on an empty list; otherwise option cursor + 1 only when below \|options\| - 1 |
| Menu.CustomMenu.ChooseOption | Assets/SimpleVRMenu/Scripts/CustomMenu.cs:147-154 | throws on an empty list; otherwise only the current item's chosen index changes, to the option cursor |
| Menu.CustomMenu.Count | Assets/SimpleVRMenu/Scripts/CustomMenu.cs:210-216 | the number of items, equal to the length of both option lists |
| Menu.CustomMenu.CurrentItemNum | Assets/SimpleVRMenu/Scripts/CustomMenu.cs:235-241 | the item cursor, an index of the list (0 for an empty list) |
| Menu.CustomMenu.CurrentOptionNum | Assets/SimpleVRMenu/Scripts/CustomMenu.cs:227-233 | the option cursor, in 0..\|options\| of the current item (0 for an empty list) |
| VrMenu.PerformAppend | Assets/SimpleVRMenu/Scripts/SimpleVRMenu.cs:165-219 | performing one more call is one more Step |
| VrMenu.PerformStops | Assets/SimpleVRMenu/Scripts/SimpleVRMenu.cs:165-219 | once a call throws, later calls change nothing |
| VrMenu.PerformConcat | Assets/SimpleVRMenu/Scripts/SimpleVRMenu.cs:165-219 | performing two blocks in turn is performing their concatenation |
| VrMenu.PerformTwoBlocks | Assets/SimpleVRMenu/Scripts/SimpleVRMenu.cs:165-219 | the D-pad block, then the arrow and confirm blocks, compose into one run of the joined calls |
| VrMenu.PerformCompletes | Assets/SimpleVRMenu/Scripts/SimpleVRMenu.cs:165-219 | on a consistent non-empty menu no call throws, every call is made and the menu stays consistent |
| VrMenu.PerformKeepsCount | Assets/SimpleVRMenu/Scripts/SimpleVRMenu.cs:165-219 | menu calls never change the item count, which the toggle reads |
| VrMenu.ClosedMenuIgnoresInput | Assets/SimpleVRMenu/Scripts/SimpleVRMenu.cs:165 | without an open, attached menu no navigation, arrow or confirm call is made |
| VrMenu.DpadPriority | Assets/SimpleVRMenu/Scripts/SimpleVRMenu.cs:168-190 | at most one D-pad call per frame, with priority up > down > left > right, and none while keypadPressed is still set |
| VrMenu.ArrowsNotDebounced | Assets/SimpleVRMenu/Scripts/SimpleVRMenu.cs:193-211 | the arrow keys act whether or not the D-pad is blocked, after any D-pad call of the same frame |
| VrMenu.NotifyFollowsChoose | Assets/SimpleVRMenu/Scripts/SimpleVRMenu.cs:213-219 | the notification is sent exactly on confirm with an open menu, as the last call, right after ChooseOption |
| VrMenu.DpadOf | Assets/SimpleVRMenu/Scripts/SimpleVRMenu.cs:153-157 | the axes give at most one vertical and one horizontal direction, and none exactly when both axes read 0 |
| VrMenu.NextKeypadPressed | Assets/SimpleVRMenu/Scripts/SimpleVRMenu.cs:160-163 | the debounce flag after a frame; HeldDpadActsOnce states what it achieves over many frames |
| VrMenu.HeldDpadActsOnce | Assets/SimpleVRMenu/Scripts/SimpleVRMenu.cs:160-190 | a direction held over any number of frames makes exactly one menu call, in the first frame, and none when it was already held before |
| VrMenu.DpadCommand | Assets/SimpleVRMenu/Scripts/SimpleVRMenu.cs:168-190 | the D-pad call of a frame; DpadPriority states its priority order and debounce |
| VrMenu.TogglePressed | Assets/SimpleVRMenu/Scripts/SimpleVRMenu.cs:224 | Tab or joystick button 7 toggle in any state, joystick button 1 only while the menu is open; ToggleBlock states the effect |
| VrMenu.VrMenuController.constructor | Assets/SimpleVRMenu/Scripts/SimpleVRMenu.cs:34-66 | after Awake the menu is closed and nothing is attached |
| VrMenu.VrMenuController.Initialize | Assets/SimpleVRMenu/Scripts/SimpleVRMenu.cs:73-86 | a missing menu, then a missing main script, throws with the source's message and attaches nothing; otherwise both are stored |
| VrMenu.VrMenuController.ActivateMenu | Assets/SimpleVRMenu/Scripts/SimpleVRMenu.cs:90-97 | menuActive becomes true only when the render plane exists; otherwise it stays |
| VrMenu.VrMenuController.DeactivateMenu | Assets/SimpleVRMenu/Scripts/SimpleVRMenu.cs:99-106 | menuActive becomes false only when the render plane exists; otherwise it stays |
| VrMenu.VrMenuController.CallMenu | Assets/SimpleVRMenu/Scripts/SimpleVRMenu.cs:165-219 | one menu call moves the menu as Apply says, or throws and leaves it |
| VrMenu.VrMenuController.DpadBlock | Assets/SimpleVRMenu/Scripts/SimpleVRMenu.cs:168-190 | makes exactly the debounced D-pad call; keypadPressed is set once a direction is pressed |
| VrMenu.VrMenuController.ArrowKey | Assets/SimpleVRMenu/Scripts/SimpleVRMenu.cs:193-211 | a pressed arrow key's call extends the run by one Step; after a call has thrown, nothing more happens |
| VrMenu.VrMenuController.ArrowBlock | Assets/SimpleVRMenu/Scripts/SimpleVRMenu.cs:193-211 | makes exactly the arrow-key calls, in the order up, down, left, right |
| VrMenu.VrMenuController.ConfirmBlock | Assets/SimpleVRMenu/Scripts/SimpleVRMenu.cs:213-219 | on confirm: ChooseOption, then the notification, unless ChooseOption throws |
| VrMenu.VrMenuController.ArrowConfirmBlock | Assets/SimpleVRMenu/Scripts/SimpleVRMenu.cs:193-219 | the arrow calls followed by the confirm calls, stopping at a throw |
| VrMenu.VrMenuController.MenuBlock | Assets/SimpleVRMenu/Scripts/SimpleVRMenu.cs:165-219 | the open-menu part of a frame performs the planned calls and keeps the item count |
| VrMenu.VrMenuController.ToggleBlock | Assets/SimpleVRMenu/Scripts/SimpleVRMenu.cs:224-238 | a toggle press opens an inactive, attached, non-empty menu and halts movement; any other toggle press closes it and resumes movement; no press changes nothing |
| VrMenu.VrMenuController.Update | Assets/SimpleVRMenu/Scripts/SimpleVRMenu.cs:146-241 | keypadPressed is cleared exactly when the D-pad is neutral; the menu ends as the planned calls leave it; a call that throws ends the frame before the toggle; then the toggle rule |
| GalaxyData.TrimStart | Assets/Scripts/GenerateGalaxy.cs:1224 | the leading white space Convert.ToInt32 skips: a suffix that does not start with a space |
| GalaxyData.TrimEnd | Assets/Scripts/GenerateGalaxy.cs:1224 | the trailing white space Convert.ToInt32 skips: a prefix that does not end with a space |
| GalaxyData.ParseNumber | Assets/Scripts/GenerateGalaxy.cs:1224 | the number in trimmed text: a sign and digits within the Int32 range; a result needs a digit |
| GalaxyData.ParseNeedsDigit | Assets/Scripts/GenerateGalaxy.cs:1224 | Convert.ToInt32 converts only text that holds a decimal digit |
| GalaxyData.Digits | Assets/Scripts/GenerateGalaxy.cs:1224 | the decimal digits of a natural number, never empty |
| GalaxyData.DigitsValueOfDigits | Assets/Scripts/GenerateGalaxy.cs:1224 | reading back the digits of n gives n |
| GalaxyData.TrimStartSkipsSpace | Assets/Scripts/GenerateGalaxy.cs:1224 | leading white space does not change the trimmed text |
| GalaxyData.TrimEndSkipsSpace | Assets/Scripts/GenerateGalaxy.cs:1224 | trailing white space does not change the trimmed text |
| GalaxyData.TrimPadding | Assets/Scripts/GenerateGalaxy.cs:1224 | trimming padded text gives back the unpadded text |
| GalaxyData.FormatIsTrimmed | Assets/Scripts/GenerateGalaxy.cs:1224 | the decimal text of an Int32 neither starts nor ends with white space |
| GalaxyData.ParseNumberFormat | Assets/Scripts/GenerateGalaxy.cs:1224 | the number read from the decimal text of an Int32 is that Int32 |
| GalaxyData.ParseMinus | Assets/Scripts/GenerateGalaxy.cs:1224 | a minus sign and digits read as the negated value of the digits |
| GalaxyData.ParseFormat | Assets/Scripts/GenerateGalaxy.cs:1224 | every Int32 written in decimal converts back to itself |
| GalaxyData.TrimmedIsItself | Assets/Scripts/GenerateGalaxy.cs:1224 | text without surrounding space is unchanged by trimming |
| GalaxyData.ParseFormatRoundTrip | Assets/Scripts/GenerateGalaxy.cs:1224 | every Int32, padded with white space, converts back to itself |
| GalaxyData.ConvertIDFromString | Assets/Scripts/GenerateGalaxy.cs:1218-1233 | null or empty gives -1; a failed conversion gives 0; text that converts, in any form Convert.ToInt32 accepts (a sign, leading zeros, white space), gives its Int32 |
| GalaxyData.ConvertIDRoundTrip | Assets/Scripts/GenerateGalaxy.cs:1218-1233 | the decimal text of any Int32, padded or not, gives that Int32 |
| GalaxyData.ConvertIDWithoutDigits | Assets/Scripts/GenerateGalaxy.cs:1226-1228 | non-empty text without a digit gives 0 |
| GalaxyData.ConvertIDOverflow | Assets/Scripts/GenerateGalaxy.cs:1226-1228 | a number outside the Int32 range overflows the conversion and gives 0 |
| GalaxyData.ParseNumberOverflow | Assets/Scripts/GenerateGalaxy.cs:1224 | digits whose value does not fit an Int32, signed or not, are not a number |
| GalaxyData.ClampFaction | Assets/Scripts/GenerateGalaxy.cs:425 | an ID in 500000..500020 is kept, any other becomes 500000, so the result is always in range |
| GalaxyData.FactionColor | Assets/Scripts/GenerateGalaxy.cs:1100-1191 | an ID gets a colour other than the black default exactly when it is in 500000..500020 |
| GalaxyData.ClampedFactionHasColor | Assets/Scripts/GenerateGalaxy.cs:424-425 | every faction ID the loaders store has a faction colour |
| GalaxyData.FactionRowColor | Assets/Scripts/GenerateGalaxy.cs:669 | among the faction-table IDs (500000..500099), exactly those up to 500020 get a colour |
| GalaxyData.IsRegionId | Assets/Scripts/GenerateGalaxy.cs:418 | the region rows kept: IDs strictly between 0 and 11000000; LoadedRegions states that every loaded region satisfies it |
| GalaxyData.IsSystemId | Assets/Scripts/GenerateGalaxy.cs:492 | the system rows kept, wormhole systems excluded: IDs strictly between 0 and 31000000; LoadedSystems states that every loaded system satisfies it |
| GalaxyData.IsFactionRowId | Assets/Scripts/GenerateGalaxy.cs:669 | the faction rows kept: IDs from 500000 below 500100; FactionRowColor states which of them get a colour |
| GalaxyData.HexDigit | Assets/Scripts/GenerateGalaxy.cs:1241-1243 | a base-16 digit has a value below 16 |
| GalaxyData.HexByte | Assets/Scripts/GenerateGalaxy.cs:1241-1243 | two characters convert to a byte exactly when both are base-16 digits or the first is a + sign and the second a digit; a signed digit is read as that digit |
| GalaxyData.SignedHexDigit | Assets/Scripts/GenerateGalaxy.cs:1241-1243 | a + sign before one hex digit reads as that digit, so "+f" is 15 |
| GalaxyData.ConvertHexColor | Assets/Scripts/GenerateGalaxy.cs:1235-1246 | fewer than 6 characters throw; success exactly when each of the pairs 0-1, 2-3 and 4-5 is accepted by HexByte; alpha is 255 |
| GalaxyData.SignedHexColor | Assets/Scripts/GenerateGalaxy.cs:1235-1246 | "+f+f+f" decodes to the opaque colour (15, 15, 15) |
| GalaxyData.HexOf | Assets/Scripts/GenerateGalaxy.cs:1241-1243 | a byte takes exactly two hex digits, the width each Substring reads back (see HexOfRoundTrip) |
| GalaxyData.HexString | Assets/Scripts/GenerateGalaxy.cs:1235-1246 | a colour takes exactly six hex digits, the length ConvertHexColor demands (see HexRoundTrip) |
| GalaxyData.HexCharValue | Assets/Scripts/GenerateGalaxy.cs:1241-1243 | each hex digit character reads back as its value |
| GalaxyData.HexOfRoundTrip | Assets/Scripts/GenerateGalaxy.cs:1241-1243 | two hex digits of a byte read back as that byte |
| GalaxyData.HexRoundTrip | Assets/Scripts/GenerateGalaxy.cs:1235-1246 | the hex text of any colour, with any tail, decodes to that colour, opaque |
| GalaxyData.HexIgnoresTail | Assets/Scripts/GenerateGalaxy.cs:1241-1243 | characters after the sixth are ignored |
| GalaxyData.SolarHex | Assets/Scripts/GenerateGalaxy.cs:1248-1297 | the spectral-class table O, B, A, F, G, K, M, L, T, Y; SolarTableDecodes states that every entry decodes |
| GalaxyData.SolarTableDecodes | Assets/Scripts/GenerateGalaxy.cs:1248-1297 | every entry of the spectral-class table decodes without throwing |
| GalaxyData.StarColor | Assets/Scripts/GenerateGalaxy.cs:512-518 | empty class text throws; a known first letter gets its table colour; any other gets the colour of 'G' |
| GalaxyData.Band | Assets/Scripts/GenerateGalaxy.cs:998-1029 | exactly one band: >= 0.9 super high, [0.6, 0.9) high, 0.5, (0, 0.5) low, <= 0 null |
| GalaxyData.BandColor | Assets/Scripts/GenerateGalaxy.cs:846-859 | the material colour of each band; BandColorsDistinct states that the five differ |
| GalaxyData.BandColorsDistinct | Assets/Scripts/GenerateGalaxy.cs:846-859 | the five band materials (cyan, green, yellow, dark orange, crimson) have five different colours |
| Dictionaries.FillKeeps | Assets/Scripts/GenerateGalaxy.cs:439 | a fill never changes an entry already present |
| Dictionaries.FillSound | Assets/Scripts/GenerateGalaxy.cs:439 | every entry a fill adds was yielded by some row |
| Dictionaries.YieldsTail | Assets/Scripts/GenerateGalaxy.cs:439 | an entry yielded by the later rows is yielded by the rows |
| Dictionaries.FillComplete | Assets/Scripts/GenerateGalaxy.cs:439 | a fill that ends without an exception holds every entry a row yielded, with that row's value |
| Dictionaries.FillWithoutError | Assets/Scripts/GenerateGalaxy.cs:439 | with no throwing row and no key added twice, the fill ends without an exception |
| Dictionaries.FillNoThrow | Assets/Scripts/GenerateGalaxy.cs:439 | a fill that ends without an exception met no row that throws |
| Dictionaries.FillSameEntries | Assets/Scripts/EveApi.cs:126-132 | two row lists yielding the same entries fill the same dictionary |
| GalaxyLoad.ToInt32RoundTrip | Assets/Scripts/GenerateGalaxy.cs:416 | a missing cell converts to 0, and the decimal text of any Int32, padded with white space, converts to that Int32 |
| GalaxyLoad.RegionEntry | Assets/Scripts/GenerateGalaxy.cs:416-439 | one region row: a bad ID throws, an ID out of range is skipped, a coordinate of a kept row that does not convert throws; RegionEntrySound and RegionEntryKept state what it adds |
| GalaxyLoad.GenerateRegions | Assets/Scripts/GenerateGalaxy.cs:415-439 | the loop leaves exactly LoadRegions of the rows: a bad ID or a bad coordinate of a kept row, or a duplicate ID, ends it with the regions added so far |
| GalaxyLoad.RegionEntrySound | Assets/Scripts/GenerateGalaxy.cs:416-439 | a region a row adds has an in-range ID, is stored under it and has a clamped faction |
| GalaxyLoad.RegionEntryKept | Assets/Scripts/GenerateGalaxy.cs:416-439 | a row whose ID is in the region range throws or adds a region under that ID; it is never skipped |
| GalaxyLoad.LoadedRegions | Assets/Scripts/GenerateGalaxy.cs:415-439 | every region has an ID in 1..10999999 under its own key and a faction in 500000..500020; when the loop ran to the end, every in-range row was loaded |
| GalaxyLoad.SystemEntry | Assets/Scripts/GenerateGalaxy.cs:490-556 | one system row: a bad ID throws, an ID out of range is skipped; then a bad number, a missing or empty class and an unknown region throw, in the source's order; SystemEntrySound states what it adds |
| GalaxyLoad.GenerateSolarSystems | Assets/Scripts/GenerateGalaxy.cs:488-556 | the loop leaves exactly LoadSystems of the rows: IDs outside 1..30999999 skipped; a bad number, a missing or empty class, an unknown region or a duplicate ID end it |
| GalaxyLoad.SystemEntrySound | Assets/Scripts/GenerateGalaxy.cs:488-556 | a system a row adds has an in-range ID, a loaded region and a clamped faction |
| GalaxyLoad.LoadedSystems | Assets/Scripts/GenerateGalaxy.cs:488-556 | every system has an in-range ID under its own key, lies in a loaded region and has a faction in 500000..500020 |
| GalaxyLoad.AttachStats | Assets/Scripts/GenerateGalaxy.cs:724-729 | every loaded system, and no other, gets kills and jumps from the statistics, 0 where they have no entry |
| JumpMesh.Points | Assets/Scripts/GenerateGalaxy.cs:1381-1384 | a quad has four corners |
| JumpMesh.Pattern | Assets/Scripts/GenerateGalaxy.cs:1395-1400 | a quad has six indices (two triangles) |
| JumpMesh.Strip | Assets/Scripts/GenerateGalaxy.cs:1370-1406 | the index buffer of k quads has 6k entries |
| JumpMesh.StripIndices | Assets/Scripts/GenerateGalaxy.cs:1395-1400 | every index of k quads names one of their 4k vertices |
| JumpMesh.LineBase | Assets/Scripts/GenerateGalaxy.cs:1372-1379 | the first vertex the quad is written to never lies past the end of the buffer |
| JumpMesh.AppendLine | Assets/Scripts/GenerateGalaxy.cs:1370-1406 | with tmp false: 4 more vertices and 6 more indices, old contents kept as prefixes, still a strip |
| JumpMesh.ReplaceLine | Assets/Scripts/GenerateGalaxy.cs:1370-1406 | with tmp true on a non-empty mesh: same sizes, last quad overwritten, index buffer unchanged |
| JumpMesh.Mesh.constructor | Assets/Scripts/GenerateGalaxy.cs:613 | a new mesh is empty |
| JumpMesh.Mesh.AddLine | Assets/Scripts/GenerateGalaxy.cs:1370-1406 | vertices and indices become LineVertices/LineTriangles of the old ones; the mesh stays a strip and every index is below the vertex count |
| JumpMesh.Mesh.UpdateMeshUvs | Assets/Scripts/GenerateGalaxy.cs:1487-1499 | one texture coordinate per vertex, the projection of that vertex; vertices and indices stay |
| JumpMesh.PlaceQuad | Assets/Scripts/GenerateGalaxy.cs:1372-1384 | the new vertex array: the kept old vertices, then the quad |
| JumpMesh.PlaceTriangles | Assets/Scripts/GenerateGalaxy.cs:1386-1400 | the new index array: the kept old indices, then the quad's two triangles |
| JumpMesh.WriteQuad | Assets/Scripts/GenerateGalaxy.cs:1381-1384 | the last four vertex slots receive the quad's corners; the slots before them stay |
| JumpMesh.WritePattern | Assets/Scripts/GenerateGalaxy.cs:1395-1400 | the last six index slots receive the quad's two triangles; the slots before them stay |
| JumpMesh.Resize | Assets/Scripts/GenerateGalaxy.cs:1467-1481 | a new array ns longer, holding the old elements in front |
| JumpMesh.JumpAccounting | Assets/Scripts/GenerateGalaxy.cs:624-642 | a region's mesh has 8 vertices and 12 indices per row drawn into it; a row is drawn into the region of its from-system exactly when both its systems and that region are loaded |
| JumpMesh.JumpsOnlyIntoLoaded | Assets/Scripts/GenerateGalaxy.cs:634 | a region that is not loaded gets no jump lines |
| JumpMesh.CreateMeshes | Assets/Scripts/GenerateGalaxy.cs:608-620 | one new, empty, separate mesh per region |
| JumpMesh.DrawRow | Assets/Scripts/GenerateGalaxy.cs:625-641 | a drawn row appends its two quads to its region's mesh; every other mesh is unchanged |
| JumpMesh.DrawJumps | Assets/Scripts/GenerateGalaxy.cs:624-642 | after the row loop each region's mesh holds JumpVertices of the rows |
| JumpMesh.ProjectAll | Assets/Scripts/GenerateGalaxy.cs:645-648 | every region's mesh gets its texture coordinates; vertices and indices stay |
| JumpMesh.GenerateJumps | Assets/Scripts/GenerateGalaxy.cs:594-650 | one new mesh per region, holding two quads per jump row drawn into it, as a strip with one texture coordinate per vertex |
| Galaxy.FirstChangeFrom | Assets/Scripts/GenerateGalaxy.cs:215-222 | the first differing index from i on, with every earlier index equal |
| Galaxy.FirstChange | Assets/Scripts/GenerateGalaxy.cs:215-222 | none exactly when all options equal their defaults; otherwise the first differing index |
| Galaxy.FindChangedOption | Assets/Scripts/GenerateGalaxy.cs:213-223 | the loop finds FirstChange, or reports no change with index -1 |
| Galaxy.EffectOf | Assets/Scripts/GenerateGalaxy.cs:226-334 | items 2, 3, 5, 6 switch their display on exactly for a non-zero option; items 0, 1, 4 act only on their listed options; other items do nothing |
| Galaxy.ChangeEffect | Assets/Scripts/GenerateGalaxy.cs:206-338 | nothing exactly when every option equals its default; otherwise the effect of some changed option (FirstChange: the first) |
| Galaxy.ResetLeavesNoChange | Assets/Scripts/GenerateGalaxy.cs:335 | after the reset a second dispatch finds no change |
| Galaxy.CounterValues | Assets/Scripts/GenerateGalaxy.cs:185-194 | with the counter as written (at 3 back to 1, then incremented), after the first frame it alternates between 3 and 2 |
| Galaxy.RotationEveryOtherFrame | Assets/Scripts/GenerateGalaxy.cs:185-194 | as written, labels rotate on frames 3, 5, 7 and so on |
| Galaxy.RotationNotEveryThirdFrame | Assets/Scripts/GenerateGalaxy.cs:96 | frame 5 rotates and frame 6 does not, against the stated every 3rd frame |
| Galaxy.CounterCorrectedValues | Assets/Scripts/GenerateGalaxy.cs:96 | with the intended counter (at 3 back to 1, otherwise incremented), the value before frame k + 1 is k mod 3, plus 1 |
| Galaxy.RotationEveryThirdFrame | Assets/Scripts/GenerateGalaxy.cs:96 | with the intended counter, frame k rotates exactly when 3 divides k |
| Galaxy.GalaxyView.constructor | Assets/Scripts/GenerateGalaxy.cs:94-95 | empty shortlist, counter at 1 |
| Galaxy.GalaxyView.OnSimpleVRMenuOptionChange | Assets/Scripts/GenerateGalaxy.cs:206-338 | acts only on the first changed option, then resets all defaults to the chosen options; with no change it does nothing, the reset included |
| Galaxy.GalaxyView.Update | Assets/Scripts/GenerateGalaxy.cs:182-200 | rotates exactly when the counter is 3; the counter takes one Tick |
| Galaxy.GalaxyView.AddLabelToShortlist | Assets/Scripts/GenerateGalaxy.cs:345-348 | adds the label under a new name; a name already present throws and changes nothing |
| Galaxy.GalaxyView.RemoveLabelFromShortlist | Assets/Scripts/GenerateGalaxy.cs:354-357 | removes the name; an absent name changes nothing |
| Galaxy.ShortlistAddRemove | Assets/Scripts/GenerateGalaxy.cs:345-357 | removing a label just added restores the shortlist |
| Galaxy.ShortlistRemoveOthers | Assets/Scripts/GenerateGalaxy.cs:354-357 | removal keeps every other label and drops the name |
| EveApi.FixJson | Assets/Scripts/EveApi.cs:79-83 | the value wrapped as {"Items": value }, longer by the wrapper |
| EveApi.UnwrapItems | Assets/Scripts/EveApi.cs:79-83 | the inverse of the wrapper, shorter by the wrapper |
| EveApi.FixJsonRoundTrip | Assets/Scripts/EveApi.cs:79-83 | unwrapping a wrapped value gives it back, and any unwrapped text is the wrapping of its value |
| EveApi.KillEntry | Assets/Scripts/EveApi.cs:126-132 | a record adds pod + ship kills under its system, and only when positive |
| EveApi.Kills | Assets/Scripts/EveApi.cs:115-141 | the getKills dictionary: empty after a failed download, else the fill of the kill entries; KillsSound, KillsComplete and KillsIgnoreNpc state its contents |
| EveApi.Jumps | Assets/Scripts/EveApi.cs:146-168 | the getJumps dictionary: empty after a failed download, else the fill of the jump entries; JumpsSound and JumpsComplete state its contents |
| EveApi.GetKills | Assets/Scripts/EveApi.cs:115-141 | a failed download gives an empty dictionary; otherwise the fill of the kill entries, keeping the entries before a duplicate system |
| EveApi.GetJumps | Assets/Scripts/EveApi.cs:146-168 | a failed download gives an empty dictionary; otherwise the fill of the jump entries, keeping the entries before a duplicate system |
| EveApi.KillsSound | Assets/Scripts/EveApi.cs:126-132 | every kills entry is positive and is the pod + ship total of a record for that system |
| EveApi.KillsComplete | Assets/Scripts/EveApi.cs:126-132 | without duplicate systems, every record with positive kills has its entry |
| EveApi.KillsIgnoreNpc | Assets/Scripts/EveApi.cs:128 | the NPC kills never change the result |
| EveApi.JumpsComplete | Assets/Scripts/EveApi.cs:157-160 | without duplicate systems, every record has its entry, zero counts included |
| EveApi.JumpsSound | Assets/Scripts/EveApi.cs:157-160 | every jumps entry is the count of a record for that system |
| EveApi.TopCount | Assets/Scripts/EveApi.cs:248-252 | getTop never keeps more entries than it is given, and keeps at least one of a non-empty input, whatever max is |
| EveApi.GetTop | Assets/Scripts/EveApi.cs:241-255 | the first TopCount entries of the descending enumeration |
| EveApi.TopCountCorrected | Assets/Scripts/EveApi.cs:236-240 | the documented count: never more than the input, and at most max |
| EveApi.GetTopCorrected | Assets/Scripts/EveApi.cs:236-240 | the counter compared before the Add: the first min(n, max) entries |
| EveApi.MapOfSnoc | Assets/Scripts/EveApi.cs:250 | each Add of the loop updates the dictionary with one more entry |
| EveApi.MapOfKeys | Assets/Scripts/EveApi.cs:250 | the keys of the collected entries are the keys enumerated |
| EveApi.MapOfValues | Assets/Scripts/EveApi.cs:250 | with distinct keys, every enumerated value is kept, one key per entry |
| EveApi.TopPrefix | Assets/Scripts/EveApi.cs:241-255 | the result is a subset of the input with the same values, of the prefix's size, and every kept value is >= every dropped value |
| EveApi.TopBeatsDropped | Assets/Scripts/EveApi.cs:246-252 | a system kept by the ranking has a value at least that of any system it dropped |
| EveApi.OrderCoversAll | Assets/Scripts/EveApi.cs:246 | the descending enumeration has one entry per key |
| EveApi.TopKeepsOneMore | Assets/Scripts/EveApi.cs:248-252 | with more than max entries, getTop returns max + 1 |
| EveApi.TopCorrectedSize | Assets/Scripts/EveApi.cs:236-240 | the corrected ranking returns at most max entries, and exactly max or all of them |
| ApiCache.FreshHitIsStaleHit | Assets/Scripts/xmlApiWrap.cs:69-137 | a hit with the time counted is also a hit with it ignored; every hit is the file verbatim |
| ApiCache.ExpiryRule | Assets/Scripts/xmlApiWrap.cs:110-111 | with the time ignored a readable stamped file is always used; otherwise it is used exactly while now <= cachedUntil |
| ApiCache.CachedCopy | Assets/Scripts/xmlApiWrap.cs:69-137 | loadFromCache: the file verbatim or null; FreshHitIsStaleHit and ExpiryRule state when it hits |
| ApiCache.RequestResult | Assets/Scripts/xmlApiWrap.cs:28-61 | apiRequest: fresh cache, then download, then stale cache; RequestFailsOnlyWhenAllFail states when it is null |
| ApiCache.RequestFailsOnlyWhenAllFail | Assets/Scripts/xmlApiWrap.cs:28-61 | apiRequest gives null exactly when the fresh cache, the server and the stale cache all fail |
| ApiCache.ApiCache.constructor | Assets/Scripts/xmlApiWrap.cs:206-214 | the cache directory generateCacheFilename creates in the temp folder (the static class has no constructor): its files as given |
| ApiCache.ApiCache.LoadFromCache | Assets/Scripts/xmlApiWrap.cs:69-137 | null when the file is missing, unreadable, not XML, lacks cachedUntil, or has expired while the time counts; otherwise the contents |
| ApiCache.ApiCache.WriteToCache | Assets/Scripts/xmlApiWrap.cs:142-165 | the file holds the text, unless the write fails, which is swallowed |
| ApiCache.ApiCache.LoadFromServer | Assets/Scripts/xmlApiWrap.cs:171-200 | a download is written to the cache and returned even when the write fails; a failed download writes nothing and gives null |
| ApiCache.ApiCache.ApiRequest | Assets/Scripts/xmlApiWrap.cs:28-61 | a fresh cache hit without contacting the server; else the download; else the stale cache; only a successful download is written |

## Left out

- Engine work is not part of this model: GameObjects, materials, TextMesh labels, renderers, `StaticBatchingUtility`, `SetActive`, `RecalculateBounds`/`RecalculateNormals`, the background music, `CustomMenu.DrawMenu` and `SimpleVRMenu.Awake`/`OnGUI`. The dispatcher returns the effect it would perform, and `VrMenuController.Update` returns the notification it would send.
- Float geometry and randomness: `MakeQuad`/`MakeQuad2` are parameters of `GenerateJumps`; the projection of `UpdateMeshUvs` is a parameter; the coordinate scaling, `GenerateRandomRegionColor` and the highlight spheres are left out.
- `GalaxyData.Band` takes the security status rounded to tenths as an integer: `Math.Round` on a double and the float comparisons are not modelled.
- The CSV reader (`CSVReader.SplitCsvGrid`) is not part of this model. The loaders take the rows their loops visit, and only the cells whose conversion decides the outcome. The other numeric cells a kept row converts (the region coordinates; a system's constellation, coordinates, luminosity, hub flags and security status) are one flag per row, `coordsConvert` or `numbersConvert`: when it is false the row throws at that point. Which cell of the group throws is not distinguished.
- GalaxyLoad.GenerateSolarSystems: the name, position, hub and luminosity fields are not kept.
- JumpMesh.GenerateJumps: the jump rows are already converted to IDs. A jump cell that does not convert throws out of the method in the source, and this model does not capture that. The meshes are built only when `generateJumpLines` is set; that flag is not modelled.
- The faction-label loop at GenerateGalaxy.cs:665-690 is modelled only as its row filter (`GalaxyData.IsFactionRowId`) and the colour lookup.
- `Convert.ToInt32` parses with the current culture; the model uses the invariant culture: ASCII digits, one sign, surrounding white space. Culture-specific signs and formats, trailing null characters and the exact .NET white-space set beyond ASCII are not modelled.
- JSON decoding (`JsonUtility`), `WebClient.DownloadString` and the file system are inputs. The decoded records, the download outcome, whether a file can be read or written, and what its XML holds are parameters.
- The clock is the parameter `now`. The model compares `cachedUntil` with it directly. The source parses a local time and compares it with `DateTime.UtcNow`, and that mismatch is not modelled.
- `generateCacheFilename` depends on `string.GetHashCode` and the temp path, so `ApiRequest` takes the file name.
- `initHttps` (certificate callback) and the whole of `zkbApi` are network plumbing.
- `PlayerController` is represented only by the `movementHalted` flag that the toggle sets.
- `RetrieveSystemDetails` and `GetTop` take the enumeration order of the dictionaries as a parameter, because .NET fixes that order internally.
- Null strings as dictionary keys (the shortlist) and null option arrays inside items are not modelled: names and options are always present values. A missing class cell of a system row is modelled (`MissingClass`).

## Findings

| source | as written | input that shows it | evidently intended | confidence | as-written member | corrected member |
|---|---|---|---|---|---|---|
| Assets/Scripts/GenerateGalaxy.cs:185-194 | the counter is reset to 1 and then incremented, so it alternates between 2 and 3: labels rotate on frames 3, 5, 7 and so on | frame 5 rotates and frame 6 does not | every 3rd frame, as the comment at line 96 says (frames 3, 6, 9 and so on) | high, not executed | Galaxy.RotationNotEveryThirdFrame | Galaxy.RotationEveryThirdFrame |
| Assets/Scripts/EveApi.cs:248-252 | the counter is compared after the Add, so max + 1 entries are kept | 51 or more systems with max = 50 (GenerateGalaxy.cs:732) give 51 entries | at most max entries, as the doc comment at line 239 says | high, not executed | EveApi.TopKeepsOneMore | EveApi.TopCorrectedSize |
