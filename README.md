# QTiles core, modelled in Dafny

QTiles is a QGIS plugin that renders map layers into a pyramid of raster
tiles. This project models its core:

- the tiling dialog's acceptance path:
  - the zoom check;
  - the TMS row convention;
  - the recursive tile enumeration `count_tiles`;
  - the OpenStreetMap restriction and the confirmation that follows it;
- the tiling thread: writer selection; `run` with its confirmation gate, its render loop and its stop flag; `stop`, `confirmContinue` and `confirmStop`;
- the four tile writers: a directory tree, a zip archive, an NGM archive and an MBTiles database;
- the OpenStreetMap layer restriction:
  - `is_openstreetmap_layer`;
  - `check`, modelled as written, including its loop that removes items from the list it iterates over.

Layout, one module per file:

- `tiles.dfy`: the quadtree tile arithmetic.
- `enumerator.dfy`: `count_tiles`. It is:
  - a recursive function `Enumerate` that states what the walk lists;
  - a method `CountTiles` with the source's nested loops, proved equal to it.
- `restrictions.dfy`: the restriction. It has:
  - a class `LayerList` for the mutated list;
  - the method `Check`;
  - its functional model `CheckAsWritten`;
  - a corrected `CheckCorrected`.
- `tilingthread.dfy`: the worker thread as a class. Its `run` is specified by a state-transition function `RunSpec` over the emitted signals and the writer calls.
- `writers.dfy`: one class per writer, plus specification functions for the NGM manifest and the MBTiles metadata.
- `dialog.dfy`: the dialog's accept path. It comes in three forms:
  - as written;
  - with the undefined method name repaired;
  - as evidently intended.
- `strings.dfy`, `layers.dfy` and `wrappers.dfy`: shared helpers.

Where the model takes things as parameters:

- Geometry (a tile's rectangle, CRS transforms) enters as two predicates of a `Request`:
  - whether the requested extent hits a tile;
  - whether a layer's extent hits it.
- Which layer the restriction treats as OpenStreetMap is a predicate parameter `isOsm`. `IsOpenStreetMapLayer` is the source's own classifier and is used concretely.
- The points at which the user presses "stop" during the render loop are a sequence `stops`. `stops[i]` holds when the flag is set by the time tile `i` has been rendered.
- The gate answer is a `GateAnswer`.
- The clock is a number of seconds.
- Encoded images are an opaque `Image` value.

## Model

| member | source | states |
|---|---|---|
| Tiles.ChildBelow | src/qtiles/qtilesdialog.py:789-791 | the tile built at `(x, y, z+1)` in the child loops has the loop's tile as parent and lies in its subtree |
| Tiles.ChildOfParent | src/qtiles/qtilesdialog.py:789-791 | every tile one zoom below `t` whose parent is `t` is one of the four children the loops build |
| Tiles.BelowInRange | src/qtiles/qtilesdialog.py:789-791 | a tile reached from an in-range tile by the child loops has coordinates within `0 .. 2^z - 1` |
| Tiles.AncestorCompose | src/qtiles/qtilesdialog.py:789-791 | taking ancestors composes, so the "lies in the subtree of" relation is transitive |
| Enumerator.Enumerate | src/qtiles/qtilesdialog.py:745-803 | the result is `None` exactly when the extent misses the tile, as at lines 770-771 |
| Enumerator.OwnTiles | src/qtiles/qtilesdialog.py:773-787 | the tile itself is listed when its zoom is in range and either outside tiles are rendered or some layer's extent hits it (first hit breaks the loop) |
| Enumerator.CountTiles | src/qtiles/qtilesdialog.py:745-803 | the loop over the four children, extending only with non-empty sub-results, returns exactly `Enumerate` |
| Enumerator.CollectedStep | src/qtiles/qtilesdialog.py:789-801 | one iteration of the nested child loops appends the child's flattened result to what was collected |
| Enumerator.AllCollected | src/qtiles/qtilesdialog.py:788-803 | a hit tile below the maximum zoom yields its own tiles followed by its four children's results |
| Enumerator.EnumerateMembers | src/qtiles/qtilesdialog.py:745-803 | a tile is listed iff it lies in the start tile's subtree, the extent hits every tile on the path to it, and it is included (both directions) |
| Enumerator.ListedTilesIncluded | src/qtiles/qtilesdialog.py:774-787 | every listed tile has its zoom within `[min_zoom, max_zoom]`; without "render outside tiles" some layer hits it |
| Enumerator.OutsideTilesAllListed | src/qtiles/qtilesdialog.py:786-787 | with "render outside tiles", every reachable tile in the zoom range is listed, whatever the layers |
| Enumerator.PrunedSubtreeNotListed | src/qtiles/qtilesdialog.py:770-771 | no tile in the subtree of a tile the extent misses is listed |
| Enumerator.ListedTilesInRange | src/qtiles/qtilesdialog.py:789-791 | from an in-range start tile every listed tile is in range and keeps the start's `tms` value |
| Enumerator.EnumerateNoDuplicates | src/qtiles/qtilesdialog.py:745-803 | no tile is listed twice |
| Enumerator.EnumeratePreOrder | src/qtiles/qtilesdialog.py:773-801 | a tile precedes all of its listed descendants (the parent is appended before the children are walked) |
| Enumerator.SaturatedSize | src/qtiles/qtilesdialog.py:745-803 | when every tile hits and outside tiles are rendered, the count from zoom `d` is `CountFrom(d)` |
| Enumerator.CountFromSum | src/qtiles/qtilesdialog.py:788-801 | `CountFrom(d) * 4^d` is the sum of `4^z` over the listed zoom levels |
| Enumerator.FullPyramid | src/qtiles/qtilesdialog.py:424-436 | from the root tile of a saturated request the walk lists `sum 4^z` tiles for `min_zoom <= z <= max_zoom`, without duplicates |
| Restrictions.IsOpenStreetMapLayer | src/qtiles/restrictions.py:40-56 | predicate: a WMS provider (case-insensitive) whose lower-cased host ends with `openstreetmap.org` or `osm.org` |
| Restrictions.OpenStreetMapCaseInsensitive | src/qtiles/restrictions.py:49-54 | the test ignores case: lower-casing a layer's provider type and host never changes whether it is an OpenStreetMap layer |
| Restrictions.RemoveFirstMultiset | src/qtiles/restrictions.py:81 | `list.remove` takes away exactly one occurrence of the layer |
| Restrictions.CheckAsWritten | src/qtiles/restrictions.py:58-121 | at or under 5000 tiles nothing changes and the message is empty; violated iff a message is produced; the "no layers remaining" paragraph appears iff violated and the list became empty |
| Restrictions.Check | src/qtiles/restrictions.py:58-121 | the loop that removes from the list it iterates over mutates the caller's list and returns it; its results equal `CheckAsWritten` |
| Restrictions.SweepConserves | src/qtiles/restrictions.py:77-81 | the loop only moves layers: remaining plus skipped is the input as a multiset, and everything skipped is OpenStreetMap |
| Restrictions.SweepKeepsOthers | src/qtiles/restrictions.py:77-81 | the loop keeps every copy of a non-OpenStreetMap layer |
| Restrictions.SweepCollectsIff | src/qtiles/restrictions.py:77-83 | something is skipped iff an OpenStreetMap layer lies at or after the loop's position |
| Restrictions.CheckViolatedIff | src/qtiles/restrictions.py:76-121 | violated iff over 5000 tiles and some layer is OpenStreetMap; when not violated the layers are returned unchanged |
| Restrictions.CheckSkipsOnlyOsm | src/qtiles/restrictions.py:76-119 | over the threshold the returned list and the skipped list partition the input; the returned list keeps every non-OpenStreetMap layer and the input's order |
| Restrictions.CheckDistinct | src/qtiles/restrictions.py:77-81 | on a list without repeats, the returned list is `SkipKept`: each removed OpenStreetMap layer's successor is kept unexamined; violated iff `SkipCollected` is non-empty |
| Restrictions.SkipHarmlessWithoutNeighbours | src/qtiles/restrictions.py:77-81 | when no two OpenStreetMap layers are adjacent, the as-written loop acts as a filter |
| Restrictions.AdjacentOsmSecondRemains | src/qtiles/restrictions.py:77-81 | of two adjacent OpenStreetMap layers the as-written check keeps the second; the corrected check keeps neither |
| Restrictions.AdjacentOsmExample | src/qtiles/restrictions.py:77-81 | a concrete pair of OpenStreetMap WMS layers for which the as-written check leaves one OpenStreetMap layer in the list |
| Restrictions.FilterOsm | src/qtiles/restrictions.py:77-81 | every element of the filtered list has the requested OpenStreetMap status |
| Restrictions.FilterOsmCounts | src/qtiles/restrictions.py:77-81 | the filter keeps every copy of each layer of the requested status |
| Restrictions.CheckCorrected | src/qtiles/restrictions.py:58-121 | the intended check: over the threshold no OpenStreetMap layer remains and every other layer keeps its multiplicity; same message rules as the source |
| Restrictions.FilterOsmEmpty | src/qtiles/restrictions.py:83 | nothing is skipped iff no layer is OpenStreetMap, and then the list is unchanged |
| Restrictions.CheckCorrectedViolatedIff | src/qtiles/restrictions.py:83-119 | the corrected check reports a violation exactly when the as-written check does |
| TilingThread.ModeOf | src/qtiles/tilingthread.py:150-158 | a directory gives DIR; else the lower-cased suffix `zip`, `ngrc`, `mbtiles` gives ZIP, NGM, MBTILES; any other suffix leaves the mode unset (each case an iff) |
| TilingThread.TmsConventionOf | src/qtiles/tilingthread.py:142-158 | the thread uses the TMS convention iff it was asked to or the mode is MBTILES |
| TilingThread.RootDirOf | src/qtiles/tilingthread.py:137-140 | a given root directory is kept; an empty one becomes `tileset_` followed by the clock's whole seconds in decimal |
| TilingThread.Setup | src/qtiles/tilingthread.py:226-249 | `run`'s setup opens the writer of the mode first and neither writes a tile nor finalizes |
| TilingThread.FirstStop | src/qtiles/tilingthread.py:269-277 | the loop's break index is between its start and the tile count and, when below the count, is a tile after which `stop` was seen |
| TilingThread.RenderedCount | src/qtiles/tilingthread.py:269-277 | the loop renders at most every tile and, when there are tiles, at least the first one |
| TilingThread.TilingThread.constructor | src/qtiles/tilingthread.py:80-160 | the thread's mode, TMS choice and root directory follow from the output path, and it starts with a clear stop flag, no interruption and no signals |
| TilingThread.TilingThread.Stop | src/qtiles/tilingthread.py:285-294 | sets the stop flag and nothing else |
| TilingThread.TilingThread.ConfirmContinue | src/qtiles/tilingthread.py:297-304 | releases the confirmation mutex and nothing else |
| TilingThread.TilingThread.ConfirmStop | src/qtiles/tilingthread.py:306-314 | marks the run interrupted and releases the confirmation mutex |
| TilingThread.TilingThread.RenderLoop | src/qtiles/tilingthread.py:269-277 | the loop renders and reports each tile in order and stops after the first tile at which the stop flag is seen, as `RenderAll` states; it returns how many tiles it rendered |
| TilingThread.TilingThread.SetupActions | src/qtiles/tilingthread.py:226-249 | builds the setup actions `Setup` describes |
| TilingThread.TilingThread.Run | src/qtiles/tilingthread.py:215-283 | the new state and the outcome are those of `RunSpec`, including each way `run` raises: the unset mode, `del` of a list already `None`, `len(None)`, and an NGM `finalize` with no tile |
| TilingThread.TilingThread.RunAfterSetup | src/qtiles/tilingthread.py:250-283 | everything after the writer is set up behaves as `AfterSetup`: an interrupted thread whose list is `None` raises on `del` with no signal; an NGM archive with no tile raises in `finalize`, after the writer call and before any terminal signal |
| TilingThread.ProgressIsUpdates | src/qtiles/tilingthread.py:271 | `k` rendered tiles emit exactly `k` progress signals |
| TilingThread.WriteTilesInOrder | src/qtiles/tilingthread.py:269-274 | the `j`-th writer call is for the `j`-th tile |
| TilingThread.RenderedUpToStop | src/qtiles/tilingthread.py:272-277 | a stop first seen after tile `i` means `i + 1` tiles were rendered |
| TilingThread.FirstStopIs | src/qtiles/tilingthread.py:269-277 | the loop breaks at the first tile whose check sees the stop flag |
| TilingThread.FinishingSignals | src/qtiles/tilingthread.py:269-283 | the loop and its ending add `k` progress signals and exactly one terminal signal, which comes last, and no threshold signal |
| TilingThread.GateStopped | src/qtiles/tilingthread.py:264-267 | interrupted at the gate, nothing is written and the signals end with `processInterrupted` |
| TilingThread.GatePassed | src/qtiles/tilingthread.py:269-283 | through the gate, the tiles up to the first stop are written, then the writer is finalized; then one terminal signal and a return, except that an NGM archive with no tile raises in `finalize` and emits none |
| TilingThread.RunIsSetupThenRest | src/qtiles/tilingthread.py:215-283 | `run` is its setup followed by the rest |
| TilingThread.RunOutcomes | src/qtiles/tilingthread.py:226-283 | an unset mode raises when `run` reads the missing `mode`; an interrupted thread whose list is already `None` raises on `del`; an interrupted thread with a list, or an uninterrupted one without, raises on `len(None)`; a held confirmation mutex deadlocks; an NGM run with no tile raises in `finalize`; otherwise `run` returns (every case an iff) |
| TilingThread.RunStoppedAtGate | src/qtiles/tilingthread.py:260-267 | over 10000 tiles with the user stopping, no tile is written, the writer is never finalized, there is no progress, and exactly one terminal signal, `processInterrupted`, comes last |
| TilingThread.RunPassedGateSignals | src/qtiles/tilingthread.py:250-283 | a run let through the gate emits one progress signal per rendered tile; the run is interrupted iff a stop came during the loop; exactly one terminal signal comes last, `processInterrupted` iff interrupted, except for an NGM run with no tile, which emits no terminal signal |
| TilingThread.RunPassedGateActions | src/qtiles/tilingthread.py:226-279 | a run let through the gate writes the rendered tiles in order after setup and finalizes the writer exactly once |
| TilingThread.StopBeforeRunIgnored | src/qtiles/tilingthread.py:223-225 | a `stop` before `run` starts has no effect, since `run` resets the flag |
| TilingThread.ContinueRendersAll | src/qtiles/tilingthread.py:260-283 | without a stop and with the user continuing, every tile is written in order and the writer finalized; the run returns with `processFinished` last, except that an NGM run with no tile raises in `finalize` |
| TilingThread.EmptyNgmRunRaises | src/qtiles/tilingthread.py:269-283 | an NGM run over an empty tile list writes no tile, calls `finalize`, raises there (`max` of no levels, src/qtiles/writers.py:200) and never emits a terminal signal |
| TilingThread.StopAtLastTile | src/qtiles/tilingthread.py:272-283 | a stop seen after the last tile still reports the run as interrupted although every tile was rendered |
| TilingThread.ThresholdIff | src/qtiles/tilingthread.py:260-262 | the threshold signal is emitted iff there are more than 10000 tiles |
| Writers.TilePathInjective | src/qtiles/writers.py:80-84 | distinct tile addresses give distinct `root/z/x/y.ext` paths |
| Writers.DirectoryWriter.constructor | src/qtiles/writers.py:56-64 | the writer records the output directory and root name and has written nothing |
| Writers.DirectoryWriter.WriteTile | src/qtiles/writers.py:66-85 | stores the encoded tile at `output/root/z/x/y.ext` and creates the `root/z/x` directory |
| Writers.DirectoryWriter.Finalize | src/qtiles/writers.py:87-91 | changes nothing |
| Writers.DirectoryWriteKeepsOthers | src/qtiles/writers.py:80-85 | writing one tile leaves the file of every other tile untouched |
| Writers.ZipWriter.constructor | src/qtiles/writers.py:102-119 | an open, empty archive with a temporary file not yet removed |
| Writers.ZipWriter.WriteTile | src/qtiles/writers.py:121-138 | appends one entry `root/z/x/y.ext` whose data is the image as last saved to the temporary file |
| Writers.ZipWriter.Finalize | src/qtiles/writers.py:140-149 | removes the temporary file and closes the archive, with the entries unchanged |
| Writers.Record | src/qtiles/writers.py:171-187 | recording a tile adds its zoom to the levels and leaves every other level as it was |
| Writers.SeqMin | src/qtiles/writers.py:200-201 | the minimum is an element and no element is smaller |
| Writers.SeqMax | src/qtiles/writers.py:200-201 | the maximum is an element and no element is larger |
| Writers.LevelJsonOf | src/qtiles/writers.py:218-227 | a level's bounding box is the min and max of its recorded columns and rows, each attained |
| Writers.LevelsJson | src/qtiles/writers.py:218-227 | one manifest entry per level, in the levels' insertion order |
| Writers.Manifest | src/qtiles/writers.py:189-227 | the manifest names the layer, carries the fixed renderer, `tms_type` 2, `type` 32 and visible, and its min and max levels bound every recorded level |
| Writers.NGMArchiveWriter.constructor | src/qtiles/writers.py:160-169 | a zip writer rooted at `Mapnik`, the layer name and no levels |
| Writers.NGMArchiveWriter.WriteTile | src/qtiles/writers.py:171-187 | writes the tile under `Mapnik`, leaving the encoded image as the temporary file's content, and records its column and row at its zoom, adding a new zoom at the end of the order |
| Writers.NGMArchiveWriter.LevelEntries | src/qtiles/writers.py:218-227 | the loop builds the manifest's level list |
| Writers.NGMArchiveWriter.Finalize | src/qtiles/writers.py:189-238 | with no tile written it fails before writing anything, leaving the archive open and its temporary file as it was; otherwise it adds `Mapnik.json` with the manifest, closes the archive and removes the temporary file without saving it again |
| Writers.RecordedLevels | src/qtiles/writers.py:171-187 | after a sequence of writes the levels are exactly the zooms written, each holding the columns and rows of its tiles in write order |
| Writers.ColumnsAbsent | src/qtiles/writers.py:171-187 | a zoom no tile was written at has no columns or rows |
| Writers.Lookup | src/qtiles/writers.py:286-317 | a metadata lookup finds a value iff some row has the name, and the value is that row's |
| Writers.MetadataKeysDistinct | src/qtiles/writers.py:286-317 | the eight metadata rows have distinct names |
| Writers.MetadataNameAndFormat | src/qtiles/writers.py:286-317 | the metadata reads back the layer name and the lower-cased format |
| Writers.MetadataZoomsReadBack | src/qtiles/writers.py:286-317 | the zoom range reads back from its decimal rows |
| Writers.FinalizeStepsCompressIff | src/qtiles/writers.py:341-362 | compression steps run iff compression was asked for, over the tile count; closing is the last step and happens once |
| Writers.MBTilesWriter.constructor | src/qtiles/writers.py:249-318 | connects, optimizes, sets up the tables, inserts the metadata rows and commits |
| Writers.MBTilesWriter.WriteTile | src/qtiles/writers.py:320-339 | inserts one tile row for `(z, x, y)` with the encoded image |
| Writers.MBTilesWriter.Finalize | src/qtiles/writers.py:341-362 | runs `FinalizeSteps` and leaves the tables unchanged |
| Strings.Lower | src/qtiles/restrictions.py:49-53 | lower-casing keeps the length and maps each character by ASCII case folding |
| Strings.DigitsRoundTrip | src/qtiles/tilingthread.py:140 | the decimal rendering of a number reads back as that number |
| Dialog.TmsConvention | src/qtiles/qtilesdialog.py:418-420 | the TMS convention holds iff the box is checked or the suffix is `mbtiles`, ignoring case |
| Dialog.AcceptAsWritten | src/qtiles/qtilesdialog.py:345-456 | rejects exactly when min zoom exceeds max zoom; reports no intersection exactly when the enumeration returns `None` |
| Dialog.AcceptAsWrittenNeverStarts | src/qtiles/qtilesdialog.py:453-456 | as written the dialog never starts a thread: the restriction object has no `validate_restriction` |
| Dialog.AcceptWithCheck | src/qtiles/qtilesdialog.py:345-503 | with the call repaired to `check`, a started run uses the enumerated tiles and the user is never asked |
| Dialog.RestrictWithCheck | src/qtiles/qtilesdialog.py:458-480 | with `check`'s result read as the source reads it, the run either aborts or starts with the given tiles and TMS choice |
| Dialog.Accept | src/qtiles/qtilesdialog.py:345-503 | the intended accept: the zoom and intersection rejections as iffs, never a missing method, and a started run uses the enumerated tiles and the form's TMS choice |
| Dialog.Restrict | src/qtiles/qtilesdialog.py:458-480 | the intended restriction step aborts, is declined or starts with the given tiles |
| Dialog.EmptyEnumerationStarts | src/qtiles/qtilesdialog.py:438-451 | an empty tile list is not `None`: the run starts with no tiles |
| Dialog.StartedTiles | src/qtiles/qtilesdialog.py:422-436 | every tile handed to the thread is in range, has the chosen row convention and a zoom in range, and without outside tiles some layer hits it |
| Dialog.StartedLayers | src/qtiles/qtilesdialog.py:451-503 | at or under 5000 tiles the thread gets every layer; over it, no OpenStreetMap layer and every other layer |
| Dialog.RemainingEmptyIff | src/qtiles/restrictions.py:99-108 | the corrected check leaves no layers iff every layer is OpenStreetMap |
| Dialog.RestrictAbortIff | src/qtiles/qtilesdialog.py:458-480 | the intended step aborts iff over the threshold with only OpenStreetMap layers; it is declined iff the user says no to a mixed list |
| Dialog.AbortIff | src/qtiles/qtilesdialog.py:458-480 | the same two iffs, for the whole accept path |
| Dialog.RestrictWithCheckAbortsIff | src/qtiles/qtilesdialog.py:458-466 | read as the source reads it, the run aborts iff any OpenStreetMap layer is present over the threshold, and a started run gets back the layers it passed in |
| Dialog.WithCheckAbortsMixedLayers | src/qtiles/qtilesdialog.py:458-480 | with a mixed list over the threshold the repaired dialog aborts, while the intended dialog starts with the non-OpenStreetMap layers |
| Dialog.UnderThresholdStartsWithAllLayers | src/qtiles/qtilesdialog.py:451-503 | at or under 5000 tiles both readings start with every layer and the enumerated tiles |
| Dialog.MbTilesForcesTms | src/qtiles/qtilesdialog.py:418-424 | an `mbtiles` output forces the TMS convention and the start tile's `tms` is -1 |
| Dialog.TmsChoicesAgree | src/qtiles/tilingthread.py:150-158 | the thread's own forcing of TMS for MBTILES agrees with the dialog's choice |

## Left out

- Tile geometry: `Tile.toRectangle`, `extent.intersects`, CRS transforms, the EPSG:4326 conversion and the latitude clamp at `atan(sinh(pi))`. This is floating-point code outside the core; the model takes the two intersection tests as predicates.
- Rendering: `render`, `QgsMapRendererCustomPainterJob`, image composition and encoding. An image is an opaque value, and a saved file is `Encoded(image, format, quality)`.
- The side files `writeJsonFile`, `writeOverviewFile`, `writeMapurlFile` and `writeLeafletViewer`. They appear only as setup actions, in the order `run` issues them.
- Concurrency is left out, for these reasons:
  - Mutexes are modelled as sequential state.
  - `QThread.wait` in `stop` (tilingthread.py:295) is left out, because blocking on another thread has no sequential meaning.
  - A gate that is never answered while the confirmation mutex is held is reported as the outcome `Deadlocked`.
  - The moment a `stop` arrives is the parameter `stops`, not an interleaving.
- The writers' exceptions are not modelled: failed saves, failed zip writes and SQLite errors.
  - The one exception the core reaches by its own logic is kept: NGM `finalize` with no tile, which is `Option.None` in the writer and the outcome `Raised(NoLevels)` of the thread's `run`.
- `mbutils` internals (`optimize_connection`, `compression_prepare` and the rest) are steps in a list, not database operations.
  - The tile table is a sequence of rows.
  - The MBTiles `bounds` string is a parameter, because it is built from floating-point extent coordinates.
- JSON serialization of the NGM manifest is left out; the manifest is a datatype. The temporary file the NGM manifest goes through is never removed by the source, and the model does not track it.
- Writers.NGMArchiveWriter.Finalize: the manifest's `levels` follow the order in which zooms were first written, as Python's dict order does. The JSON text is not modelled.
- `del self.tiles[:]` at tilingthread.py:253 empties the list the dialog also holds. An emptied list that becomes `None` is modelled, but the aliasing with the dialog is not.
- Strings.Lower: models `str.lower` on ASCII letters only. The layer providers, hosts and suffixes concerned are ASCII.
- The dialog's other checks and settings before line 345 are not part of this model:
  - the output path must not be empty (and the directory-not-empty question);
  - the saving of settings;
  - the choice of extent source.
- The restriction's message is modelled as a list of paragraphs (the skip notice, the skipped names, "no layers remaining", the zoom advice), not as translated HTML.
- Restrictions.IsOpenStreetMapLayer: the host comes from the layer's decoded `url` source parameter through `QUrl.host()`. The model carries that host as a field of the layer.

## Findings

| source | as written | input that shows it | evidently intended | confidence | as-written member | corrected member |
|---|---|---|---|---|---|---|
| src/qtiles/restrictions.py:77-81 | `layers.remove(layer)` inside `for layer in layers` skips the element after each removed one | two adjacent OpenStreetMap WMS layers and 5001 tiles: the second stays in the returned list | every OpenStreetMap layer is removed once the tile count exceeds 5000 | high, not executed | Restrictions.AdjacentOsmExample | Restrictions.CheckCorrected |
| src/qtiles/qtilesdialog.py:453-456 | calls `validate_restriction`, which `OpenStreetMapRestriction` does not define (its method is `check`) | any form with `min_zoom <= max_zoom` whose extent hits the root tile: an `AttributeError`, so no run starts | call `check(layers, tiles_count)` | high, not executed | Dialog.AcceptAsWrittenNeverStarts | Dialog.Accept |
| src/qtiles/qtilesdialog.py:454-480 | `check` returns the remaining layers, but the dialog names them `skipped_layers`, aborts when their count equals the input's, and keeps the layers not in them | 5001 tiles, one OpenStreetMap and one other layer: `check` has already removed the OpenStreetMap layer from the shared list, so the counts agree and the run aborts | abort only when no layer remains, otherwise ask and continue with the remaining layers | medium, not executed | Dialog.WithCheckAbortsMixedLayers | Dialog.AbortIff |
