# JARVIS-HybridNet reprojection core, in Dafny

This project models the integer and decision logic of JARVIS-HybridNet's
multi-camera reprojection layer and of the smaller pieces around it:

- **Reprojection layer** (`lib/vortex/modules/v2vnet/repro_layer_2.py`):
  - the R x R x R sampling grid, filled through Python's negative indexing;
  - recentering the grid with one broadcast add;
  - per camera, clamping, halving, truncating and flattening a projected pixel into a 640 x 512 heatmap index;
  - building the lookup table from `np.arange` axes and parallel x-slices written back by index;
  - the gather-and-mean over twelve cameras that produces the `[batch, keypoint, R, R, R]` volume.
- **Training entry points** (`jarvis/train_interface.py`):
  - classifying the weights argument;
  - the keypoint-weights loader;
  - finding the newest saved weights by modification time;
  - default epochs and log directories;
  - how `train_efficienttrack` and `train_hybridnet` end before training starts.
- **Project manager** (`lib/config/project_manager.py`):
  - the recursive `_update_values` overlay of a YAML tree with the configuration;
  - the save-path and log-path layout of `load` and `create_new`.
- **Drawing guards** (`jarvis/visualization/visualization_utils.py`):
  - when `draw_line` and `draw_point` draw, what they draw, and when the guard itself raises.

The camera matrix product is an uninterpreted function `Projection.Camera`.
Floats are exact reals, extended with NaN and the two infinities where the
source can produce them (`Floats.Float`). `int()` and `astype(int32)` truncate
toward zero (`Floats.Trunc`). Tensors are sequences, cubes are
`seq<seq<seq<T>>>`, and the file system is a value (`TrainInterface.FileSystem`).

Modules:

| module | what it models |
|---|---|
| `Wrappers` | `Option` and `Result` |
| `Floats` | floats with NaN and infinities; IEEE division, clamp, truncation, `np.sum` |
| `Paths` | POSIX `os.path.join` and `os.path.isabs` |
| `Geometry` | 3D points and dense cubes |
| `RealSums` | sums and means over the camera axis |
| `SamplingGrid` | the grid of the layer's `__init__` and the recentering |
| `Projection` | clamping and flattening of one camera's pixel, and the flattened heatmap |
| `Lookup` | `_create_lookup` and `parallel_repro` |
| `Reprojection` | `__init__`, `do_something`, `_get_heatmap_value` and `forward` |
| `KeySort` | the stable sort by modification time, the `reverse`, and the first match |
| `TrainInterface` | the decision logic of the training entry points |
| `ProjectManager` | `load` and `create_new` |
| `ConfigOverlay` | `_update_values` |
| `Visualization` | `draw_line` and `draw_point` |

Behaviours of `repro_layer_2.py` that the model keeps as written:

- **One centre.** Line 108 adds one `center` to the stored grid, and every batch item reads through that same recentred grid (lines 110-114). `Reprojection.Forward` therefore takes one centre (see "## Left out" for a per-item `[B, 3]` centre).
- **World z in the divide.** Lines 88-89 divide the projected coordinates by the grid point's world z coordinate, not by the camera-space depth of the projection. So does `Projection.PixelX`. Scaling a camera matrix therefore moves the pixel, as `Projection.WorldDepthDivideNotProjective` shows on a concrete camera.
- **Truncated loop bounds.** Lines 40-42 loop from `int(-R/2)` to `int(R/2)`, truncated toward zero. For an odd R, slot R/2 of every axis is never written and keeps its zero (`SamplingGrid.OddGridLeavesSlot`).
- **NaN passes the clamp.** At lines 88-89, a zero world z with a zero numerator gives 0/0 = NaN, and `torch.clamp` keeps NaN. The index of line 90 is then undefined, which `Projection.PixelIndex` returns as `None` and `Reprojection.Forward` as `BadPixelIndex`.
- **Plain mean over twelve cameras.** Line 100 averages over exactly twelve cameras, a number hard-coded at lines 80 and 85. A camera whose projection was clamped to the frame edge counts like any other.

## Model

| member | source | states |
|---|---|---|
| Floats.Quot | lib/vortex/modules/v2vnet/repro_layer_2.py:88-89 | IEEE division of the projected coordinate by world z: NaN exactly for 0/0, +inf or -inf exactly for a zero divisor with a positive or negative numerator, and otherwise a finite value |
| Floats.QuotExact | lib/vortex/modules/v2vnet/repro_layer_2.py:88-89 | for a non-zero divisor the quotient is exactly the finite q with q * den = num, and no other value |
| Floats.Clamp | lib/vortex/modules/v2vnet/repro_layer_2.py:88-89 | `torch.clamp`: NaN stays NaN; anything else becomes finite within [lo, hi]; values inside pass unchanged; +inf and larger values go to hi; -inf and smaller values go to lo |
| Floats.Trunc | lib/vortex/modules/v2vnet/repro_layer_2.py:90 | `.int()` truncates toward zero: it is the floor for non-negative reals and lies within 1 above a negative one |
| Floats.SumIsNaN | jarvis/visualization/visualization_utils.py:11-12 | `np.isnan(np.sum(points))` holds exactly when some coordinate is NaN or both infinities occur; the sum is +inf or -inf exactly when only that infinity occurs |
| Projection.PixelIndex | lib/vortex/modules/v2vnet/repro_layer_2.py:88-90 | the index is undefined exactly when world z is 0 and a numerator is 0; otherwise it lies in [0, 640*512) and equals floor(y/2)*640 + floor(x/2) of the clamped finite pixel |
| Projection.ClampedPixelInFrame | lib/vortex/modules/v2vnet/repro_layer_2.py:88-89 | whatever the camera returns, a non-NaN clamped pixel is finite, with x in [0, 1279] and y in [0, 1023] |
| Projection.PixelIndexRoundTrip | lib/vortex/modules/v2vnet/repro_layer_2.py:90 | the flattened index divided by 640 gives back heatmap row floor(y/2) < 512, and its remainder gives column floor(x/2) < 640 |
| Projection.FlattenRowsIndex | lib/vortex/modules/v2vnet/repro_layer_2.py:96 | `flatten(2)` of rows of equal width puts row r, column c at position r*width + c |
| Projection.GatherReadsHeatmapCell | lib/vortex/modules/v2vnet/repro_layer_2.py:96-100 | gathering a flattened 512 x 640 heatmap at a point's index reads the heatmap cell at row floor(y/2), column floor(x/2) |
| Projection.PixelIndexIgnoresDepth | lib/vortex/modules/v2vnet/repro_layer_2.py:88-89 | two cameras that agree on the first two projected coordinates give the same index, however their camera-space depths differ |
| Projection.PinholeScaleInvariant | lib/vortex/modules/v2vnet/repro_layer_2.py:86-89 | a reference divide by camera-space depth gives the same index when the camera matrix is scaled by any positive factor |
| Projection.WorldDepthDivideNotProjective | lib/vortex/modules/v2vnet/repro_layer_2.py:88-89 | the identity camera and its double send (100, 100, 1) to heatmap cells 50*640+50 and 100*640+100, while the pinhole reference sends both to one cell |
| SamplingGrid.GridSize | lib/vortex/modules/v2vnet/repro_layer_2.py:29 | `int(cube_size/spacing)` fails exactly for a zero spacing or a quotient at or below -1; otherwise R lies within 1 of the quotient, and not above it when the quotient is non-negative |
| SamplingGrid.LoopBoundsTruncate | lib/vortex/modules/v2vnet/repro_layer_2.py:40-42 | the loop runs from `int(-R/2)` to `int(R/2)`, both truncated toward zero |
| SamplingGrid.WrapPre | lib/vortex/modules/v2vnet/repro_layer_2.py:40-43 | a loop index lands, through negative indexing, in a slot in [0, R), and in slot n exactly when it is the one index belonging to n |
| SamplingGrid.WriteICells | lib/vortex/modules/v2vnet/repro_layer_2.py:40-43 | once the outer loop has run from i on, a cell whose three slots were all hit holds its three loop indices, and every other cell is unchanged |
| SamplingGrid.LayoutCells | lib/vortex/modules/v2vnet/repro_layer_2.py:39-43 | after the triple loop, each cell holds its loop indices if all three of its slots were written, and the zero vector otherwise |
| SamplingGrid.AxisSlotWrittenOnce | lib/vortex/modules/v2vnet/repro_layer_2.py:40-43 | for an even R, each storage slot n along an axis is written by exactly one loop index: n below R/2, and n - R from R/2 on |
| SamplingGrid.Grid | lib/vortex/modules/v2vnet/repro_layer_2.py:45 | each stored offset is the looped cell scaled by the grid spacing |
| SamplingGrid.EvenGridLayout | lib/vortex/modules/v2vnet/repro_layer_2.py:39-45 | for an even R, cell (a, b, c) holds spacing * (a', b', c'), where n' is n below R/2 and n - R from R/2 on |
| SamplingGrid.OddGridLeavesSlot | lib/vortex/modules/v2vnet/repro_layer_2.py:40-43 | for an odd R, no loop index reaches slot R/2, so every cell with that slot on any axis keeps the zero vector |
| SamplingGrid.Recenter | lib/vortex/modules/v2vnet/repro_layer_2.py:108 | `grid + center` keeps the cube's shape, and subtracting the centre from any cell gives back the stored offset |
| SamplingGrid.RecenterTranslates | lib/vortex/modules/v2vnet/repro_layer_2.py:108 | recentering is a pure translation: (grid + c2) - (grid + c1) = c2 - c1 at every cell |
| Lookup.ArangeLenExact | lib/vortex/modules/v2vnet/repro_layer_2.py:57-59 | the axis length `ceil((stop - start)/step)` (zero if negative) counts exactly the progression values strictly before stop, for a positive or a negative step |
| Lookup.Arange | lib/vortex/modules/v2vnet/repro_layer_2.py:57-59 | `np.arange` fails exactly for a zero step; otherwise slot i holds start + i*step, consecutive slots differ by the step, every value lies strictly before stop, and the next one would not |
| Lookup.LookupCell | lib/vortex/modules/v2vnet/repro_layer_2.py:64-69 | one entry per camera; for non-negative pixels the entry is floor(py/2)*int(width/2) + floor(px/2) |
| Lookup.LookupAgreesWithLayer | lib/vortex/modules/v2vnet/repro_layer_2.py:64-69 | for a 1280-wide frame, a table entry for the layer's clamped pixel equals the index `do_something` computes for the same point (line 90) |
| Lookup.ParallelRepro | lib/vortex/modules/v2vnet/repro_layer_2.py:62-70 | `parallel_repro(i)` returns i together with the \|y\| x \|z\| slice whose cell [j][k] is the lookup cell of lattice point (x[i], y[j], z[k]) |
| Lookup.AssembleFromJobs | lib/vortex/modules/v2vnet/repro_layer_2.py:73-74 | writing back any results drawn from the jobs puts job i's slice at every index some result names and leaves the other slots as they were |
| Lookup.AssembleOrderIndependent | lib/vortex/modules/v2vnet/repro_layer_2.py:72-74 | whatever order the workers return the slices in, writing them back by index puts slice i at index i |
| Lookup.CreateLookup | lib/vortex/modules/v2vnet/repro_layer_2.py:56-76 | for a tool that returns one pixel per camera, fails exactly for a zero spacing; otherwise the table has the three arange lengths as dimensions, and entry [i][j][k] is the lookup cell of world point (x0 + i*s, y0 + j*s, z0 + k*s) |
| Lookup.LookupShape | lib/vortex/modules/v2vnet/repro_layer_2.py:60-69 | the table has the shape line 60 allocates, [len(x), len(y), len(z), num_cameras]: each row line 69 stores fills a whole camera row |
| Lookup.LookupOrderIndependent | lib/vortex/modules/v2vnet/repro_layer_2.py:72-74 | every permutation of the parallel results names valid slots, and assembling it gives exactly the table `_create_lookup` returns |
| Reprojection.NewLayer | lib/vortex/modules/v2vnet/repro_layer_2.py:29-45 | construction fails exactly when `int(cube_size/spacing)` does; the layer keeps the cameras and spacing, has size R, and for an even R stores the centred lattice in wrap-around order, scaled by the spacing |
| Reprojection.IndexCube | lib/vortex/modules/v2vnet/repro_layer_2.py:86-90 | one camera's index cube holds, at each cell, the pixel index of that cell's grid point |
| Reprojection.DoSomething | lib/vortex/modules/v2vnet/repro_layer_2.py:79-91 | fails exactly when there are fewer than twelve cameras; otherwise it returns twelve cubes, cube c holding camera c's indices |
| Reprojection.KeypointCube | lib/vortex/modules/v2vnet/repro_layer_2.py:100 | one keypoint's cube holds, at each cell, the mean of the twelve cameras' readings at that cell's indices |
| Reprojection.Volume | lib/vortex/modules/v2vnet/repro_layer_2.py:109-114 | the volume has shape [batch][keypoints], and each entry is that batch item's keypoint cube |
| Reprojection.Forward | lib/vortex/modules/v2vnet/repro_layer_2.py:105-116 | succeeds exactly for an empty batch, for an empty grid with at least twelve cameras, for no keypoints with exactly twelve cameras and non-empty heatmap camera and pixel axes, or with exactly twelve cameras, heatmaps for at least twelve cameras and readable indices; too few and too many cameras and missing heatmap cameras each get their own error; on success the volume has shape [batch][keypoints][R][R][R], and with readable indices on a non-empty batch it is the volume of camera means |
| Reprojection.NoKeypointsForward | lib/vortex/modules/v2vnet/repro_layer_2.py:96-100 | with no keypoints the gather of line 100 reads nothing, so with twelve cameras and non-empty camera and pixel axes forward returns an empty entry per batch item, however few heatmap cameras there are and whatever the pixel indices |
| Reprojection.EmptyAxisRaises | lib/vortex/modules/v2vnet/repro_layer_2.py:100 | an empty heatmap camera or pixel axis is still indexed with no keypoints, so on a non-empty batch and grid forward fails: missing heatmap cameras, or else an unreadable index |
| Reprojection.EmptyGridForward | lib/vortex/modules/v2vnet/repro_layer_2.py:34-37 | with R = 0 the gather indexes nothing, so with at least twelve cameras forward returns an empty cube per batch item and keypoint, whatever the extra cameras and the heatmaps |
| Reprojection.IndexVolumeCells | lib/vortex/modules/v2vnet/repro_layer_2.py:86-90 | camera c's entry for cell (a, b, d) is the pixel index of that cell's stored offset plus the centre, and a defined entry lies inside the 640 x 512 heatmap |
| Reprojection.SamplesArePixelReads | lib/vortex/modules/v2vnet/repro_layer_2.py:98-100 | the twelve readings gathered through the index volume are each camera's heatmap value at the projection of the cell's world point |
| Reprojection.ForwardCell | lib/vortex/modules/v2vnet/repro_layer_2.py:98-114 | with twelve cameras and readable indices, forward succeeds, and volume cell [batch][kp][a][b][d] is the mean over the twelve cameras of each camera's heatmap at the projection of that cell's world point |
| Reprojection.FullHeatmapsReadable | lib/vortex/modules/v2vnet/repro_layer_2.py:90-100 | with heatmaps of at least 640 x 512 pixels, the indices are readable exactly when none of them is undefined |
| Reprojection.ForwardBounds | lib/vortex/modules/v2vnet/repro_layer_2.py:100 | heatmap values within [lo, hi] give volume values within [lo, hi] |
| Reprojection.CameraOrderIrrelevant | lib/vortex/modules/v2vnet/repro_layer_2.py:100 | exchanging two cameras in the layer together with the matching heatmap cameras leaves the forward result, success or error, unchanged |
| RealSums.SumPermutation | lib/vortex/modules/v2vnet/repro_layer_2.py:100 | the sum over cameras depends only on the multiset of values, not on their order |
| RealSums.MeanBounds | lib/vortex/modules/v2vnet/repro_layer_2.py:100 | the mean of values within [lo, hi] lies within [lo, hi] |
| RealSums.MeanSwap | lib/vortex/modules/v2vnet/repro_layer_2.py:100 | exchanging two entries leaves the mean unchanged |
| KeySort.Sort | jarvis/train_interface.py:43 | `dirs.sort(key=getmtime)` yields a permutation ordered by time, with ties kept in listing order as a stable sort leaves them |
| KeySort.Reverse | jarvis/train_interface.py:44 | `dirs.reverse()` puts entry \|s\|-1-i at position i, and back |
| KeySort.FirstMatch | jarvis/train_interface.py:45-49 | the loop finds nothing exactly when no entry matches; otherwise it finds a matching entry with no match before it |
| KeySort.NewestMatch | jarvis/train_interface.py:43-49 | sort, reverse, first match: nothing exactly when no entry matches, otherwise a matching entry that every other matching entry precedes in (time, listing position) order |
| Paths.JoinKeeps | jarvis/train_interface.py:39-40 | `os.path.join` with an absolute right part returns that part; with a relative one the result starts with the left part and ends with the right part |
| Paths.JoinAssoc | lib/config/project_manager.py:46 | `os.path.join` is associative, so joining components in one call or in stages gives the same path |
| TrainInterface.ClassifyEfficientTrack | jarvis/train_interface.py:86-100 | the dispatch in precedence order: "latest" is Latest; None and "None" load nothing; "ecoset" and "EcoSet" are EcoSet; the five pose names are pose pretraining; everything else is a path, kept verbatim |
| TrainInterface.SpellingRoundTrip | jarvis/train_interface.py:86-100 | every source the dispatch can reach is reached by its canonical spelling, and every argument classifies to such a source, which spells it back up to the two aliases |
| TrainInterface.ClassifyHybrid | jarvis/train_interface.py:150-177 | `train_hybridnet` treats only "latest" and None/"None" specially; every other string is a path |
| TrainInterface.HybridReadsMoreAsPaths | jarvis/train_interface.py:150-177 | what `train_efficienttrack` reads as a path, `train_hybridnet` reads as the same path; the ecoset and pose names are paths only to `train_hybridnet` |
| TrainInterface.Candidates | jarvis/train_interface.py:41-43 | each listed directory is joined onto the search path and carries its listing position and its modification time |
| TrainInterface.NewestWithWeights | jarvis/train_interface.py:45-50 | a returned weights path names an existing file |
| TrainInterface.LatestWeights | jarvis/train_interface.py:38-50 | it raises exactly when `parent/projects/<project>/models/<mode>` is not a directory; any path it returns is an existing file |
| TrainInterface.NewestWithWeightsNone | jarvis/train_interface.py:43-50 | None comes back exactly when no listed directory holds the final-weights file |
| TrainInterface.NewestWithWeightsSome | jarvis/train_interface.py:43-50 | a returned path is the final-weights file of a listed directory holding one, and every other such directory precedes it in (time, listing position) order |
| TrainInterface.LatestIsNewest | jarvis/train_interface.py:38-50 | the result is the final-weights file of the most recently modified run directory that has one, with ties going to the later-listed one; it is None exactly when no directory has one |
| TrainInterface.LatestKeypointWeightsLoad | jarvis/train_interface.py:150-158 | whatever the search for the latest keypoint weights returns, loading it succeeds |
| TrainInterface.LogDirIsOneJoin | jarvis/train_interface.py:69-73 | both branches compute `join(parent, root, project, 'logs', mode)`, because an absolute project name discards parent and root |
| TrainInterface.LogDirEndsWithMode | jarvis/train_interface.py:69-73 | for a relative mode, the log directory ends in `logs/<mode>` in either branch |
| TrainInterface.LogDirUnderParent | jarvis/train_interface.py:69-73 | with a relative root, project name and mode, the logs lie under the parent directory; an absolute project name puts them under that name |
| TrainInterface.TrainEfficientTrack | jarvis/train_interface.py:65-104 | returns None exactly when the project does not load; a run that trains uses the default-epoch rule and the log directory rule |
| TrainInterface.NoTrainingWithoutWeights | jarvis/train_interface.py:101-104 | training starts exactly when the project loads and the requested weights load; otherwise, with a loaded project, the call returns False first; asking for no weights always trains; a pose name trains exactly when its pretraining loads |
| TrainInterface.KeypointLoadPath | jarvis/train_interface.py:150-162 | nothing is loaded exactly for None/"None"; an explicit keypoint path hands over the HybridNet `weights` argument instead |
| TrainInterface.TrainHybridNet | jarvis/train_interface.py:130-181 | returns early exactly when the project does not load; a run that trains uses the explicit or configured HybridNet epochs and `<...>/logs/HybridNet`, and has found its HybridNet weights |
| TrainInterface.KeypointPathIgnored | jarvis/train_interface.py:161-162 | any two explicit keypoint paths give the same run; the keypoint network receives the HybridNet `weights` argument; with a loaded project, the keypoint step fails exactly when that argument is a string that names no existing file |
| TrainInterface.LatestKeypointNeverMissing | jarvis/train_interface.py:150-158 | asking for the latest keypoint weights never reports them missing; the run raises exactly when the KeypointDetect model directory does not exist |
| ProjectManager.LoadSavePaths | lib/config/project_manager.py:45-48 | `load` records a save path for exactly the three modules, each ending in `models/<module>` |
| ProjectManager.ModuleDirs | lib/config/project_manager.py:81-84 | `create_new` records a save path and a log path for exactly the three modules, and `load` records the same log paths (line 47) |
| ProjectManager.ModuleDirsEndWith | lib/config/project_manager.py:81-84 | each save path `create_new` records ends in `models/<module>` and each log path in `logs/<module>`, whatever the projects root and project name |
| ProjectManager.Load | lib/config/project_manager.py:28-50 | the handle is cleared exactly when `config.yaml` is missing under the pre-merge root; the global config takes the project name even then; a loaded handle is the global config, with save and log paths for the three modules |
| ProjectManager.CreateNew | lib/config/project_manager.py:69-87 | the names and datasets are recorded; the save and log paths are exactly `ModuleDirs` of the projects root and name for `models` and `logs`, one per module; the project directory is created first, then both directories of every module |
| ProjectManager.LoadExtendsCreate | lib/config/project_manager.py:45-49 | a loaded project's save path is the save path `create_new` records, joined onto the parent directory |
| ProjectManager.LogPathsIgnoreParent | lib/config/project_manager.py:45-49 | managers in different directories record the same log paths, the ones `create_new` records, while each save path is joined onto the manager's own directory |
| ProjectManager.SavePathsUnderParent | lib/config/project_manager.py:45-48 | with a relative root and project name, every save path `load` records lies under the parent directory |
| ConfigOverlay.Find | lib/config/project_manager.py:175 | `cfg[k]` finds nothing exactly when no entry has key k; otherwise it finds the value of an entry with that key |
| ConfigOverlay.UpdateEntrySound | lib/config/project_manager.py:170-178 | one step succeeds exactly when every section below it has a matching section in cfg; it then produces the intended child: a leaf takes cfg's value or keeps its own; a section becomes its overlay |
| ConfigOverlay.UpdateFromSound | lib/config/project_manager.py:170-178 | the loop from position i on succeeds exactly when every remaining child is covered, and then returns those children, keys in order, each overlaid |
| ConfigOverlay.UpdateValuesSound | lib/config/project_manager.py:169-178 | `_update_values` succeeds exactly when every nested section has a counterpart in cfg, and then yields the same keys in order: leaves present in cfg take cfg's value, missing leaves keep theirs, sections are overlaid recursively |
| ConfigOverlay.MissingSectionAborts | lib/config/project_manager.py:171-172 | a nested section with no counterpart in cfg aborts the whole overlay |
| ConfigOverlay.UpdateKeepsShape | lib/config/project_manager.py:170-172 | a successful overlay adds and removes no keys, and every nested section stays a section of the same shape |
| ConfigOverlay.SelfUpdate | lib/config/project_manager.py:169-178 | overlaying a well-formed tree with itself changes nothing |
| ConfigOverlay.UpdateIdempotent | lib/config/project_manager.py:169-178 | overlaying twice with the same configuration gives the same result as overlaying once |
| Visualization.PyIndex | jarvis/visualization/visualization_utils.py:13 | `points2D[idx]` exists exactly for -n <= idx < n, and a negative index counts from the end |
| Visualization.Chain | jarvis/visualization/visualization_utils.py:13-20 | the short-circuit `and` is true exactly when every comparison evaluates to true |
| Visualization.ChainInside | jarvis/visualization/visualization_utils.py:13-20 | the eight comparisons all pass exactly when both endpoints exist and their truncated coordinates lie strictly between 0 and size-1 |
| Visualization.DrawLine | jarvis/visualization/visualization_utils.py:10-24 | a drawn line has both endpoints strictly inside the image |
| Visualization.DrawLineIff | jarvis/visualization/visualization_utils.py:10-24 | a line is drawn exactly when the points' sum is not NaN and both truncated endpoints are strictly inside; it joins those truncated endpoints with thickness 1 |
| Visualization.NaNSuppressesLine | jarvis/visualization/visualization_utils.py:11-13 | a NaN anywhere among the points suppresses the line, even on a point the line does not use, and so do +inf and -inf together |
| Visualization.LineRaisesOnlyOnBadEndpoint | jarvis/visualization/visualization_utils.py:13-20 | the guard raises only for an endpoint that is not inside (a bad skeleton index or an infinite coordinate), and never with ValueError |
| Visualization.ThicknessMonotone | jarvis/visualization/visualization_utils.py:33-35 | a more confident keypoint is never drawn thinner: -inf gets 1, +inf gets 3, and NaN, which compares false, gets 3 like full confidence |
| Visualization.DrawPoint | jarvis/visualization/visualization_utils.py:27-37 | a drawn point is a circle of radius 3 with the confidence's thickness |
| Visualization.DrawPointIff | jarvis/visualization/visualization_utils.py:28-37 | a point is drawn exactly when the sum is not NaN and both raw coordinates lie strictly between 0 and size-1, as a circle at their truncations; any NaN suppresses it |
| Visualization.PointAndLineDisagreeAtBorder | jarvis/visualization/visualization_utils.py:13-32 | at x = 0.5, a keypoint is drawn at column 0 while a line ending there is skipped: the line guard compares truncated coordinates, the point guard raw ones |

## Left out

- Floating-point rounding: coordinates, divisions and means are exact reals. Only NaN and the infinities are modelled, where the source can produce them. The literal 0.6 is modelled as the double nearest to it.
- The camera matrix product of lines 86-87 is an uninterpreted function. `ReprojectionTool`, `reprojectPoint` and calibration loading are not part of this model, so the lookup builder takes the tool as a parameter.
- The order of camera matrices (lines 47-51) depends on a dictionary that is not part of this model. The layer takes its camera list as given.
- The lookup cache (lines 17-24 and 75): `np.save`, `np.load`, `permute` and the `offset` buffer. Also `center_indices` (line 107), which forward computes but never uses. Forward never reads the lookup table, so the model keeps the two paths separate and relates them in `Lookup.LookupAgreesWithLayer`.
- joblib's `Parallel`: the model takes the returned results as any permutation of the jobs.
- CUDA placement, `torch.cuda.Event` timing, `print`, and the `meshgrid` buffers; the gather indexes with the meshgrid implicitly.
- Heatmaps are a function from (batch, camera, keypoint, pixel) to a value, with declared sizes, rather than a tensor.
- Reprojection.Forward: takes one centre, as for a `center` of shape `[3]` or `[1, 3]`. For a per-item centre of shape `[B, 3]`, line 108 broadcasts against the grid's third axis. It raises unless B is 1 or R, and for B = R it adds centre k to every cell whose third index is k. That broadcast is not modelled.
- Reprojection.Forward: an undefined index (a NaN cast to int) and an index past the heatmap's pixel count are one error, `BadPixelIndex`. PyTorch's result for a NaN cast is platform dependent.
- Lookup.LookupCell: the contract states the floor form only for non-negative pixel coordinates. For negative ones the model truncates toward zero as `astype(np.int32)` does, but the contract leaves this unstated. The int32 wrap-around of very large entries is not modelled.
- Lookup.CreateLookup: requires the reprojection tool to return one pixel per camera for every point (`Lookup.ValidTool`). The tool is not part of this model, and line 69 relies on that promise to fill a row of `num_cameras` entries.
- SamplingGrid.EvenGridLayout: for an odd R the cells are described only by `SamplingGrid.OddGridLeavesSlot`, the slot R/2 that is never written, and not cell by cell.
- ProjectManager.ModuleDirs: its contract states only the key set; `ProjectManager.ModuleDirsEndWith` states how each path ends.
- ProjectManager.LoadSavePaths: its contract states the key set and how each path ends. How the paths begin is stated by `ProjectManager.LoadExtendsCreate`, `ProjectManager.LogPathsIgnoreParent` and `ProjectManager.SavePathsUnderParent`.
- TrainInterface.NewestWithWeights: its own contract states only that a result exists as a file. Newest-first selection is stated by `TrainInterface.NewestWithWeightsNone` and `TrainInterface.NewestWithWeightsSome`.
- `train_interface.py` imports `jarvis.config.project_manager`, which is not part of this model. Whether `project.load` succeeds is therefore a parameter: the loaded configuration, or `None`.
- Modification times are integers. `os.listdir` order is taken as given by the file-system value.
- TensorBoard, streamlit, datasets, model construction, `torch.load`, `set_training_mode` and the training calls themselves. The model stops where training would start.
- The finetune learning-rate division (lines 186-188 of `train_interface.py`), which is float arithmetic on a value the model does not carry.
- In `project_manager.py`:
  - YAML reading and writing, the `shutil` template copy, and the `merge_from_file` merge (a parameter of `ProjectManager.Load`).
  - `os.makedirs`, recorded as a list of paths.
  - `get_cfg`, which only prints.
  - The interactive `_init_dataset2D`, `_init_dataset3D` and `_init_config` flows.
- ConfigOverlay: a configuration value is either a section or a leaf. The `except` branch's `print` is not modelled. Indexing into a leaf of `cfg` finds nothing: the source's `TypeError` is caught for a leaf child of the YAML and aborts the overlay for a section child, which the model reports as `MissingSection`.
- `cv2.line` and `cv2.circle` are replaced by the drawing command they would receive. The image and colour arguments are not modelled.
