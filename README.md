# Verified model of the 3Ps rapid ecosystem-service assessment scripts

This project models the discrete logic in the data-preparation scripts of
the 3Ps rapid ecosystem-service assessments repository, and proves
properties of that model in Dafny. Five components are covered:

- **DEM hydrological preprocessing task graphs.** Three revisions of
  `preprocess_dem` are modelled: `scripts/General/preprocess-dem.py`,
  `scripts/preprocess-dem.py` and `scripts/dem-preprocessing.py`. Each
  revision does the following:
  - it parses the `start:stop:step` threshold-flow-accumulation (TFA)
    range, the `"X,Y"` pixel size, the EPSG code and the case-insensitive
    D8/MFD routing choice;
  - it declares a chain of tasks on a `taskgraph` graph: VRT, warp,
    fill pits, flow direction, flow accumulation;
  - it then adds one stream-extraction task per threshold, and finally
    closes and joins the graph.

  The `taskgraph.TaskGraph` object is the class `TaskGraph.Graph`. Its
  `AddTask` records a declaration: the name, the routine (an opaque tag),
  the arguments, the target rasters and the handles of the tasks it
  depends on. Each revision is modelled twice:
  - a `Run` function gives the declared tasks, how the run ends and
    whether the graph was closed;
  - a `PreprocessDem` method builds the same declarations on a `Graph`
    object, step by step, as the script does.

  Every exception the scripts raise, from `main` of the scripted revision
  to the end of `preprocess_dem`, is an error value. The error also fixes
  the point at which it fires, given by the tasks already declared. The
  one exit before that is `click`'s usage error in the two command-line
  revisions, listed under "## Left out".
  The shared part of the three revisions lives in module `DemChain`:
  pit filling, routing dispatch, flow direction and accumulation, and the
  stream fan-out.
- **Land-cover transition coding** (`lulc_transition_matrix` in
  `scripts/landcover-transition/lulc-transition.py`). The model follows
  the block-by-block and pixel-by-pixel state. This state is:
  - the nested count dictionary `transition_map`;
  - the sets of from- and to-values seen;
  - the transition-code table and the class-key legend;
  - the next code and the pixel counter.

  Within each block, in place on arrays, the model codes every pixel, then
  applies the nodata mask and writes the block. At the end it produces the
  transition-matrix CSV and the raster-table CSV as tables of cells.
- **Link et al. (2020) scatter and index logic**
  (`scripts/link-et-al-2020-to-gtiff.py`). This covers:
  - `run`'s scatter-add of positive volumes into a nodata-filled
    `array2`;
  - the two id converters;
  - the AOI pixel loop.
- **Daily NetCDF to monthly GeoTIFF conversion.** There are two revisions:
  - `scripts/armenia-esm-netcdf-conversion/convert-daily-esm-netcdf-to-monthly-gtiff.py`
    (module `EsmMonthly`);
  - `scripts/convert-daily-esm-netcdf-to-monthly-gtiff.py` (module
    `EsmMonthlyLegacy`).

  The model covers parsing the first date from `time#units`, Gregorian
  month lengths, the mapping from a date to a band index, and the
  day/year/month accumulation loops over `array2<real>`. It also covers
  the rain-event counter, the output file names and the command-line
  parsing. The NetCDF file is a value: its metadata items, its raster size
  and its bands, each band with its pixels and its nodata value, which
  may be absent.

  The older revision adds each month's total after the year loop (line
  56), so only the last year counts. `MonthAsWritten` models that loop as
  written. The rest of `EsmMonthlyLegacy` models the revision with line 56
  corrected (see Findings). The correction changes only the pixel values,
  not the exceptions or which months are written.
- **ISRIC SoilGrids URL, checksum and path logic**
  (`scripts/soils/procure-isric-soils.py`). This covers:
  - the VRT checksum rows;
  - rewriting the `SourceFilename` entries into tile URLs;
  - the ordered de-duplication of the checksum listings;
  - the filename-to-hash lookup and the tile rows;
  - in `main`, soil-type expansion, the tile-CSV paths and the on-disk
    layout of the downloads.

The Python semantics these scripts rely on are modelled once, in shared
modules:
- `Strings`: the string functions `str.split(sep)`, `str.split()`,
  `str.splitlines()`, `str.lower()`, `int()` on strings, and decimal and
  `:02d` formatting;
- `Paths`: `os.path.join`, `basename`, `dirname` and `splitext` for POSIX
  paths;
- `Ranges`: `range`;
- `Calendar`: proleptic Gregorian dates as in `datetime.date`, with
  `timedelta` day arithmetic;
- `Wrappers`: `Option` and `Result`.

Where the documented design of the scripts and the code disagree, the
model follows the code:
- Task names are not unique: the accumulation task reuses the name
  'Flow direction'. `add_task` does not refuse a repeated name.
- The MFD stream task receives the flow-direction raster as an argument.
  It does not depend on the flow-direction task: its only dependency is
  flow accumulation.
- An unknown routing method raises only after the VRT (where it is a
  task), warp and fill-pits tasks were declared. The error does not come
  before any task is scheduled.
- Whether the TFA range includes `stop` differs between revisions:
  - the General revision includes it (`int(tfa_stop)+1`);
  - the two others exclude it.

  So `1000:5000:1000` gives five stream tasks in the General revision
  and four in the others.
- A dependency can only name a task already declared, because
  `add_task` receives task objects. Cycles therefore cannot arise, which
  `TaskGraph.DependsOnEarlier` states. The model has no cycle error.

The rows below are stated over specification functions that define what
each script computes. They have no rows of their own because they carry
no contract beyond their definition:
- `IsricSoils.RemoteRasterUrls`: scripts/soils/procure-isric-soils.py:38-90;
- `IsricSoils.SoilTypes`: scripts/soils/procure-isric-soils.py:205-230;
- `IsricSoils.OutputPath`: scripts/soils/procure-isric-soils.py:278-289;
- `IsricSoils.Procure`: scripts/soils/procure-isric-soils.py:202-311;
- `EsmMonthly.ReadFirstDay`: scripts/armenia-esm-netcdf-conversion/convert-daily-esm-netcdf-to-monthly-gtiff.py:47-53;
- `EsmMonthly.Convert`: scripts/armenia-esm-netcdf-conversion/convert-daily-esm-netcdf-to-monthly-gtiff.py:62-137;
- `EsmMonthly.ParseArgs`: scripts/armenia-esm-netcdf-conversion/convert-daily-esm-netcdf-to-monthly-gtiff.py:140-155;
- `GeneralPreprocessDem.Run`: scripts/General/preprocess-dem.py:119-296;
- `PreprocessDem.Run`: scripts/preprocess-dem.py:74-223;
- `DemPreprocessing.Run`: scripts/dem-preprocessing.py:48-196;
- `DemPreprocessing.Script`: scripts/dem-preprocessing.py:199-201;
- `IsricSoils.CsvDownloads`: scripts/soils/procure-isric-soils.py:270-302;
- `LinkEtAl.Cell`: scripts/link-et-al-2020-to-gtiff.py:64-78.

## Model

| member | source | states |
|---|---|---|
| TaskGraph.Graph.constructor | scripts/General/preprocess-dem.py:123-124 | A new graph has no tasks and is neither closed nor joined. |
| TaskGraph.Graph.AddTask | scripts/General/preprocess-dem.py:159-252 | `add_task` appends exactly the declared task. Its handle is its position. Dependencies must be earlier handles, and the graph stays acyclic. |
| TaskGraph.Graph.Close | scripts/General/preprocess-dem.py:294 | `close()` marks the graph closed and keeps its tasks, so every dependency still points to an earlier task. |
| TaskGraph.Graph.Join | scripts/General/preprocess-dem.py:295 | `join()` marks the graph joined and keeps its tasks, so every dependency still points to an earlier task. |
| TaskGraph.DependsOnEarlier | scripts/General/preprocess-dem.py:159-252 | When every dependency names an earlier task, every transitive dependency is earlier too, so there is no cycle. |
| DemChain.ParseRouting | scripts/General/preprocess-dem.py:221-230 | The routing method is lower-cased. "d8" and "mfd" select D8 and MFD, and any other value is rejected. |
| DemChain.ParseTfa | scripts/General/preprocess-dem.py:264 | A TFA string that does not split into exactly three ':'-separated parts fails to unpack. |
| DemChain.ParseTfaOfInts | scripts/General/preprocess-dem.py:264-272 | "start:stop:step" written from three integers parses back to them. |
| DemChain.ParsePixelSize | scripts/General/preprocess-dem.py:173-182 | An explicit pixel size has at least one component. |
| DemChain.PixelSizeOfInts | scripts/General/preprocess-dem.py:173-174 | "X,Y" becomes `[int(X), int(Y)]`. |
| DemChain.PixelSizeCases | scripts/General/preprocess-dem.py:173-182 | With no pixel size, only the target units 'm', 'meter' and 'metre' are accepted. An explicit size fails exactly when one of its parts is not an integer. |
| DemChain.StageNamesDiffer | scripts/General/preprocess-dem.py:194-275 | Different stages have different file names. |
| DemChain.StagePathInjective | scripts/General/preprocess-dem.py:194-275 | Different stages, including stream rasters of different thresholds, have different paths in the workspace. |
| DemChain.DistinctTargetPaths | scripts/General/preprocess-dem.py:274-275 | Tasks with distinct target stages write distinct paths. |
| DemChain.StreamTasks | scripts/General/preprocess-dem.py:272-292 | There is one stream task per threshold. |
| DemChain.Chain | scripts/General/preprocess-dem.py:210-252 | Fill pits, flow direction and flow accumulation add three tasks. |
| DemChain.AfterWarpAcyclic | scripts/General/preprocess-dem.py:210-292 | Everything declared after the warp depends only on earlier tasks. |
| DemChain.AfterChainAcyclic | scripts/General/preprocess-dem.py:254-292 | The stream tasks declared after the chain depend only on earlier tasks. |
| DemChain.AfterChainKeeps | scripts/General/preprocess-dem.py:254-292 | The stream stage keeps the chain tasks as a prefix and never raises the routing error. |
| DemChain.AfterWarpClosed | scripts/General/preprocess-dem.py:254-296 | The graph is closed and joined exactly when the run completes without an exception. |
| DemChain.AfterWarpChain | scripts/General/preprocess-dem.py:210-252 | Fill pits depends on the warp, flow direction on fill pits, and accumulation on flow direction, with the routines that match the routing. An unknown routing raises exactly when the method is neither d8 nor mfd, and then only fill pits has been added. |
| DemChain.AfterChainStreams | scripts/General/preprocess-dem.py:272-292 | With a non-empty, well-formed TFA, the task list is the chain followed by one stream task per range value. |
| DemChain.AfterWarpStreams | scripts/General/preprocess-dem.py:272-292 | Each stream task depends only on the accumulation task, gets its threshold as an argument, and writes the stream raster of that threshold. D8 and MFD use their own routine. |
| DemChain.AfterWarpTfaError | scripts/General/preprocess-dem.py:264-272 | A malformed TFA, a non-integer part and a zero step all raise after the chain tasks are declared, with no stream task. |
| DemChain.AppendStreamsDistinct | scripts/General/preprocess-dem.py:272-292 | Distinct thresholds keep all target stages distinct. |
| DemChain.AfterWarpDistinct | scripts/General/preprocess-dem.py:210-292 | No two tasks declared after the warp write the same stage. |
| DemChain.AddStreamTasks | scripts/General/preprocess-dem.py:272-292 | The loop appends exactly the stream tasks of the thresholds, in range order. |
| DemChain.BuildAfterWarp | scripts/General/preprocess-dem.py:210-296 | On the graph, the method declares the fill-pits-to-streams part exactly as the plan says, and closes and joins the graph only on success. |
| DemChain.BuildAfterChain | scripts/General/preprocess-dem.py:254-296 | On the graph, the method declares the stream part, or returns and joins early when there is no TFA. |
| GeneralPreprocessDem.PreprocessDem | scripts/General/preprocess-dem.py:119-296 | The tasks declared on the returned graph, the outcome and the close/join state are those of the plan. |
| GeneralPreprocessDem.PlanAcyclic | scripts/General/preprocess-dem.py:159-252 | Every dependency of every task is an earlier task. |
| GeneralPreprocessDem.PlanClosed | scripts/General/preprocess-dem.py:254-296 | The graph is closed exactly when the run does not raise. |
| GeneralPreprocessDem.PlanTargetsDistinct | scripts/General/preprocess-dem.py:157-275 | All target paths are pairwise distinct. |
| GeneralPreprocessDem.ErrorPoints | scripts/General/preprocess-dem.py:131-272 | A bad EPSG code and an unknown DEM alias raise before any task. A bad pixel size or non-metre units raise after the VRT task only. An unknown routing raises after three tasks, and TFA errors after five. |
| GeneralPreprocessDem.PlanChain | scripts/General/preprocess-dem.py:159-252 | The order is VRT (no dependency), then warp, fill pits, flow direction and accumulation. Each of the last four depends on the task before it, and the last two share the name 'Flow direction'. |
| GeneralPreprocessDem.NoThresholds | scripts/General/preprocess-dem.py:254-262 | An absent or empty TFA declares five tasks and closes the graph. |
| GeneralPreprocessDem.InclusiveThresholds | scripts/General/preprocess-dem.py:264-292 | The thresholds are `range(start, stop+1, step)`: every value lies between start and stop, each task depends on accumulation, and stop appears exactly when `(stop-start) mod step = 0`. |
| GeneralPreprocessDem.HelpExample | scripts/General/preprocess-dem.py:75-79 | The help text's "1000:5000:150" yields 27 thresholds from 1000 to 4900, without 5000. |
| GeneralPreprocessDem.DefaultsRun | scripts/General/preprocess-dem.py:73-296 | With every option at its default and metre units, the command declares the SRTM VRT, the warp at the latitude-derived pixel size and the D8 chain, five tasks in all, and closes the graph. With other units it raises the pixel-size error after the VRT task. |
| PreprocessDem.PreprocessDem | scripts/preprocess-dem.py:74-223 | The graph holds the plan's tasks, outcome and close/join state. |
| PreprocessDem.PlanAcyclic | scripts/preprocess-dem.py:134-192 | Every dependency is an earlier task. |
| PreprocessDem.PlanClosed | scripts/preprocess-dem.py:194-223 | The graph is closed exactly when the run does not raise. |
| PreprocessDem.PlanTargetsDistinct | scripts/preprocess-dem.py:108-220 | All target paths are pairwise distinct. |
| PreprocessDem.ErrorPoints | scripts/preprocess-dem.py:82-200 | The VRT is built synchronously, so EPSG, DEM and pixel-size errors leave no task. An unknown routing leaves two tasks, and TFA errors leave four. |
| PreprocessDem.PlanChain | scripts/preprocess-dem.py:110-192 | Warp is the first task and has no dependency. Fill pits, flow direction and accumulation each depend on the one before. |
| PreprocessDem.ExclusiveThresholds | scripts/preprocess-dem.py:199-220 | The thresholds are `range(start, stop, step)`, each task depends on accumulation, and stop is never a threshold. |
| DemPreprocessing.PreprocessDem | scripts/dem-preprocessing.py:59-196 | The graph holds the plan's tasks, outcome and close/join state. |
| DemPreprocessing.PlanAcyclic | scripts/dem-preprocessing.py:97-170 | Every dependency is an earlier task. |
| DemPreprocessing.PlanClosed | scripts/dem-preprocessing.py:172-196 | The graph is closed exactly when the run does not raise. |
| DemPreprocessing.PlanTargetsDistinct | scripts/dem-preprocessing.py:97-193 | All target paths are pairwise distinct. |
| DemPreprocessing.ErrorPoints | scripts/dem-preprocessing.py:73-173 | An unknown routing raises after the VRT, warp and fill-pits tasks. The TFA slice is split without an empty guard, so "" raises. |
| DemPreprocessing.PlanChain | scripts/dem-preprocessing.py:97-170 | The VRT task has no dependency, and the chain follows it. The pixel size reaches the warp unchanged. |
| DemPreprocessing.MainRouting | scripts/dem-preprocessing.py:34-54 | `main` gives no routing method, so the default 'D8' applies, and it selects D8 routing. |
| DemPreprocessing.MainSlice | scripts/dem-preprocessing.py:39 | `main`'s slice parses to (1000, 10000, 200). |
| DemPreprocessing.MainThresholds | scripts/dem-preprocessing.py:172-173 | `range(1000, 10000, 200)` is 1000, 1200, ..., 9800: 45 values. |
| DemPreprocessing.RunStreams | scripts/dem-preprocessing.py:172-193 | After the chain come exactly the stream tasks of `range(start, stop, step)`, each on the accumulation task. |
| DemPreprocessing.MainRun | scripts/dem-preprocessing.py:172-196 | With D8 routing and `main`'s slice, a run that reaches the warp declares 50 tasks and closes the graph. Task 4 is D8 accumulation, and tasks 5 to 49 are D8 stream tasks for 1000 + 200k, each on task 4. |
| DemPreprocessing.Main | scripts/dem-preprocessing.py:34-43 | `main` raises IndexError exactly when the command line has no AOI path (`sys.argv[1]`). Otherwise it returns the fixed dictionary, with a known DEM slug and no EPSG code. |
| DemPreprocessing.MainPlan | scripts/dem-preprocessing.py:34-201 | With an AOI path on the command line, `preprocess_dem(**main())` succeeds and closes the graph with 50 tasks. Task 4 is D8 accumulation, and tasks 5 to 49 are the D8 stream tasks for 1000 + 200k. Without one, `main` raises IndexError before any task is declared. |
| LulcTransition.ArrayEqualsNodata | scripts/landcover-transition/lulc-transition.py:25-45 | With nodata None the mask is all false. For an integer array it is exact equality with nodata. |
| LulcTransition.LabelInjective | scripts/landcover-transition/lulc-transition.py:188-196 | The label "f to t" determines the pair. |
| LulcTransition.ChangesMembers | scripts/landcover-transition/lulc-transition.py:186-191 | The changed pairs met so far, in first-seen order, are distinct and are exactly the pairs seen with f != t. |
| LulcTransition.ChangesPrefix | scripts/landcover-transition/lulc-transition.py:186-191 | Later pixels only append new pairs. |
| LulcTransition.ChangesAppend | scripts/landcover-transition/lulc-transition.py:186-191 | A pixel adds its pair exactly when it changes and is new. |
| LulcTransition.CodeTableKeys | scripts/landcover-transition/lulc-transition.py:189-190 | Exactly the recorded pairs have codes. |
| LulcTransition.CodeTableValues | scripts/landcover-transition/lulc-transition.py:187-191 | The k-th distinct changed pair gets code k+1. |
| LulcTransition.CodeTableRange | scripts/landcover-transition/lulc-transition.py:187-191 | Codes run from 1 to the number of distinct changed pairs. |
| LulcTransition.CodeGrow | scripts/landcover-transition/lulc-transition.py:187-196 | Recording a new pair gives it the next code, `len + 1`, in both the code table and the legend, and leaves every other entry alone. |
| LulcTransition.LabelTableAgrees | scripts/landcover-transition/lulc-transition.py:188-193 | `transition_str_dict`, keyed by label, holds the same codes as the table keyed by pair. |
| LulcTransition.RecordedLabel | scripts/landcover-transition/lulc-transition.py:188-190 | Every label key comes from a pair that was seen. |
| LulcTransition.ClassKeyLookup | scripts/landcover-transition/lulc-transition.py:195-196 | The legend's keys are 0 to n. Key 0 is "unchanged" and key k+1 is the k-th pair's transition. |
| LulcTransition.CodesInverse | scripts/landcover-transition/lulc-transition.py:188-196 | `transition_class_key` and `transition_str_dict` are inverses on the assigned codes. |
| LulcTransition.CodeLookup | scripts/landcover-transition/lulc-transition.py:189-196 | A pair has a code exactly when it was recorded, and its code has a legend entry. |
| LulcTransition.MinOf | scripts/landcover-transition/lulc-transition.py:223-224 | The least element of a non-empty set. |
| LulcTransition.SortedValues | scripts/landcover-transition/lulc-transition.py:223-224 | `sorted(set)` is increasing and has exactly the set's elements. |
| LulcTransition.CountMatrixTotal | scripts/landcover-transition/lulc-transition.py:228-232 | When every pixel's values are rows and columns, the matrix counts sum to the number of pixels. |
| LulcTransition.PixelStep | scripts/landcover-transition/lulc-transition.py:176-196 | A pixel leaves the value sets and the processed counter unchanged. |
| LulcTransition.PixelCodes | scripts/landcover-transition/lulc-transition.py:185-197 | The code written for a pixel is its pair's code afterwards, and existing codes never move. |
| LulcTransition.PixelShape | scripts/landcover-transition/lulc-transition.py:180 | Counting a registered pixel keeps the matrix rectangular. |
| LulcTransition.RegisterStep | scripts/landcover-transition/lulc-transition.py:141-159 | The update step adds the block's values to the seen sets and leaves codes, legend and counters alone. |
| LulcTransition.RegisterShape | scripts/landcover-transition/lulc-transition.py:141-159 | After the update step the map's keys are the from-values seen, and every row's keys are the to-values seen. |
| LulcTransition.RegisterCells | scripts/landcover-transition/lulc-transition.py:153-159 | After the update step every pixel of the block has a cell, so line 180 never misses a key. |
| LulcTransition.BlockStep | scripts/landcover-transition/lulc-transition.py:137-203 | A block adds its values to the seen sets and its area to the pixel counter. |
| LulcTransition.PixelCounts | scripts/landcover-transition/lulc-transition.py:180 | Counting one pixel keeps every cell equal to the number of times its pair was seen. |
| LulcTransition.PixelCoded | scripts/landcover-transition/lulc-transition.py:185-196 | Coding one pixel keeps codes, legend and `transition_index` in step with the changed pairs seen. |
| LulcTransition.CountPrefixCounts | scripts/landcover-transition/lulc-transition.py:172-180 | The counts stay exact across a row of pixels. |
| LulcTransition.CountPrefixCoded | scripts/landcover-transition/lulc-transition.py:172-196 | The codes stay in step across a row of pixels. |
| LulcTransition.CountPairsDescribes | scripts/landcover-transition/lulc-transition.py:172-196 | After counting the pixels of a block, the counts are exact and the codes are in step with all pixels seen. |
| LulcTransition.RegisterCounts | scripts/landcover-transition/lulc-transition.py:141-159 | Adding zero cells for new values does not disturb the counts. |
| LulcTransition.InitialDescribes | scripts/landcover-transition/lulc-transition.py:122-135 | The initial state, with empty maps, code 1 next and no pixels processed, describes the empty pixel sequence. |
| LulcTransition.ViewDescribes | scripts/landcover-transition/lulc-transition.py:137-203 | Processing a block keeps the state describing all pixels seen: exact counts, a rectangular matrix, first-seen codes, `transition_index` one past the last code, and `n_pixels_processed` equal to the pixel count. |
| LulcTransition.BlockDescribes | scripts/landcover-transition/lulc-transition.py:137-203 | The same holds for a block given as two arrays. |
| LulcTransition.ExtendRow | scripts/landcover-transition/lulc-transition.py:157-159 | A row gains a zero cell for each new to-value, and existing cells are kept. |
| LulcTransition.ExtendMatrix | scripts/landcover-transition/lulc-transition.py:153-159 | New from-values get zero rows over all to-values seen. Existing rows are extended with the block's to-values. |
| LulcTransition.MaskRow | scripts/landcover-transition/lulc-transition.py:199 | In one row, pixels where both inputs are nodata become -1 and other pixels are kept. |
| LulcTransition.ApplyMask | scripts/landcover-transition/lulc-transition.py:147-149 | `transition_array[nodata_mask] = -1` overrides exactly the pixels where both inputs are nodata. |
| LulcTransition.CountPixel | scripts/landcover-transition/lulc-transition.py:176-196 | The imperative pixel update yields the pixel step and its code. |
| LulcTransition.RegisterValues | scripts/landcover-transition/lulc-transition.py:141-159 | The imperative update step yields the register step. |
| LulcTransition.ProcessRow | scripts/landcover-transition/lulc-transition.py:172-197 | One row is counted left to right, and every pixel of the row is written with its pair's code. |
| LulcTransition.CountBlock | scripts/landcover-transition/lulc-transition.py:168-197 | A block's pixels are counted in row-major order. Every output pixel holds its pair's code: 0 when from equals to. |
| LulcTransition.ProcessBlock | scripts/landcover-transition/lulc-transition.py:137-203 | A block's state follows the block step. Each output pixel is -1 where both inputs are nodata, and its pair's code otherwise. |
| LulcTransition.ReadBlock | scripts/landcover-transition/lulc-transition.py:137-138 | Reading a window gives an array that holds the window's values. |
| LulcTransition.ReadView | scripts/landcover-transition/lulc-transition.py:137-144 | The arrays read from a window give that window's pixels and values. |
| LulcTransition.BlockShape | scripts/landcover-transition/lulc-transition.py:141-180 | A block keeps the matrix rectangular. |
| LulcTransition.RunDescribes | scripts/landcover-transition/lulc-transition.py:122-203 | After any number of blocks, the state describes all pixels seen. |
| LulcTransition.Rows2 | scripts/landcover-transition/lulc-transition.py:200-201 | The block written holds the array's values, row by row. |
| LulcTransition.BlockRowsCoded | scripts/landcover-transition/lulc-transition.py:199-201 | The rows written for a block are -1 where both inputs are nodata and the pair's code elsewhere. |
| LulcTransition.RowsCodedKeeps | scripts/landcover-transition/lulc-transition.py:189-193 | A block written earlier still matches the final code tables. |
| LulcTransition.TransitionWindow | scripts/landcover-transition/lulc-transition.py:137-203 | One window advances the state by that window and writes its coded rows. |
| LulcTransition.NextWindow | scripts/landcover-transition/lulc-transition.py:137-208 | One more pass of the block loop advances the state by one window, and all written blocks stay coded with the new tables. |
| LulcTransition.TransitionBlocks | scripts/landcover-transition/lulc-transition.py:122-209 | The whole block loop ends in the state that describes every pixel. Every written block is coded with the final tables: -1 for masked pixels, 0 for unchanged ones, the pair's code otherwise. |
| LulcTransition.RunWindowsDescribe | scripts/landcover-transition/lulc-transition.py:122-209 | The state after all windows describes every pixel. |
| LulcTransition.SortedLookups | scripts/landcover-transition/lulc-transition.py:228-231 | Every sorted from-value has a row holding every sorted to-value, so the CSV loop never misses a key. |
| LulcTransition.WriteMatrixRow | scripts/landcover-transition/lulc-transition.py:229-231 | A matrix row is the from-value followed by its counts in to-value order. |
| LulcTransition.WriteMatrixRows | scripts/landcover-transition/lulc-transition.py:228-232 | There is one row per from-value, in the given order. |
| LulcTransition.WriteMatrix | scripts/landcover-transition/lulc-transition.py:221-232 | The matrix CSV is the header plus one row per sorted from-value. |
| LulcTransition.RowCounts | scripts/landcover-transition/lulc-transition.py:229-231 | The cells of a row are the pixel counts of its pairs. |
| LulcTransition.MatrixRowsCounts | scripts/landcover-transition/lulc-transition.py:228-232 | The rows hold the count matrix. |
| LulcTransition.MatrixTableCounts | scripts/landcover-transition/lulc-transition.py:223-232 | The header is "From/To" with the to-values ascending. Then comes one row per ascending from-value, holding the number of pixels seen with each pair. |
| LulcTransition.MatrixTableOf | scripts/landcover-transition/lulc-transition.py:221-232 | With the map holding the counts of a multiset of pairs, the CSV table is the header and the count matrix over the sorted values. |
| LulcTransition.MatrixTotalCount | scripts/landcover-transition/lulc-transition.py:228-232 | Over the sorted values, the matrix counts sum to the number of pixels seen. |
| LulcTransition.MatrixTotal | scripts/landcover-transition/lulc-transition.py:180-232 | The matrix counts sum to `n_pixels_processed`, nodata pixels included. |
| LulcTransition.WriteRasterTable | scripts/landcover-transition/lulc-transition.py:234-243 | The raster table is written from the legend in key order. |
| LulcTransition.RasterTableRows | scripts/landcover-transition/lulc-transition.py:234-243 | The header comes first, then "-1 (nodata)", then "0 unchanged", then one row "k, f to t" per code in first-seen order. |
| LulcTransition.LegendTable | scripts/landcover-transition/lulc-transition.py:234-243 | The same, stated from the legend's entries. |
| LulcTransition.LegendRows | scripts/landcover-transition/lulc-transition.py:241-243 | The legend rows in key order are "0 unchanged", then the transitions. |
| LulcTransition.PairCoded | scripts/landcover-transition/lulc-transition.py:186-196 | Every changed pair seen has a code and a legend entry with its transition. This includes a nodata pair whose pixels are all masked. |
| LinkEtAl.Wrap | scripts/link-et-al-2020-to-gtiff.py:70 | A negative source index counts from the end of the table row, as numpy indexing does. |
| LinkEtAl.Gain | scripts/link-et-al-2020-to-gtiff.py:70-72 | A source adds nothing to a pixel unless its volume is positive. |
| LinkEtAl.CellMeaning | scripts/link-et-al-2020-to-gtiff.py:64-78 | A pixel stays TARGET_NODATA exactly when no source gives it a positive volume. Otherwise it is the sum of the positive volumes, with the first one replacing nodata by 0. |
| LinkEtAl.TotalRemove | scripts/link-et-al-2020-to-gtiff.py:68-78 | Removing one source takes exactly its positive volume off the pixel's total. |
| LinkEtAl.CellOrder | scripts/link-et-al-2020-to-gtiff.py:68 | The order in which the id set is iterated does not change any pixel. |
| LinkEtAl.TotalOrder | scripts/link-et-al-2020-to-gtiff.py:68 | The order of the ids does not change the total. |
| LinkEtAl.FailureStays | scripts/link-et-al-2020-to-gtiff.py:68-78 | Once a source raises, later sources change nothing. |
| LinkEtAl.RunSucceeds | scripts/link-et-al-2020-to-gtiff.py:68-78 | The run completes exactly when no source raises. |
| LinkEtAl.SourceClean | scripts/link-et-al-2020-to-gtiff.py:70-78 | A source raises no IndexError exactly when its index fits the table and all its positive volumes land inside the grid. |
| LinkEtAl.FailsAt | scripts/link-et-al-2020-to-gtiff.py:68-78 | The first source that raises decides the run's error. |
| LinkEtAl.FlatIndex | scripts/link-et-al-2020-to-gtiff.py:73-74 | The pair (row, col) with `0 <= col < n_cols` is `(p div n_cols, p mod n_cols)` exactly when `row*n_cols + col = p`. |
| LinkEtAl.RowInGrid | scripts/link-et-al-2020-to-gtiff.py:73-75 | Row `p div n_cols` is in the grid exactly when `p < rows*n_cols`. |
| LinkEtAl.AddSource | scripts/link-et-al-2020-to-gtiff.py:69-78 | The inner loop raises exactly as the source's error says. Otherwise every pixel is the old value plus the source's positive volume, with nodata read as 0. |
| LinkEtAl.Run | scripts/link-et-al-2020-to-gtiff.py:37-81 | `run` fails exactly when some source raises, with that source's error. Otherwise the grid holds, per pixel, the value recorded by `CellMeaning`. |
| LinkEtAl.BasinIdsToInternal | scripts/link-et-al-2020-to-gtiff.py:84-103 | The result is exactly the positions n in `[0, len(arr))` with `arr[n]` among the parsed basin ids. A non-integer id raises ValueError. |
| LinkEtAl.ParseIdSet | scripts/link-et-al-2020-to-gtiff.py:97 | `set(int(b) for b in basin_ids)`: exactly the parsed ids, so duplicates do not matter. |
| LinkEtAl.CellIndexToInternal | scripts/link-et-al-2020-to-gtiff.py:106-125 | Index i is included exactly when `rows[i]*240 + cols[i]` is requested. Pairs past the shorter array are dropped, as `zip` does. |
| LinkEtAl.VisitRow | scripts/link-et-al-2020-to-gtiff.py:158-161 | Each inner iteration visits exactly one more pixel. |
| LinkEtAl.NextColumn | scripts/link-et-al-2020-to-gtiff.py:157-158 | A finished column ends where the next one starts. |
| LinkEtAl.AoiToCellIndex | scripts/link-et-al-2020-to-gtiff.py:155-161 | The AOI ids are exactly the flat indexes `row*cols + col < rows*cols` of pixels burnt to 1. |
| LinkEtAl.AddColumns | scripts/link-et-al-2020-to-gtiff.py:157-161 | The outer loop collects the burnt pixels of all columns. |
| LinkEtAl.AddColumn | scripts/link-et-al-2020-to-gtiff.py:158-161 | The inner loop adds the burnt pixels of one column. |
| LinkEtAl.AllVisited | scripts/link-et-al-2020-to-gtiff.py:157-161 | Every pixel of the grid is visited. |
| Calendar.MonthLength | scripts/armenia-esm-netcdf-conversion/convert-daily-esm-netcdf-to-monthly-gtiff.py:87 | `calendar.monthrange(y, m)[1]` is between 28 and 31, and is 29 exactly for February of a leap year. |
| Calendar.MakeDate | scripts/armenia-esm-netcdf-conversion/convert-daily-esm-netcdf-to-monthly-gtiff.py:88 | `datetime.date(y, m, d)` succeeds exactly for a valid Gregorian date. |
| Calendar.LeapDay | scripts/armenia-esm-netcdf-conversion/convert-daily-esm-netcdf-to-monthly-gtiff.py:87-88 | February 29 exists exactly in leap years. |
| Calendar.DaysBeforeYearFormula | scripts/armenia-esm-netcdf-conversion/convert-daily-esm-netcdf-to-monthly-gtiff.py:89 | The sum of the year lengths equals `datetime`'s closed form `365(y-1) + (y-1)//4 - (y-1)//100 + (y-1)//400`. |
| Calendar.OrdinalInjective | scripts/armenia-esm-netcdf-conversion/convert-daily-esm-netcdf-to-monthly-gtiff.py:89 | Different dates have different ordinals. |
| Calendar.YearsOrder | scripts/armenia-esm-netcdf-conversion/convert-daily-esm-netcdf-to-monthly-gtiff.py:89 | A date of an earlier year has a smaller ordinal. |
| Calendar.MonthsOrder | scripts/armenia-esm-netcdf-conversion/convert-daily-esm-netcdf-to-monthly-gtiff.py:89 | Within a year, a date of an earlier month has a smaller ordinal. |
| Calendar.OrdinalInYear | scripts/armenia-esm-netcdf-conversion/convert-daily-esm-netcdf-to-monthly-gtiff.py:89 | The ordinal of a date lies within its year's span of ordinals. |
| Calendar.YearOf | scripts/armenia-esm-netcdf-conversion/convert-daily-esm-netcdf-to-monthly-gtiff.py:56 | For an ordinal, this is the year whose span of ordinals contains it. |
| Calendar.MonthOf | scripts/armenia-esm-netcdf-conversion/convert-daily-esm-netcdf-to-monthly-gtiff.py:56 | For a day of the year, this is the month whose span contains it. |
| Calendar.FromOrdinal | scripts/armenia-esm-netcdf-conversion/convert-daily-esm-netcdf-to-monthly-gtiff.py:56 | `date.fromordinal(n)` is the valid date with ordinal n. |
| Calendar.FromOrdinalOf | scripts/armenia-esm-netcdf-conversion/convert-daily-esm-netcdf-to-monthly-gtiff.py:56 | `fromordinal(toordinal(d)) == d`. |
| Calendar.AddDays | scripts/armenia-esm-netcdf-conversion/convert-daily-esm-netcdf-to-monthly-gtiff.py:56 | `d + timedelta(days=n)` succeeds exactly when the ordinal stays in datetime's range, and then it moves the ordinal by n. |
| Calendar.TomorrowOrdinal | scripts/armenia-esm-netcdf-conversion/convert-daily-esm-netcdf-to-monthly-gtiff.py:87-89 | The day after a valid date is valid and one ordinal later. |
| Calendar.NextMonthOrdinal | scripts/armenia-esm-netcdf-conversion/convert-daily-esm-netcdf-to-monthly-gtiff.py:87-89 | The first of the next month is one day after a month's last day. |
| Calendar.NextYearOrdinal | scripts/armenia-esm-netcdf-conversion/convert-daily-esm-netcdf-to-monthly-gtiff.py:84-89 | January 1 is one day after December 31 of the year before. |
| Calendar.NextDay | scripts/armenia-esm-netcdf-conversion/convert-daily-esm-netcdf-to-monthly-gtiff.py:87-89 | The next day, across month and year ends, is one ordinal later. |
| EsmMonthly.ReadFirstLastDays | scripts/armenia-esm-netcdf-conversion/convert-daily-esm-netcdf-to-monthly-gtiff.py:47-57 | The final day is the first day plus `band_count` days. A failure is a parse error of the first day, or an overflow of `datetime`. |
| EsmMonthly.ReadDateText | scripts/armenia-esm-netcdf-conversion/convert-daily-esm-netcdf-to-monthly-gtiff.py:51-53 | The third space-separated token "Y-M-D" of `time#units` gives back the date. |
| EsmMonthly.BandIndexes | scripts/armenia-esm-netcdf-conversion/convert-daily-esm-netcdf-to-monthly-gtiff.py:89 | The first day is band 1, and consecutive days get consecutive bands. |
| EsmMonthly.BandIndexInjective | scripts/armenia-esm-netcdf-conversion/convert-daily-esm-netcdf-to-monthly-gtiff.py:89 | No two days share a band. |
| EsmMonthly.MonthDaysValid | scripts/armenia-esm-netcdf-conversion/convert-daily-esm-netcdf-to-monthly-gtiff.py:87-88 | The day loop visits exactly the valid days of the month, so February 29 only in leap years. |
| EsmMonthly.DayIndex | scripts/armenia-esm-netcdf-conversion/convert-daily-esm-netcdf-to-monthly-gtiff.py:87-89 | Day d of a month is d-1 bands after the month's first day. |
| EsmMonthly.Select | scripts/armenia-esm-netcdf-conversion/convert-daily-esm-netcdf-to-monthly-gtiff.py:114 | Boolean-mask selection keeps only qualifying values. |
| EsmMonthly.SelectAll | scripts/armenia-esm-netcdf-conversion/convert-daily-esm-netcdf-to-monthly-gtiff.py:114 | Two-dimensional boolean-mask selection keeps only qualifying values. |
| EsmMonthly.SelectEmpty | scripts/armenia-esm-netcdf-conversion/convert-daily-esm-netcdf-to-monthly-gtiff.py:114 | The selection of a row is empty exactly when no value of the row qualifies. |
| EsmMonthly.SelectAllEmpty | scripts/armenia-esm-netcdf-conversion/convert-daily-esm-netcdf-to-monthly-gtiff.py:114 | The selection is empty exactly when no value qualifies. Then `numpy.min` raises. |
| EsmMonthly.RainyMeaning | scripts/armenia-esm-netcdf-conversion/convert-daily-esm-netcdf-to-monthly-gtiff.py:93-99 | A day counts as a rain event exactly when some pixel not close to nodata exceeds 0.1. |
| EsmMonthly.RunRainy | scripts/armenia-esm-netcdf-conversion/convert-daily-esm-netcdf-to-monthly-gtiff.py:98-100 | The counter goes up at most once per day. |
| EsmMonthly.AddValid | scripts/armenia-esm-netcdf-conversion/convert-daily-esm-netcdf-to-monthly-gtiff.py:93-94 | Only pixels not close to nodata are added, and all other entries stay. |
| EsmMonthly.AddInto | scripts/armenia-esm-netcdf-conversion/convert-daily-esm-netcdf-to-monthly-gtiff.py:105 | `sum_of_this_month += daily_sum_array` adds element by element. |
| EsmMonthly.DivideBy | scripts/armenia-esm-netcdf-conversion/convert-daily-esm-netcdf-to-monthly-gtiff.py:103-107 | Division by the month length or the number of years is element by element. |
| EsmMonthly.AddDay | scripts/armenia-esm-netcdf-conversion/convert-daily-esm-netcdf-to-monthly-gtiff.py:88-100 | One day is read, added and counted when it rains. It raises for an invalid date, for a missing band, and for a band without a nodata value, where `numpy.isclose` is given None and raises TypeError. |
| EsmMonthly.SumDays | scripts/armenia-esm-netcdf-conversion/convert-daily-esm-netcdf-to-monthly-gtiff.py:85-100 | The day loop fails exactly as the month's error says. Otherwise it leaves the sum of the month's bands and the month's rain days. |
| EsmMonthly.AddYear | scripts/armenia-esm-netcdf-conversion/convert-daily-esm-netcdf-to-monthly-gtiff.py:85-105 | One year adds its month value, divided by the month length for "mean", to the running total. |
| EsmMonthly.SumYears | scripts/armenia-esm-netcdf-conversion/convert-daily-esm-netcdf-to-monthly-gtiff.py:84-105 | The year loop adds every year's month value and counts every year's rain days, or fails with the first year's error. |
| EsmMonthly.RunErrorStays | scripts/armenia-esm-netcdf-conversion/convert-daily-esm-netcdf-to-monthly-gtiff.py:87-100 | Once a day of the month raises, the later days do not change the month's error. |
| EsmMonthly.RunErrorNone | scripts/armenia-esm-netcdf-conversion/convert-daily-esm-netcdf-to-monthly-gtiff.py:90-93 | A month's days are read without an exception exactly when every one of their bands exists and declares a nodata value. |
| EsmMonthly.YearsErrorStays | scripts/armenia-esm-netcdf-conversion/convert-daily-esm-netcdf-to-monthly-gtiff.py:84-105 | Once a year raises, the later years do not change the error. |
| EsmMonthly.MonthValues | scripts/armenia-esm-netcdf-conversion/convert-daily-esm-netcdf-to-monthly-gtiff.py:84-105 | There is one month value per year. |
| EsmMonthly.SeqMin | scripts/armenia-esm-netcdf-conversion/convert-daily-esm-netcdf-to-monthly-gtiff.py:80 | `min(years)` is a year of the list, and no year is smaller. |
| EsmMonthly.SeqMax | scripts/armenia-esm-netcdf-conversion/convert-daily-esm-netcdf-to-monthly-gtiff.py:80 | `max(years)` is a year of the list, and no year is larger. |
| EsmMonthly.GridRows | scripts/armenia-esm-netcdf-conversion/convert-daily-esm-netcdf-to-monthly-gtiff.py:106-110 | The rows of the month's result, in order. |
| EsmMonthly.MonthOutcomes | scripts/armenia-esm-netcdf-conversion/convert-daily-esm-netcdf-to-monthly-gtiff.py:81 | There are twelve month outcomes. |
| EsmMonthly.CollectNext | scripts/armenia-esm-netcdf-conversion/convert-daily-esm-netcdf-to-monthly-gtiff.py:81-127 | A month either adds its GeoTIFF or stops the run with its exception. |
| EsmMonthly.CollectStays | scripts/armenia-esm-netcdf-conversion/convert-daily-esm-netcdf-to-monthly-gtiff.py:81-127 | After a failing month, later months change nothing. |
| EsmMonthly.CollectMeaning | scripts/armenia-esm-netcdf-conversion/convert-daily-esm-netcdf-to-monthly-gtiff.py:81-127 | The months before the first failure are written in order, and the failure stops the loop. Without a failure every month is written. |
| EsmMonthly.CollectExpected | scripts/armenia-esm-netcdf-conversion/convert-daily-esm-netcdf-to-monthly-gtiff.py:81-127 | When each month that does not raise yields its expected GeoTIFF, the loop writes a prefix of the expected list, and the whole list when nothing raises. |
| EsmMonthly.RainCounts | scripts/armenia-esm-netcdf-conversion/convert-daily-esm-netcdf-to-monthly-gtiff.py:98-100 | There are twelve counters. |
| EsmMonthly.MonthResult | scripts/armenia-esm-netcdf-conversion/convert-daily-esm-netcdf-to-monthly-gtiff.py:82-127 | One pass of the month loop gives that month's outcome and its rain count. |
| EsmMonthly.YearsGrid | scripts/armenia-esm-netcdf-conversion/convert-daily-esm-netcdf-to-monthly-gtiff.py:106-110 | The total is divided by `len(years)` only for "mean", and equals the month's grid. |
| EsmMonthly.AllMonths | scripts/armenia-esm-netcdf-conversion/convert-daily-esm-netcdf-to-monthly-gtiff.py:81-127 | The month loop writes what `Collect` of the twelve outcomes says, and keeps every month's rain count. |
| EsmMonthly.ConvertMonthly | scripts/armenia-esm-netcdf-conversion/convert-daily-esm-netcdf-to-monthly-gtiff.py:62-137 | `main` computes the conversion value: the outputs, the rain table and the error. |
| EsmMonthly.MonthWritten | scripts/armenia-esm-netcdf-conversion/convert-daily-esm-netcdf-to-monthly-gtiff.py:113-127 | A written month is named `<basename>-<min>-<max>-<MM>.tif` and holds the month's grid. |
| EsmMonthly.ConvertSucceeds | scripts/armenia-esm-netcdf-conversion/convert-daily-esm-netcdf-to-monthly-gtiff.py:62-137 | A run that does not raise writes exactly 12 outputs, in month order, each with its name and grid. It writes the rain table exactly when one is asked for. |
| EsmMonthly.MonthsWritten | scripts/armenia-esm-netcdf-conversion/convert-daily-esm-netcdf-to-monthly-gtiff.py:81-127 | Without a failure, month k+1 is the k-th output. |
| EsmMonthly.ConvertFails | scripts/armenia-esm-netcdf-conversion/convert-daily-esm-netcdf-to-monthly-gtiff.py:68-137 | A run that raises writes fewer than 12 months and no table. |
| EsmMonthly.OutputNamesDistinct | scripts/armenia-esm-netcdf-conversion/convert-daily-esm-netcdf-to-monthly-gtiff.py:113 | The twelve file names differ. |
| EsmMonthly.OutputNameOfJanuary | scripts/armenia-esm-netcdf-conversion/convert-daily-esm-netcdf-to-monthly-gtiff.py:113 | Months are zero-padded: January is "-01.tif". |
| EsmMonthly.RangeBounds | scripts/armenia-esm-netcdf-conversion/convert-daily-esm-netcdf-to-monthly-gtiff.py:80 | The min and max of the years Y0..Y1 are Y0 and Y1. |
| EsmMonthly.YearsLabelOfRange | scripts/armenia-esm-netcdf-conversion/convert-daily-esm-netcdf-to-monthly-gtiff.py:80 | The years label of Y0..Y1 is "Y0-Y1". |
| EsmMonthly.YearsRainyDaysBound | scripts/armenia-esm-netcdf-conversion/convert-daily-esm-netcdf-to-monthly-gtiff.py:98-100 | k years give at most 31k rain days in a month. |
| EsmMonthly.RainTableBounds | scripts/armenia-esm-netcdf-conversion/convert-daily-esm-netcdf-to-monthly-gtiff.py:134-137 | Row k of the rain table is month k+1, with between 0 and 31 events per year. |
| EsmMonthly.RunSumConstant | scripts/armenia-esm-netcdf-conversion/convert-daily-esm-netcdf-to-monthly-gtiff.py:87-94 | n bands that are all c at a pixel sum to n*c. |
| EsmMonthly.MonthMeanConstant | scripts/armenia-esm-netcdf-conversion/convert-daily-esm-netcdf-to-monthly-gtiff.py:102-103 | The "mean" month method gives c back for a constant pixel. |
| EsmMonthly.SumConstant | scripts/armenia-esm-netcdf-conversion/convert-daily-esm-netcdf-to-monthly-gtiff.py:105-107 | The sum of k equal values c is k*c. |
| EsmMonthly.YearsSumIsSum | scripts/armenia-esm-netcdf-conversion/convert-daily-esm-netcdf-to-monthly-gtiff.py:84-105 | The year loop is the sum of the per-year month values. |
| EsmMonthly.YearsErrorNone | scripts/armenia-esm-netcdf-conversion/convert-daily-esm-netcdf-to-monthly-gtiff.py:84-100 | The year loop completes exactly when no year's month raises. |
| EsmMonthly.PixelIsMean | scripts/armenia-esm-netcdf-conversion/convert-daily-esm-netcdf-to-monthly-gtiff.py:106-107 | The "mean" year method is the mean of the per-year values. |
| EsmMonthly.MeanOfConstant | scripts/armenia-esm-netcdf-conversion/convert-daily-esm-netcdf-to-monthly-gtiff.py:102-107 | "mean:mean" of a constant pixel gives that constant. |
| EsmMonthly.ParseArgsAccepted | scripts/armenia-esm-netcdf-conversion/convert-daily-esm-netcdf-to-monthly-gtiff.py:142-155 | An accepted command line has known methods, "M:Y" splits into them, and the years are Y0..Y1 inclusive. The table is asked for exactly when a non-empty fourth argument is given. |
| EsmMonthly.FalseAsksForTable | scripts/armenia-esm-netcdf-conversion/convert-daily-esm-netcdf-to-monthly-gtiff.py:145-148 | The fourth argument "False" enables the rain table. |
| EsmMonthly.YearsArgument | scripts/armenia-esm-netcdf-conversion/convert-daily-esm-netcdf-to-monthly-gtiff.py:142-143 | "Y0:Y1" reads back as [Y0, Y1]. |
| EsmMonthly.MethodsArgument | scripts/armenia-esm-netcdf-conversion/convert-daily-esm-netcdf-to-monthly-gtiff.py:144 | "M:Y" splits into the two methods. |
| EsmMonthly.ParseArgsOfInvocation | scripts/armenia-esm-netcdf-conversion/convert-daily-esm-netcdf-to-monthly-gtiff.py:140-156 | Every invocation with known methods is what the command line that writes it out parses to. |
| EsmMonthly.ScriptRuns | scripts/armenia-esm-netcdf-conversion/convert-daily-esm-netcdf-to-monthly-gtiff.py:140-156 | A command line "file Y0:Y1 M:Y [table]" with known methods runs `main` on the years Y0..Y1 with those methods, and asks for the rain table exactly when the fourth argument is not empty. |
| EsmMonthlyLegacy.SumYearsAsWritten | scripts/convert-daily-esm-netcdf-to-monthly-gtiff.py:42-56 | As written, the year loop leaves only the last year's month sum to be added. |
| EsmMonthlyLegacy.MonthAsWritten | scripts/convert-daily-esm-netcdf-to-monthly-gtiff.py:40-60 | As written, a month's result is the last year's sum, divided by `len(years)` for "mean". |
| EsmMonthlyLegacy.LastYearOnly | scripts/convert-daily-esm-netcdf-to-monthly-gtiff.py:42-60 | For a pixel of 1.0 everywhere, January over two years is 31.0 as written but 62.0 summed over both years. |
| EsmMonthlyLegacy.MonthSumConstant | scripts/convert-daily-esm-netcdf-to-monthly-gtiff.py:47-54 | A month of constant c sums to its length times c. |
| EsmMonthlyLegacy.LegacyOutcomes | scripts/convert-daily-esm-netcdf-to-monthly-gtiff.py:39 | There are twelve month outcomes. |
| EsmMonthlyLegacy.LegacyMonth | scripts/convert-daily-esm-netcdf-to-monthly-gtiff.py:40-71 | With line 56 corrected, one month with every year's sum added gives that month's outcome. |
| EsmMonthlyLegacy.LegacyMonths | scripts/convert-daily-esm-netcdf-to-monthly-gtiff.py:39-71 | With line 56 corrected, the month loop writes what `Collect` of the twelve outcomes says: the months before the first exception, and that exception. |
| EsmMonthlyLegacy.LegacyConvertMonthly | scripts/convert-daily-esm-netcdf-to-monthly-gtiff.py:24-71 | With line 56 corrected, `main` computes the conversion value: the days error, `NoYears` for no years, or the months as the corrected month loop writes them. |
| EsmMonthlyLegacy.EveryYearCounts | scripts/convert-daily-esm-netcdf-to-monthly-gtiff.py:42-60 | With line 56 corrected, each written pixel is the sum of the month over all years, or that sum divided by `len(years)` for "mean". |
| EsmMonthlyLegacy.LaterAddsPixelCheck | scripts/convert-daily-esm-netcdf-to-monthly-gtiff.py:57-71 | The older revision with line 56 corrected equals the newer one with month method "sum", except that it has no `result >= 0` check. |
| EsmMonthlyLegacy.LegacyMonthsWritten | scripts/convert-daily-esm-netcdf-to-monthly-gtiff.py:39-71 | With line 56 corrected, written months are in order, under their names, with their grids. All 12 are written when nothing raises. |
| EsmMonthlyLegacy.MonthsRaise | scripts/convert-daily-esm-netcdf-to-monthly-gtiff.py:47-53 | The month loop raises only for a missing band, a band without a nodata value or an invalid date, and never IndexError. |
| EsmMonthlyLegacy.YearsErrorKinds | scripts/convert-daily-esm-netcdf-to-monthly-gtiff.py:42-54 | The year loop raises only for a missing band, a band without a nodata value or an invalid date. |
| EsmMonthlyLegacy.RunErrorKinds | scripts/convert-daily-esm-netcdf-to-monthly-gtiff.py:49-53 | The day loop raises only for a missing band or a band without a nodata value. |
| EsmMonthlyLegacy.FallbackWhen | scripts/convert-daily-esm-netcdf-to-monthly-gtiff.py:80-83 | The script ends in the fallback's TypeError, having written nothing, exactly when the years argument has fewer than two parts or `time#units` has fewer than three words. |
| EsmMonthlyLegacy.LegacyTryFallback | scripts/convert-daily-esm-netcdf-to-monthly-gtiff.py:80-83 | Within the `try`, the fallback happens exactly on those two IndexErrors. |
| EsmMonthlyLegacy.LegacyIndexError | scripts/convert-daily-esm-netcdf-to-monthly-gtiff.py:29-30 | `main` raises IndexError exactly when `time#units` has fewer than three words, and then writes nothing. |
| EsmMonthlyLegacy.LegacyScriptRuns | scripts/convert-daily-esm-netcdf-to-monthly-gtiff.py:74-81 | "file Y0:Y1 method" with a known method runs `main`, with line 56 corrected, on the years Y0..Y1. |
| EsmMonthlyLegacy.LegacyTryRuns | scripts/convert-daily-esm-netcdf-to-monthly-gtiff.py:80-81 | Without the IndexErrors, the `try` body is `main`, with line 56 corrected, on the inclusive year range. |
| IsricSoils.Lookup | scripts/soils/procure-isric-soils.py:87 | A dictionary lookup finds a value exactly when the key is present, and the value is the key's. |
| IsricSoils.VrtScan | scripts/soils/procure-isric-soils.py:52-55 | Every VRT row carries the VRT URL. The only error is a line with fewer than two fields. |
| IsricSoils.ScanVrtChecksums | scripts/soils/procure-isric-soils.py:49-55 | The loop over the checksum response computes the VRT scan of its lines. |
| IsricSoils.VrtScanStays | scripts/soils/procure-isric-soils.py:52-55 | An IndexError stops the scan. |
| IsricSoils.ListingLines | scripts/soils/procure-isric-soils.py:52 | There is one line per listing entry. |
| IsricSoils.EntryFields | scripts/soils/procure-isric-soils.py:53 | "hash file" splits into the hash and the file. |
| IsricSoils.VrtRowsOfListing | scripts/soils/procure-isric-soils.py:42-55 | A well-formed listing gives one row per entry naming `<soil_type>_0-5cm_mean.vrt`, with that entry's hash, in order. |
| IsricSoils.ListingText | scripts/soils/procure-isric-soils.py:49-52 | The lines of a listing read back as written. |
| IsricSoils.TileUrlDropsFirstSegment | scripts/soils/procure-isric-soils.py:65-66 | The tile URL is URL_BASE, then the soil type and '/', then the source with its first segment dropped. |
| IsricSoils.TileUrlOfOneSegment | scripts/soils/procure-isric-soils.py:65-66 | A source without '/' leaves the bare soil-type directory. |
| IsricSoils.Dedup | scripts/soils/procure-isric-soils.py:69-70 | The de-duplicated list has the same elements as the input. |
| IsricSoils.FirstIndex | scripts/soils/procure-isric-soils.py:69 | This is the first position of an element. |
| IsricSoils.DedupOrder | scripts/soils/procure-isric-soils.py:69-70 | The checksum URLs keep the order of their first appearance. |
| IsricSoils.DedupDistinct | scripts/soils/procure-isric-soils.py:69-70 | Each checksum URL appears once. |
| IsricSoils.TileUrls | scripts/soils/procure-isric-soils.py:64-67 | There is one tile URL per source. |
| IsricSoils.TileUrlAt | scripts/soils/procure-isric-soils.py:64-67 | The k-th tile URL is that of the k-th source. |
| IsricSoils.ChecksumUrls | scripts/soils/procure-isric-soils.py:68 | There is one checksum URL per tile. |
| IsricSoils.ChecksumUrlAt | scripts/soils/procure-isric-soils.py:68 | The k-th checksum URL is the k-th tile's directory plus `checksum.sha256.txt`. |
| IsricSoils.CollectTileUrls | scripts/soils/procure-isric-soils.py:60-70 | The loop builds the tile URLs in order, and the checksum URLs each once in first-appearance order. |
| IsricSoils.LastFor | scripts/soils/procure-isric-soils.py:77-79 | This is the last line naming a file, or -1 when none does. |
| IsricSoils.LookupLast | scripts/soils/procure-isric-soils.py:74-79 | The lookup maps a file name to the hash of the last line naming it, so later lines override earlier ones. |
| IsricSoils.LookupScanOk | scripts/soils/procure-isric-soils.py:77-79 | The lookup is built exactly when every line has at least two fields. |
| IsricSoils.LookupScanStays | scripts/soils/procure-isric-soils.py:77-79 | A short line stops the lookup scan, and later lines change nothing. |
| IsricSoils.AllLinesPrefix | scripts/soils/procure-isric-soils.py:74-79 | The lines of the first k listings are a prefix of the lines of all listings. |
| IsricSoils.AddListing | scripts/soils/procure-isric-soils.py:76-79 | One listing continues the lookup from the lines before it. |
| IsricSoils.BuildChecksumLookup | scripts/soils/procure-isric-soils.py:74-79 | The lookup is built from all listings, in order. |
| IsricSoils.TileRowsMeaning | scripts/soils/procure-isric-soils.py:85-88 | One row is written per tile, in order, with the hash of its basename. A missing basename raises KeyError at that tile. |
| IsricSoils.TileRowsComplete | scripts/soils/procure-isric-soils.py:85-88 | No KeyError is raised exactly when every tile's basename has a hash. |
| IsricSoils.TileRowsStays | scripts/soils/procure-isric-soils.py:85-88 | A KeyError at a tile ends the tile rows there. |
| IsricSoils.WriteTileRows | scripts/soils/procure-isric-soils.py:83-88 | The loop writes the tile rows. |
| IsricSoils.GetRemoteRasterUrls | scripts/soils/procure-isric-soils.py:38-90 | `_get_remote_raster_urls` computes the CSV rows and the error. |
| IsricSoils.CsvRows | scripts/soils/procure-isric-soils.py:49-88 | The CSV is the VRT rows followed by one row per tile, in VRT order. Each tile row has the hash of the last listing line for its basename. |
| IsricSoils.TileRowsOfLines | scripts/soils/procure-isric-soils.py:74-88 | The tile rows carry the last listed hash of each tile's file. |
| IsricSoils.DownloadsOf | scripts/soils/procure-isric-soils.py:274-302 | There is one download per CSV row. |
| IsricSoils.DownloadAt | scripts/soils/procure-isric-soils.py:274-302 | The k-th download fetches the k-th row's URL, with its checksum, to the row's output path. |
| IsricSoils.CsvPaths | scripts/soils/procure-isric-soils.py:235-241 | Every soil type's CSV is `<cache>/<type>/<type>-tile-urls.csv`, in order. |
| IsricSoils.DeclareDownloads | scripts/soils/procure-isric-soils.py:272-302 | The row loop declares the downloads of the rows, in order. |
| IsricSoils.DeclareCsvPaths | scripts/soils/procure-isric-soils.py:234-251 | The soil-type loop records each type's CSV path. |
| IsricSoils.DeclareAllDownloads | scripts/soils/procure-isric-soils.py:257-302 | The type loop declares each soil type's downloads in turn, and stops with the KeyError of the first type that has no layer. |
| IsricSoils.RunMain | scripts/soils/procure-isric-soils.py:202-309 | `main` gives the CSV paths and downloads declared and the error raised. |
| IsricSoils.DownloadsForNext | scripts/soils/procure-isric-soils.py:257-302 | One more soil type adds its downloads, or raises KeyError when the type has no layer. |
| IsricSoils.DownloadsForStays | scripts/soils/procure-isric-soils.py:257-302 | After a KeyError for one soil type, the later types declare nothing. |
| IsricSoils.AllTypes | scripts/soils/procure-isric-soils.py:228-230 | "all", the default, expands to sand, clay and silt, in dictionary order. |
| IsricSoils.LowerChoice | scripts/soils/procure-isric-soils.py:205-206 | The choices are already lower case. |
| IsricSoils.SocRaises | scripts/soils/procure-isric-soils.py:235-266 | "soc" is accepted and its CSV is declared. Then the lookup at line 266 raises KeyError before any download. |
| IsricSoils.OneTypeDownloads | scripts/soils/procure-isric-soils.py:228-302 | A single known type gets one download per row of its CSV. |
| IsricSoils.WrittenCsvDownloads | scripts/soils/procure-isric-soils.py:243-302 | When a single known type's CSV holds the rows its CSV task wrote, and nothing was raised writing them, the downloads are one per VRT row and then one per tile, in VRT order. Each tile is saved under the tile directory with the hash its file name was last listed with. |
| IsricSoils.OutputPathLayout | scripts/soils/procure-isric-soils.py:278-289 | A '.vrt' URL is saved directly under `soil_dir`. Any other URL goes to `soil_tiles_dir/<parent dir name>/<basename>`. |
| Strings.Split | scripts/General/preprocess-dem.py:264 | `str.split(sep)` gives at least one part, and no part holds the separator. |
| Strings.JoinSplit | scripts/General/preprocess-dem.py:264 | Joining the parts with the separator gives back the string. |
| Strings.SplitJoin | scripts/General/preprocess-dem.py:264 | Splitting a join of separator-free parts gives back the parts. |
| Strings.Tokens | scripts/soils/procure-isric-soils.py:78 | `str.split()` gives non-empty fields without whitespace. |
| Strings.TokensOfJoin | scripts/soils/procure-isric-soils.py:78 | Fields joined by single spaces split back into the same fields. |
| Strings.SplitLines | scripts/soils/procure-isric-soils.py:77 | `str.splitlines()` gives lines without line breaks. |
| Strings.SplitLinesTerminated | scripts/soils/procure-isric-soils.py:77 | Lines each terminated by a newline read back as the same lines. |
| Strings.TrimLeft | scripts/General/preprocess-dem.py:174 | Stripping leading whitespace never lengthens the string. |
| Strings.TrimRight | scripts/General/preprocess-dem.py:174 | Stripping trailing whitespace never lengthens the string. |
| Strings.NatStr | scripts/General/preprocess-dem.py:274-275 | A natural number's decimal form is a non-empty string of digits. |
| Strings.Lower | scripts/General/preprocess-dem.py:221 | `str.lower()` keeps the length and lowers every character. |
| Strings.DigitsOfNatStr | scripts/General/preprocess-dem.py:274-275 | The decimal digits of n read back as n. |
| Strings.ParseIntStr | scripts/General/preprocess-dem.py:272 | `int(str(i)) == i`. |
| Strings.IntStrInjective | scripts/General/preprocess-dem.py:274-275 | Different integers have different decimal forms. |
| Strings.ParseInts | scripts/General/preprocess-dem.py:174 | When parsing a list succeeds, it gives exactly one integer per string, each the `int()` of that string. |
| Strings.ParseIntsNone | scripts/General/preprocess-dem.py:174 | Parsing a list fails exactly when one of its strings is not an integer. |
| Strings.ParseIntsOfStrs | scripts/General/preprocess-dem.py:174 | The decimal forms of a list read back as the list. |
| Strings.Pad2 | scripts/armenia-esm-netcdf-conversion/convert-daily-esm-netcdf-to-monthly-gtiff.py:113 | `{month:02d}` has at least two digits and reads back as the month. |
| Ranges.RangeIndex | scripts/General/preprocess-dem.py:272 | The k-th element of `range(start, stop, step)` is `start + k*step`. |
| Ranges.RangeLength | scripts/General/preprocess-dem.py:272 | For step > 0 the range is empty exactly when `stop <= start`, and its last element is below stop. |
| Ranges.RangeMember | scripts/General/preprocess-dem.py:272 | For step > 0, x is in the range exactly when `start <= x < stop` and x - start is a multiple of step. |
| Ranges.RangeBoundsNegative | scripts/preprocess-dem.py:200 | For step < 0 every element lies in `(stop, start]`. |
| Ranges.RangeDistinct | scripts/General/preprocess-dem.py:272 | A range has no repeated element. |
| Paths.LastIndex | scripts/soils/procure-isric-soils.py:86 | This is the position of the last occurrence of a character, or -1. |
| Paths.Basename | scripts/soils/procure-isric-soils.py:86 | `os.path.basename` holds no '/'. |
| Paths.RStripSlashes | scripts/soils/procure-isric-soils.py:86 | Trailing slashes are removed from the end only, so the result is a prefix. |
| Paths.Splitext | scripts/soils/procure-isric-soils.py:279 | `os.path.splitext` splits the path into root and extension, which concatenate back to the path. |
| Paths.SplitextShape | scripts/soils/procure-isric-soils.py:279 | The extension is empty, or a '.' followed by neither '/' nor '.'. |
| Paths.BasenameJoin | scripts/soils/procure-isric-soils.py:288-289 | The basename of `join(d, name)` is name. |
| Paths.DirnameJoin | scripts/soils/procure-isric-soils.py:288-289 | The dirname of `join(d, name)` is d. |
| Paths.JoinInjective | scripts/General/preprocess-dem.py:274-275 | Joining relative names to the same directory is injective. |

## Left out

- Raster and array I/O through GDAL, pygeoprocessing and numpy are not modelled. This covers `gdal.Open`, `ReadAsArray`, `WriteArray`, `numpy.load`, projection and geotransform handling, the bounding-box and reprojection arithmetic, and `RasterizeLayer`. Each script's inputs (NetCDF bands, raster blocks, `.npy` tables, the rasterized AOI) become values or arrays passed in. Its outputs are returned values.
- The raster-processing routines are opaque routine tags in the task records. These are BuildVRT, warp, fill pits, flow direction and accumulation, and stream extraction.
- The `taskgraph` library's scheduling is not modelled: the worker pool, skip-if-exists and the behaviour of `close` and `join`. The model records declarations and the closed/joined flags only.
- The pixel-size step at scripts/General/preprocess-dem.py:184 is not modelled. It reads the VRT before `join`, so its result depends on task timing.
- Network and hashing are not modelled. The `requests` responses are a function from URL to text. The BeautifulSoup parse is the list of `SourceFilename` strings. `fetch_raster` and `_digest_file` are not modelled, and a download is recorded as its URL, path and checksum.
- The `@click.argument('aoi')` usage exit is not modelled, at scripts/General/preprocess-dem.py:74 and scripts/preprocess-dem.py:50. Without an AOI argument, click prints usage and exits before `preprocess_dem` runs. The model of those revisions starts from the parsed options.
- IsricSoils.GetRemoteRasterUrls: `node.string` is taken to be a string. The case where BeautifulSoup returns None for a node, and the call then raises, is not modelled.
- IsricSoils.RunMain: `os.path.abspath`, `makedirs` and `mkdir` are not modelled. The cache directory is taken as given, and CSV quoting is not modelled.
- Floating point is not modelled bit-exactly:
  - NetCDF pixels and sums are `real`, and `float32` rounding is not modelled;
  - `numpy.isclose` uses numpy's default tolerances over reals;
  - Link et al. volumes are integers.
- LinkEtAl.BasinIdsToInternal: the basin-id array is taken as integer-valued, so `int(array_value)` is the identity. A float-valued `.npy` would be truncated toward zero, which is not modelled.
- LinkEtAl.Run: when the existing value is checked against TARGET_NODATA, `numpy.isclose` is modelled as exact equality. This is equivalent here because sums of positive volumes are positive and never near the sentinel.
- LulcTransition.ArrayEqualsNodata: the `numpy.isclose(..., equal_nan=True)` branch for floating-point rasters is not modelled. The rasters are integer rasters.
- Strings.ParseIntStr: Python's `int()` also accepts underscores between digits and non-ASCII decimal digits. Neither is modelled. Only optional surrounding whitespace, an optional sign and ASCII digits are.
- Strings.Lower: `str.lower()` is modelled for ASCII letters only.
- Logging, progress percentages, the min/max/mean log lines and `print` are not modelled.
- The `main` of scripts/link-et-al-2020-to-gtiff.py (lines 170-264) is not modelled. Its mode dispatch is broken as written: `str.replace` is called with one argument, `parsed_args._dataset` does not exist, and `os.path.exists` is called on a list.
- The precipitation-units assertion at scripts/armenia-esm-netcdf-conversion/convert-daily-esm-netcdf-to-monthly-gtiff.py:68-72 is modelled as an error value on the metadata item.
- EsmMonthly.SumDays: a band index of 0 or less is modelled as a missing band. Python `datetime` and GDAL would reach the same error through `GetRasterBand` returning None.
- EsmMonthlyLegacy.LegacyMonths: models the month loop with line 56 corrected, as all the conversion members of the older revision do. The loop as written is `MonthAsWritten`, and its pixels hold the last year's sum only (see Findings). Its exceptions and the months it writes are the same.
- EsmMonthlyLegacy.LegacyConvertMonthly: models `main` with line 56 corrected, so the pixels it writes are sums over all the years. As written they hold the last year's sum only.
- EsmMonthlyLegacy.LaterAddsPixelCheck: compares the newer revision with the older one with line 56 corrected, not with the older one as written.
- EsmMonthlyLegacy.LegacyScriptRuns: the outputs it names are those of the corrected `main`. As written, the same months are written under the same names, but with the last year's pixels.
- EsmMonthlyLegacy.LegacyTryRuns: the outputs it names are those of the corrected `main`, as for `LegacyScriptRuns`.
- Calendar: dates are limited to datetime's years 1 to 9999. A day outside this range is an error value.

## Findings

| source | as written | input that shows it | evidently intended | confidence | as-written member | corrected member |
|---|---|---|---|---|---|---|
| scripts/convert-daily-esm-netcdf-to-monthly-gtiff.py:45-56 | `monthly_sum += sum_array` is outside the `for year in years` loop, so each month's result holds only the last year's sum. "mean" then divides that single-year sum by `len(years)`. | years `[y0, y1]`, January, every band value 1.0: the pixel is written as 31.0 | every year's sum is added: 62.0 for "sum", its mean for "mean" | not executed | EsmMonthlyLegacy.SumYearsAsWritten, EsmMonthlyLegacy.LastYearOnly | EsmMonthlyLegacy.LegacyMonth, EsmMonthlyLegacy.LegacyMonths, EsmMonthlyLegacy.LegacyConvertMonthly, EsmMonthlyLegacy.EveryYearCounts |
