/** The part of the DEM preprocessing pipeline that all three script
    revisions share once the warp task exists: pit filling, the routing
    dispatch, flow direction and accumulation, the stream-threshold range
    and one stream-extraction task per threshold, then close and join. */
module DemChain {
  import opened Wrappers
  import opened Strings
  import opened Paths
  import opened Ranges
  import opened TaskGraph

  datatype Routing = D8 | Mfd

  /** The lower-cased routing string, as it appears in file names. */
  function RoutingName(r: Routing): string
  {
    if r == D8 then "d8" else "mfd"
  }

  /** `routing_method.lower()` compared with 'd8' and 'mfd'. */
  function ParseRouting(name: string): (r: Option<Routing>)
    ensures r.Some? ==> RoutingName(r.value) == Lower(name)
    ensures r.None? ==> Lower(name) != "d8" && Lower(name) != "mfd"
  {
    var m := Lower(name);
    if m == "d8" then Some(D8) else if m == "mfd" then Some(Mfd) else None
  }

  /** Why a run stops.  Every case is an exception in the scripts. */
  datatype DemError =
    | EpsgNotInteger        // ValueError from int(target_epsg)
    | UnknownDem            // KeyError from KNOWN_DEMS[dem]
    | PixelSizeNotInteger   // ValueError from int() on a pixel_size part
    | UnitsNotMetres        // no pixel size and non-metre target units
    | UnknownRouting        // routing method neither d8 nor mfd
    | TfaNotThreeParts      // unpacking tfa.split(':') into three names
    | TfaNotInteger         // ValueError from int() on a tfa part
    | TfaZeroStep           // ValueError from range() with step 0
    | MissingAoi            // IndexError from sys.argv[1] when no AOI path is given

  /** What a run declares: its tasks in order, how it ends, and whether
      it reached `graph.close()` and `graph.join()`. */
  datatype Plan = Plan(tasks: seq<Task<Stage>>, outcome: Result<(), DemError>, closed: bool)

  /** The intermediate and final rasters, each written by one task. */
  datatype Stage =
    | Vrt
    | Warped
    | Filled
    | FlowDir(routing: Routing)
    | FlowAccum(routing: Routing)
    | Streams(tfa: int)

  /** The file name of each stage inside the workspace. */
  function StageName(dem: string, s: Stage): string
  {
    match s
    case Vrt => "wgs84-" + dem + ".vrt"
    case Warped => "warped-" + dem + ".tif"
    case Filled => "pitfilled-" + dem + ".tif"
    case FlowDir(r) => "flowdir-" + RoutingName(r) + "-" + dem + ".tif"
    case FlowAccum(r) => "flowaccum-" + RoutingName(r) + "-" + dem + ".tif"
    case Streams(t) => "tfa-" + dem + "-" + IntStr(t) + ".tif"
  }

  function StagePath(workspace: string, dem: string, s: Stage): string
  {
    Join(workspace, StageName(dem, s))
  }

  /** Different stages never share a file: the names differ in their
      leading word, the routing word or the threshold. */
  lemma StageNamesDiffer(dem: string, s: Stage, t: Stage)
    requires s != t
    ensures StageName(dem, s) != StageName(dem, t)
  {
    var a, b := StageName(dem, s), StageName(dem, t);
    if s.FlowDir? && t.FlowDir? {
      assert a[8] != b[8];
    } else if s.FlowAccum? && t.FlowAccum? {
      assert a[10] != b[10];
    } else if s.Streams? && t.Streams? {
      if a == b {
        CancelAffixes("tfa-" + dem + "-", IntStr(s.tfa), IntStr(t.tfa), ".tif");
        IntStrInjective(s.tfa, t.tfa);
      }
    } else {
      assert a[0] != b[0] || a[1] != b[1] || a[4] != b[4];
    }
  }

  lemma StagePathInjective(workspace: string, dem: string, s: Stage, t: Stage)
    requires StagePath(workspace, dem, s) == StagePath(workspace, dem, t)
    ensures s == t
  {
    JoinInjective(workspace, StageName(dem, s), StageName(dem, t));
    if s != t {
      StageNamesDiffer(dem, s, t);
    }
  }

  /** Each task writes one file, and no two tasks write the same one. */
  predicate DistinctTargets(tasks: seq<Task<Stage>>)
  {
    (forall i :: 0 <= i < |tasks| ==> |tasks[i].targets| == 1) &&
    forall i, j :: 0 <= i < j < |tasks| ==> tasks[i].targets[0] != tasks[j].targets[0]
  }

  /** Rendered in the workspace, the target paths of such tasks differ too. */
  lemma DistinctTargetPaths(tasks: seq<Task<Stage>>, workspace: string, dem: string)
    requires DistinctTargets(tasks)
    ensures forall i, j :: 0 <= i < j < |tasks| ==>
      StagePath(workspace, dem, tasks[i].targets[0]) != StagePath(workspace, dem, tasks[j].targets[0])
  {
    forall i, j | 0 <= i < j < |tasks|
      ensures StagePath(workspace, dem, tasks[i].targets[0]) != StagePath(workspace, dem, tasks[j].targets[0])
    {
      if StagePath(workspace, dem, tasks[i].targets[0]) == StagePath(workspace, dem, tasks[j].targets[0]) {
        StagePathInjective(workspace, dem, tasks[i].targets[0], tasks[j].targets[0]);
      }
    }
  }

  function WarpTask(pixels: PixelSize, resample: string, deps: seq<nat>): Task<Stage>
  {
    Task("Fetch and warp DEM", WarpRaster,
         [File(Vrt), Pixels(pixels), File(Warped), Text(resample)], [Warped], deps)
  }

  function FillPitsTask(warp: nat): Task<Stage>
  {
    Task("Fill pits", FillPits, [Band(Warped, 1), File(Filled)], [Filled], [warp])
  }

  function FlowDirTask(r: Routing, fill: nat): Task<Stage>
  {
    Task("Flow direction", if r == D8 then FlowDirD8 else FlowDirMfd,
         [Band(Filled, 1), File(FlowDir(r))], [FlowDir(r)], [fill])
  }

  /** The accumulation task reuses the name 'Flow direction'. */
  function FlowAccumTask(r: Routing, dir: nat): Task<Stage>
  {
    Task("Flow direction", if r == D8 then FlowAccumulationD8 else FlowAccumulationMfd,
         [Band(FlowDir(r), 1), File(FlowAccum(r))], [FlowAccum(r)], [dir])
  }

  /** D8 extraction reads the accumulation; MFD also reads the direction. */
  function StreamTask(r: Routing, tfa: int, accum: nat): Task<Stage>
  {
    if r == D8 then
      Task("D8 stream extraction", ExtractStreamsD8,
           [Band(FlowAccum(r), 1), Int(tfa), File(Streams(tfa))], [Streams(tfa)], [accum])
    else
      Task("MFD stream extraction", ExtractStreamsMfd,
           [Band(FlowAccum(r), 1), Band(FlowDir(r), 1), Int(tfa), File(Streams(tfa))],
           [Streams(tfa)], [accum])
  }

  /** One stream task per threshold, in range order. */
  function StreamTasks(r: Routing, values: seq<int>, accum: nat): (ts: seq<Task<Stage>>)
    ensures |ts| == |values|
  {
    seq(|values|, k requires 0 <= k < |values| => StreamTask(r, values[k], accum))
  }

  /** `tfa.split(":")` unpacked into three names, then `int()` of each. */
  function ParseTfa(text: string): (r: Result<(int, int, int), DemError>)
    ensures r.Ok? ==> |Split(text, ':')| == 3
    ensures |Split(text, ':')| != 3 ==> r == Err(TfaNotThreeParts)
  {
    var parts := Split(text, ':');
    if |parts| != 3 then Err(TfaNotThreeParts)
    else
      match ParseInts(parts)
      case None => Err(TfaNotInteger)
      case Some(v) => Ok((v[0], v[1], v[2]))
  }

  lemma SplitThree(x: string, y: string, z: string)
    requires ':' !in x && ':' !in y && ':' !in z
    ensures Split(x + ":" + y + ":" + z, ':') == [x, y, z]
  {
    var parts := [x, y, z];
    assert JoinWith(parts, ':') == x + ":" + y + ":" + z by {
      assert JoinWith(parts[2..], ':') == z;
    }
    SplitJoin(parts, ':');
  }

  /** `start:stop:step` written with `str()` parses back to its numbers. */
  lemma ParseTfaOfInts(start: int, stop: int, step: int)
    ensures ParseTfa(IntStr(start) + ":" + IntStr(stop) + ":" + IntStr(step)) == Ok((start, stop, step))
  {
    var parts := [IntStr(start), IntStr(stop), IntStr(step)];
    IntStrChars(start, ':');
    IntStrChars(stop, ':');
    IntStrChars(step, ':');
    SplitThree(IntStr(start), IntStr(stop), IntStr(step));
    ParseIntsOfStrs(parts, [start, stop, step]);
  }

  /** The newest revision adds one to the stop so that it is included. */
  datatype RangeEnd = Inclusive | Exclusive

  function TfaValues(start: int, stop: int, step: int, end: RangeEnd): seq<int>
    requires step != 0
  {
    Range(start, if end == Inclusive then stop + 1 else stop, step)
  }

  /** `int(target_epsg)` when an EPSG code is given. */
  predicate EpsgAccepted(targetEpsg: Option<string>)
  {
    targetEpsg.None? || ParseInt(targetEpsg.value).Some?
  }

  /** The pixel-size option: a string is split on ',' and each part
      parsed with `int()`; without one the size is derived from the
      source pixel at the AOI's latitude, which needs metre units. */
  function ParsePixelSize(pixelSize: Option<string>, targetUnits: string): (r: Result<PixelSize, DemError>)
    ensures r.Ok? && r.value.Explicit? ==> |r.value.xy| >= 1
  {
    match pixelSize
    case Some(text) =>
      var xs := ParseInts(Split(text, ','));
      if xs.None? then Err(PixelSizeNotInteger) else Ok(Explicit(xs.value))
    case None =>
      if targetUnits in {"m", "meter", "metre"} then Ok(FromLatitude) else Err(UnitsNotMetres)
  }

  /** `--pixel_size=X,Y` gives exactly `[X, Y]`. */
  lemma PixelSizeOfInts(x: int, y: int, targetUnits: string)
    ensures ParsePixelSize(Some(IntStr(x) + "," + IntStr(y)), targetUnits) == Ok(Explicit([x, y]))
  {
    IntStrChars(x, ',');
    IntStrChars(y, ',');
    var parts := [IntStr(x), IntStr(y)];
    assert JoinWith(parts, ',') == IntStr(x) + "," + IntStr(y) by {
      assert JoinWith(parts[1..], ',') == IntStr(y);
    }
    SplitJoin(parts, ',');
    ParseIntsOfStrs(parts, [x, y]);
  }

  /** Without a size, the run goes on exactly for metre units; with one,
      whatever the units, it fails exactly when the list comprehension
      over the comma-separated parts fails (see `ParseIntsNone`). */
  lemma PixelSizeCases(pixelSize: Option<string>, targetUnits: string)
    ensures pixelSize.None? ==>
      (ParsePixelSize(pixelSize, targetUnits).Ok? <==> targetUnits in {"m", "meter", "metre"})
    ensures pixelSize.Some? ==>
      (ParsePixelSize(pixelSize, targetUnits) == Err(PixelSizeNotInteger) <==>
       ParseInts(Split(pixelSize.value, ',')).None?)
  {
  }

  /** Fill pits, flow direction and flow accumulation after the warp
      task `done[|done| - 1]`, each depending on the task before it. */
  function Chain(done: seq<Task<Stage>>, r: Routing): (c: seq<Task<Stage>>)
    requires |done| >= 1
    ensures |c| == |done| + 3
  {
    var w := |done| - 1;
    done + [FillPitsTask(w), FlowDirTask(r, w + 1), FlowAccumTask(r, w + 2)]
  }

  /** Everything after the warp task.  `done` is what the revision has
      declared so far, the warp task last; `guarded` says whether an empty
      or missing threshold string ends the run early. */
  function AfterWarp(done: seq<Task<Stage>>, routing: string, tfa: Option<string>,
                     guarded: bool, end: RangeEnd): Plan
    requires |done| >= 1
    requires guarded || tfa.Some?
  {
    match ParseRouting(routing)
    case None => Plan(done + [FillPitsTask(|done| - 1)], Err(UnknownRouting), false)
    case Some(r) => AfterChain(Chain(done, r), r, tfa, guarded, end)
  }

  /** The threshold handling after flow accumulation, the last task of
      `chain`. */
  function AfterChain(chain: seq<Task<Stage>>, r: Routing, tfa: Option<string>,
                      guarded: bool, end: RangeEnd): Plan
    requires |chain| >= 1
    requires guarded || tfa.Some?
  {
    if guarded && (tfa.None? || tfa.value == "") then Plan(chain, Ok(()), true)
    else
      match ParseTfa(tfa.value)
      case Err(e) => Plan(chain, Err(e), false)
      case Ok((start, stop, step)) =>
        if step == 0 then Plan(chain, Err(TfaZeroStep), false)
        else Plan(chain + StreamTasks(r, TfaValues(start, stop, step, end), |chain| - 1), Ok(()), true)
  }

  /** Appending tasks whose dependencies are all earlier keeps the
      declaration order topological. */
  lemma AppendAcyclic(a: seq<Task<Stage>>, b: seq<Task<Stage>>)
    requires DepsPrecede(a)
    requires forall k, j :: 0 <= k < |b| && 0 <= j < |b[k].deps| ==> b[k].deps[j] < |a| + k
    ensures DepsPrecede(a + b)
  {
    var c := a + b;
    forall i, j | 0 <= i < |c| && 0 <= j < |c[i].deps|
      ensures c[i].deps[j] < i
    {
      if i >= |a| {
        assert c[i] == b[i - |a|];
      }
    }
  }

  /** The stream tasks depend on the last task of the chain. */
  lemma AfterChainAcyclic(chain: seq<Task<Stage>>, r: Routing, tfa: Option<string>,
                          guarded: bool, end: RangeEnd)
    requires |chain| >= 1 && (guarded || tfa.Some?)
    requires DepsPrecede(chain)
    ensures DepsPrecede(AfterChain(chain, r, tfa, guarded, end).tasks)
  {
    var p := AfterChain(chain, r, tfa, guarded, end);
    if |p.tasks| > |chain| {
      var s := p.tasks[|chain|..];
      assert p.tasks == chain + s;
      AppendAcyclic(chain, s);
    }
  }

  /** The chain only depends backwards, so it keeps a graph acyclic. */
  lemma AfterWarpAcyclic(done: seq<Task<Stage>>, routing: string, tfa: Option<string>,
                         guarded: bool, end: RangeEnd)
    requires |done| >= 1 && (guarded || tfa.Some?)
    requires DepsPrecede(done)
    ensures DepsPrecede(AfterWarp(done, routing, tfa, guarded, end).tasks)
  {
    var w := |done| - 1;
    match ParseRouting(routing)
    case None =>
      AppendAcyclic(done, [FillPitsTask(w)]);
    case Some(r) =>
      var c := Chain(done, r);
      AppendAcyclic(done, [FillPitsTask(w), FlowDirTask(r, w + 1), FlowAccumTask(r, w + 2)]);
      AfterChainAcyclic(c, r, tfa, guarded, end);
  }

  /** The run closes and joins the graph exactly when it succeeds. */
  lemma AfterWarpClosed(done: seq<Task<Stage>>, routing: string, tfa: Option<string>,
                        guarded: bool, end: RangeEnd)
    requires |done| >= 1 && (guarded || tfa.Some?)
    ensures var p := AfterWarp(done, routing, tfa, guarded, end);
      p.closed <==> p.outcome.Ok?
  {
  }

  /** The threshold handling only appends to the chain. */
  lemma AfterChainKeeps(chain: seq<Task<Stage>>, r: Routing, tfa: Option<string>,
                        guarded: bool, end: RangeEnd)
    requires |chain| >= 1 && (guarded || tfa.Some?)
    ensures var p := AfterChain(chain, r, tfa, guarded, end);
      |p.tasks| >= |chain| && p.tasks[..|chain|] == chain && p.outcome != Err(UnknownRouting)
  {
    var p := AfterChain(chain, r, tfa, guarded, end);
    if |p.tasks| > |chain| {
      assert p.tasks[..|chain|] == chain;
    }
  }

  /** What was declared before is kept; the fill task follows and depends
      on the warp task; an unknown routing stops the run right there;
      otherwise flow direction and accumulation follow, each depending on
      the task before. */
  lemma AfterWarpChain(done: seq<Task<Stage>>, routing: string, tfa: Option<string>,
                       guarded: bool, end: RangeEnd)
    requires |done| >= 1 && (guarded || tfa.Some?)
    ensures var p := AfterWarp(done, routing, tfa, guarded, end);
      var w := |done| - 1;
      |p.tasks| >= |done| + 1 && p.tasks[..|done|] == done &&
      p.tasks[w + 1] == FillPitsTask(w) &&
      (p.outcome == Err(UnknownRouting) <==> ParseRouting(routing).None?) &&
      (ParseRouting(routing).None? ==> |p.tasks| == |done| + 1) &&
      (ParseRouting(routing).Some? ==>
        var r := ParseRouting(routing).value;
        |p.tasks| >= |done| + 3 &&
        p.tasks[w + 2] == FlowDirTask(r, w + 1) &&
        p.tasks[w + 3] == FlowAccumTask(r, w + 2))
  {
    var p := AfterWarp(done, routing, tfa, guarded, end);
    match ParseRouting(routing)
    case None =>
      assert p.tasks == done + [FillPitsTask(|done| - 1)];
    case Some(r) =>
      var c := Chain(done, r);
      AfterChainKeeps(c, r, tfa, guarded, end);
      assert p.tasks[..|done|] == c[..|done|] == done;
      assert p.tasks[|done|..|done| + 3] == c[|done|..];
  }

  /** Past the guard, each stream task extracts streams for the
      corresponding threshold and depends on the chain's last task. */
  lemma AfterChainStreams(chain: seq<Task<Stage>>, r: Routing, tfa: Option<string>,
                          guarded: bool, end: RangeEnd, start: int, stop: int, step: int)
    requires |chain| >= 1 && (guarded || tfa.Some?)
    requires tfa.Some? && tfa.value != "" && ParseTfa(tfa.value) == Ok((start, stop, step))
    requires step != 0
    ensures var p := AfterChain(chain, r, tfa, guarded, end);
      var values := TfaValues(start, stop, step, end);
      p.outcome.Ok? && p.tasks == chain + StreamTasks(r, values, |chain| - 1)
  {
  }

  /** Past the guard, the run is the chain followed by one stream task per
      threshold, all depending on the accumulation task. */
  lemma AfterWarpChainStreams(done: seq<Task<Stage>>, routing: string, tfa: Option<string>,
                              guarded: bool, end: RangeEnd,
                              r: Routing, start: int, stop: int, step: int)
    requires |done| >= 1 && (guarded || tfa.Some?)
    requires ParseRouting(routing) == Some(r)
    requires tfa.Some? && tfa.value != "" && ParseTfa(tfa.value) == Ok((start, stop, step))
    requires step != 0
    ensures var p := AfterWarp(done, routing, tfa, guarded, end);
      p.outcome.Ok? &&
      p.tasks == Chain(done, r) + StreamTasks(r, TfaValues(start, stop, step, end), |done| + 2)
  {
    var c := Chain(done, r);
    assert AfterWarp(done, routing, tfa, guarded, end) == AfterChain(c, r, tfa, guarded, end);
    AfterChainStreams(c, r, tfa, guarded, end, start, stop, step);
  }

  /** Every task after flow accumulation extracts streams for the
      corresponding threshold of the range, depends on the accumulation
      task alone, writes that threshold's raster and uses the routing's
      extractor; there are as many as the range has values. */
  lemma AfterWarpStreams(done: seq<Task<Stage>>, routing: string, tfa: Option<string>,
                         guarded: bool, end: RangeEnd,
                         r: Routing, start: int, stop: int, step: int)
    requires |done| >= 1 && (guarded || tfa.Some?)
    requires ParseRouting(routing) == Some(r)
    requires tfa.Some? && tfa.value != "" && ParseTfa(tfa.value) == Ok((start, stop, step))
    requires step != 0
    ensures var p := AfterWarp(done, routing, tfa, guarded, end);
      var values := TfaValues(start, stop, step, end);
      var a := |done| + 2;
      p.outcome.Ok? &&
      |p.tasks| == |done| + 3 + |values| &&
      forall k :: 0 <= k < |values| ==>
        p.tasks[a + 1 + k] == StreamTask(r, values[k], a) &&
        p.tasks[a + 1 + k].deps == [a] &&
        p.tasks[a + 1 + k].routine == (if r == D8 then ExtractStreamsD8 else ExtractStreamsMfd) &&
        Int(values[k]) in p.tasks[a + 1 + k].args &&
        p.tasks[a + 1 + k].targets == [Streams(values[k])]
  {
    var p := AfterWarp(done, routing, tfa, guarded, end);
    var values := TfaValues(start, stop, step, end);
    var a := |done| + 2;
    var c := Chain(done, r);
    var s := StreamTasks(r, values, a);
    AfterWarpChainStreams(done, routing, tfa, guarded, end, r, start, stop, step);
    forall k | 0 <= k < |values|
      ensures p.tasks[a + 1 + k] == StreamTask(r, values[k], a)
      ensures p.tasks[a + 1 + k].deps == [a]
      ensures p.tasks[a + 1 + k].routine == (if r == D8 then ExtractStreamsD8 else ExtractStreamsMfd)
      ensures Int(values[k]) in p.tasks[a + 1 + k].args
      ensures p.tasks[a + 1 + k].targets == [Streams(values[k])]
    {
      assert p.tasks[a + 1 + k] == s[k];
      StreamTaskShape(r, values[k], a);
    }
  }

  /** A stream task depends on the accumulation task alone, passes its
      threshold and writes that threshold's raster. */
  lemma StreamTaskShape(r: Routing, v: int, a: nat)
    ensures var t := StreamTask(r, v, a);
      t.deps == [a] && t.routine == (if r == D8 then ExtractStreamsD8 else ExtractStreamsMfd) &&
      Int(v) in t.args && t.targets == [Streams(v)]
  {
    var t := StreamTask(r, v, a);
    if r == D8 {
      assert t.args[1] == Int(v);
    } else {
      assert t.args[2] == Int(v);
    }
  }

  /** A bad threshold string stops the run after the accumulation task,
      before any stream task and without closing the graph. */
  lemma AfterWarpTfaError(done: seq<Task<Stage>>, routing: string, tfa: Option<string>,
                          guarded: bool, end: RangeEnd)
    requires |done| >= 1 && (guarded || tfa.Some?)
    requires ParseRouting(routing).Some?
    requires tfa.Some? && tfa.value != ""
    ensures var p := AfterWarp(done, routing, tfa, guarded, end);
      (ParseTfa(tfa.value).Err? ==> p.outcome == Err(ParseTfa(tfa.value).error) && |p.tasks| == |done| + 3) &&
      (|Split(tfa.value, ':')| != 3 ==> p.outcome == Err(TfaNotThreeParts)) &&
      (ParseTfa(tfa.value).Ok? && ParseTfa(tfa.value).value.2 == 0 ==>
        p.outcome == Err(TfaZeroStep) && |p.tasks| == |done| + 3)
  {
  }

  /** Stream tasks for distinct thresholds write distinct files, none of
      them one the chain already writes. */
  lemma AppendStreamsDistinct(c: seq<Task<Stage>>, r: Routing, values: seq<int>, accum: nat)
    requires DistinctTargets(c)
    requires forall i :: 0 <= i < |c| ==> !c[i].targets[0].Streams?
    requires forall i, j :: 0 <= i < j < |values| ==> values[i] != values[j]
    ensures DistinctTargets(c + StreamTasks(r, values, accum))
  {
    var s := StreamTasks(r, values, accum);
    var t := c + s;
    forall i | 0 <= i < |t|
      ensures |t[i].targets| == 1
    {
      if i >= |c| {
        assert t[i] == s[i - |c|];
      }
    }
    forall i, j | 0 <= i < j < |t|
      ensures t[i].targets[0] != t[j].targets[0]
    {
      if j >= |c| {
        assert t[j] == s[j - |c|];
        if i >= |c| {
          assert t[i] == s[i - |c|];
        } else {
          assert t[i] == c[i];
        }
      }
    }
  }

  /** No two tasks write the same file, given that what was declared
      before the chain only wrote the VRT and the warped raster. */
  lemma AfterWarpDistinct(done: seq<Task<Stage>>, routing: string, tfa: Option<string>,
                          guarded: bool, end: RangeEnd)
    requires |done| >= 1 && (guarded || tfa.Some?)
    requires DistinctTargets(done)
    requires forall i :: 0 <= i < |done| ==> done[i].targets[0] in {Vrt, Warped}
    ensures DistinctTargets(AfterWarp(done, routing, tfa, guarded, end).tasks)
  {
    if r :| ParseRouting(routing) == Some(r) {
      var c := Chain(done, r);
      assert DistinctTargets(c) by {
        forall i, j | 0 <= i < j < |c|
          ensures c[i].targets[0] != c[j].targets[0]
        {
          if j >= |done| && i < |done| {
            assert c[i] == done[i];
          }
        }
      }
      assert forall i :: 0 <= i < |c| ==> !c[i].targets[0].Streams? by {
        forall i | 0 <= i < |c|
          ensures !c[i].targets[0].Streams?
        {
          if i < |done| {
            assert c[i] == done[i];
          }
        }
      }
      var q := ParseTfa(if tfa.Some? then tfa.value else "");
      if !(guarded && (tfa.None? || tfa.value == "")) && q.Ok? && q.value.2 != 0 {
        var (start, stop, step) := q.value;
        RangeDistinct(start, if end == Inclusive then stop + 1 else stop, step);
        AppendStreamsDistinct(c, r, TfaValues(start, stop, step, end), |c| - 1);
      }
    } else {
      var p := AfterWarp(done, routing, tfa, guarded, end);
      assert p.tasks == done + [FillPitsTask(|done| - 1)];
    }
  }

  /** Declares the stream tasks one threshold at a time, as the scripts'
      `for tfa in range(...)` loop does. */
  method AddStreamTasks(g: Graph<Stage>, r: Routing, values: seq<int>, accum: nat)
    requires g.Valid() && !g.closed && accum < |g.tasks|
    modifies g
    ensures g.Valid() && !g.closed && g.joined == old(g.joined)
    ensures g.tasks == old(g.tasks) + StreamTasks(r, values, accum)
  {
    var k := 0;
    while k < |values|
      invariant 0 <= k <= |values|
      invariant g.Valid() && !g.closed && g.joined == old(g.joined)
      invariant g.tasks == old(g.tasks) + StreamTasks(r, values[..k], accum)
    {
      var _ := g.AddTask(StreamTask(r, values[k], accum));
      assert values[..k + 1] == values[..k] + [values[k]];
      k := k + 1;
    }
    assert values[..k] == values;
  }

  /** The statements after the warp task, run against a task graph. */
  method BuildAfterWarp(g: Graph<Stage>, routing: string, tfa: Option<string>,
                        guarded: bool, end: RangeEnd)
    returns (outcome: Result<(), DemError>)
    requires g.Valid() && !g.closed && !g.joined && |g.tasks| >= 1
    requires guarded || tfa.Some?
    modifies g
    ensures var p := AfterWarp(old(g.tasks), routing, tfa, guarded, end);
      g.Valid() && g.tasks == p.tasks && outcome == p.outcome &&
      g.closed == p.closed && g.joined == p.closed
  {
    var warp := |g.tasks| - 1;
    var fill := g.AddTask(FillPitsTask(warp));
    var parsedRouting := ParseRouting(routing);
    if parsedRouting.None? {
      return Err(UnknownRouting);
    }
    var r := parsedRouting.value;
    var dir := g.AddTask(FlowDirTask(r, fill));
    var accum := g.AddTask(FlowAccumTask(r, dir));
    assert g.tasks == Chain(old(g.tasks), r);
    outcome := BuildAfterChain(g, r, tfa, guarded, end);
  }

  /** The threshold handling, once flow accumulation is the last task. */
  method BuildAfterChain(g: Graph<Stage>, r: Routing, tfa: Option<string>,
                         guarded: bool, end: RangeEnd)
    returns (outcome: Result<(), DemError>)
    requires g.Valid() && !g.closed && !g.joined && |g.tasks| >= 1
    requires guarded || tfa.Some?
    modifies g
    ensures var p := AfterChain(old(g.tasks), r, tfa, guarded, end);
      g.Valid() && g.tasks == p.tasks && outcome == p.outcome &&
      g.closed == p.closed && g.joined == p.closed
  {
    var accum := |g.tasks| - 1;
    if guarded && (tfa.None? || tfa.value == "") {
      g.Close();
      g.Join();
      return Ok(());
    }
    var parsed := ParseTfa(tfa.value);
    if parsed.Err? {
      return Err(parsed.error);
    }
    var (start, stop, step) := parsed.value;
    if step == 0 {
      return Err(TfaZeroStep);
    }
    AddStreamTasks(g, r, TfaValues(start, stop, step, end), accum);
    g.Close();
    g.Join();
    outcome := Ok(());
  }
}
