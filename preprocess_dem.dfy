/** The first revision of the DEM preprocessing command: the VRT is built
    on the spot rather than as a task, the warp task has no dependencies,
    and the stream-threshold range excludes its stop value. */
module PreprocessDem {
  import opened Wrappers
  import opened Strings
  import opened Ranges
  import opened TaskGraph
  import opened DemChain

  const UrlBase: string := "https://storage.googleapis.com/gef-ckan-public-data"

  /** The only DEM alias of this revision. */
  const KnownDems: map<string, string> := map["SRTM" := UrlBase + "/srtm-v3-1s/srtm-v3-1s.tif"]

  /** The command's options.  `targetUnits` is the unit of the target
      projection, which the script reads from the AOI or the EPSG code. */
  datatype Options = Options(dem: string, tfa: Option<string>, workspace: string,
                             routingMethod: string, resampleMethod: string,
                             targetEpsg: Option<string>, pixelSize: Option<string>,
                             targetUnits: string)

  function Run(o: Options): Plan
  {
    if !EpsgAccepted(o.targetEpsg) then Plan([], Err(EpsgNotInteger), false)
    else if o.dem !in KnownDems then Plan([], Err(UnknownDem), false)
    else
      match ParsePixelSize(o.pixelSize, o.targetUnits)
      case Err(e) => Plan([], Err(e), false)
      case Ok(pixels) =>
        AfterWarp([WarpTask(pixels, o.resampleMethod, [])], o.routingMethod, o.tfa, true, Exclusive)
  }

  /** The command run against a fresh task graph.  The VRT written before
      the first task is foreign code; only its `KeyError` is modelled. */
  method PreprocessDem(o: Options) returns (g: Graph<Stage>, outcome: Result<(), DemError>)
    ensures fresh(g) && g.Valid()
    ensures g.tasks == Run(o).tasks && outcome == Run(o).outcome
    ensures g.closed == Run(o).closed && g.joined == Run(o).closed
  {
    g := new Graph();
    if !EpsgAccepted(o.targetEpsg) {
      outcome := Err(EpsgNotInteger);
      return;
    }
    if o.dem !in KnownDems {
      outcome := Err(UnknownDem);
      return;
    }
    var pixels := ParsePixelSize(o.pixelSize, o.targetUnits);
    if pixels.Err? {
      outcome := Err(pixels.error);
      return;
    }
    var warp := g.AddTask(WarpTask(pixels.value, o.resampleMethod, []));
    assert g.tasks == Prefix(o);
    outcome := BuildAfterWarp(g, o.routingMethod, o.tfa, true, Exclusive);
  }

  predicate ReachesWarp(o: Options)
  {
    EpsgAccepted(o.targetEpsg) && o.dem in KnownDems && ParsePixelSize(o.pixelSize, o.targetUnits).Ok?
  }

  /** The declarations before the chain: only the warp task. */
  function Prefix(o: Options): seq<Task<Stage>>
    requires ReachesWarp(o)
  {
    [WarpTask(ParsePixelSize(o.pixelSize, o.targetUnits).value, o.resampleMethod, [])]
  }

  /** Every dependency points to an earlier task. */
  lemma PlanAcyclic(o: Options)
    ensures DepsPrecede(Run(o).tasks)
  {
    if ReachesWarp(o) {
      AfterWarpAcyclic(Prefix(o), o.routingMethod, o.tfa, true, Exclusive);
    }
  }

  /** The graph is closed and joined exactly on success. */
  lemma PlanClosed(o: Options)
    ensures Run(o).closed <==> Run(o).outcome.Ok?
  {
    if ReachesWarp(o) {
      AfterWarpClosed(Prefix(o), o.routingMethod, o.tfa, true, Exclusive);
    }
  }

  /** No two tasks write the same path in the workspace. */
  lemma PlanTargetsDistinct(o: Options)
    ensures DistinctTargets(Run(o).tasks)
    ensures var ts := Run(o).tasks;
      forall i, j :: 0 <= i < j < |ts| ==>
        StagePath(o.workspace, o.dem, ts[i].targets[0]) != StagePath(o.workspace, o.dem, ts[j].targets[0])
  {
    if ReachesWarp(o) {
      AfterWarpDistinct(Prefix(o), o.routingMethod, o.tfa, true, Exclusive);
    }
    DistinctTargetPaths(Run(o).tasks, o.workspace, o.dem);
  }

  /** Where each error stops the run: a bad EPSG code, an unknown DEM or a
      bad pixel size before any task, an unknown routing after the fill
      task, and a bad threshold string after the accumulation task. */
  lemma ErrorPoints(o: Options)
    ensures var p := Run(o);
      (p.outcome == Err(EpsgNotInteger) <==> !EpsgAccepted(o.targetEpsg)) &&
      (p.outcome == Err(UnknownDem) <==> EpsgAccepted(o.targetEpsg) && o.dem !in KnownDems) &&
      (p.outcome.Err? && p.outcome.error in {EpsgNotInteger, UnknownDem, PixelSizeNotInteger, UnitsNotMetres} ==>
        p.tasks == []) &&
      (p.outcome == Err(UnknownRouting) ==> |p.tasks| == 2) &&
      (p.outcome.Err? && p.outcome.error in {TfaNotThreeParts, TfaNotInteger, TfaZeroStep} ==>
        |p.tasks| == 4)
  {
    if ReachesWarp(o) {
      AfterWarpChain(Prefix(o), o.routingMethod, o.tfa, true, Exclusive);
      if ParseRouting(o.routingMethod).Some? && o.tfa.Some? && o.tfa.value != "" {
        AfterWarpTfaError(Prefix(o), o.routingMethod, o.tfa, true, Exclusive);
      }
    }
  }

  /** The warp task comes first and depends on nothing; fill pits, flow
      direction and flow accumulation follow, each depending on the one
      before. */
  lemma PlanChain(o: Options)
    requires ReachesWarp(o) && ParseRouting(o.routingMethod).Some?
    ensures var p := Run(o);
      var r := ParseRouting(o.routingMethod).value;
      |p.tasks| >= 4 &&
      p.tasks[0].routine == WarpRaster && p.tasks[0].deps == [] &&
      p.tasks[0].args[1] == Pixels(ParsePixelSize(o.pixelSize, o.targetUnits).value) &&
      p.tasks[1].routine == FillPits && p.tasks[1].deps == [0] &&
      p.tasks[2].routine == (if r == D8 then FlowDirD8 else FlowDirMfd) && p.tasks[2].deps == [1] &&
      p.tasks[3].routine == (if r == D8 then FlowAccumulationD8 else FlowAccumulationMfd) &&
      p.tasks[3].deps == [2]
  {
    AfterWarpChain(Prefix(o), o.routingMethod, o.tfa, true, Exclusive);
    assert Run(o).tasks[..1] == Prefix(o);
    assert Run(o).tasks[0] == Prefix(o)[0];
  }

  /** With `start:stop:step`, one stream task per value of
      `range(start, stop, step)`, each depending on the accumulation task;
      the stop value itself never gets a stream task, and every threshold
      lies on the start side of stop. */
  lemma ExclusiveThresholds(o: Options, start: int, stop: int, step: int)
    requires ReachesWarp(o) && ParseRouting(o.routingMethod).Some?
    requires o.tfa.Some? && o.tfa.value != "" && ParseTfa(o.tfa.value) == Ok((start, stop, step))
    requires step != 0
    ensures var p := Run(o);
      var values := Range(start, stop, step);
      p.outcome.Ok? && |p.tasks| == 4 + |values| &&
      (forall k :: 0 <= k < |values| ==>
        p.tasks[4 + k].deps == [3] && p.tasks[4 + k].targets == [Streams(values[k])] &&
        (if step > 0 then start <= values[k] < stop else stop < values[k] <= start)) &&
      stop !in values
  {
    var r := ParseRouting(o.routingMethod).value;
    AfterWarpStreams(Prefix(o), o.routingMethod, o.tfa, true, Exclusive, r, start, stop, step);
    var values := Range(start, stop, step);
    forall k | 0 <= k < |values|
      ensures if step > 0 then start <= values[k] < stop else stop < values[k] <= start
    {
      if step > 0 {
        RangeMember(start, stop, step, values[k]);
      } else {
        RangeBoundsNegative(start, stop, step, values[k]);
      }
    }
    if stop in values {
      if step > 0 {
        RangeMember(start, stop, step, stop);
      } else {
        RangeBoundsNegative(start, stop, step, stop);
      }
    }
  }
}
