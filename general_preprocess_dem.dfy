/** The newest revision of the DEM preprocessing command: a VRT task for a
    known DEM, a warp task, the shared hydrology chain, and stream
    extraction for an inclusive range of thresholds when one is given. */
module GeneralPreprocessDem {
  import opened Wrappers
  import opened Strings
  import opened Ranges
  import opened TaskGraph
  import opened DemChain

  const UrlBase: string := "https://storage.googleapis.com/natcap-data-cache/global"

  /** The DEM aliases and the URLs of their layers. */
  const KnownDems: map<string, string> := map[
    "SRTM" := UrlBase + "/nasa-srtm-v3-1s/srtm-v3-1s.tif",
    "ASTER" := UrlBase + "/aster-v3-1s/aster-v3-1s.tif",
    "NASA_HGT" := UrlBase + "/hasa-hgt-v1-1s/hasa-hgt-v1-1s.tif"
  ]

  /** The command's options.  `targetUnits` is the unit of the target
      projection, which the script reads from the AOI or the EPSG code. */
  datatype Options = Options(dem: string, tfa: Option<string>, workspace: string,
                             routingMethod: string, resampleMethod: string,
                             targetEpsg: Option<string>, pixelSize: Option<string>,
                             targetUnits: string)

  /** The option defaults of the command line. */
  function Defaults(targetUnits: string): Options
  {
    Options("SRTM", None, "preprocess-dem-workspace", "d8", "near", None, None, targetUnits)
  }

  /** The VRT is written by a task of its own, with no dependencies. */
  function VrtTask(url: string): Task<Stage>
  {
    Task("Build VRT", WriteVrt, [Text(url), File(Vrt)], [Vrt], [])
  }

  function Run(o: Options): Plan
  {
    if !EpsgAccepted(o.targetEpsg) then Plan([], Err(EpsgNotInteger), false)
    else if o.dem !in KnownDems then Plan([], Err(UnknownDem), false)
    else
      var vrt := VrtTask(KnownDems[o.dem]);
      match ParsePixelSize(o.pixelSize, o.targetUnits)
      case Err(e) => Plan([vrt], Err(e), false)
      case Ok(pixels) =>
        AfterWarp([vrt, WarpTask(pixels, o.resampleMethod, [0])], o.routingMethod, o.tfa, true, Inclusive)
  }

  /** The command run against a fresh task graph. */
  method PreprocessDem(o: Options) returns (g: Graph<Stage>, outcome: Result<(), DemError>)
    ensures fresh(g) && g.Valid()
    ensures g.tasks == Run(o).tasks && outcome == Run(o).outcome
    ensures g.closed == Run(o).closed && g.joined == Run(o).closed
  {
    g := new Graph();
    if !EpsgAccepted(o.targetEpsg) {
      outcome := Err(EpsgNotInteger);
      return;
    }
    if o.dem !in KnownDems {
      outcome := Err(UnknownDem);
      return;
    }
    var vrt := g.AddTask(VrtTask(KnownDems[o.dem]));
    var pixels := ParsePixelSize(o.pixelSize, o.targetUnits);
    if pixels.Err? {
      outcome := Err(pixels.error);
      return;
    }
    var warp := g.AddTask(WarpTask(pixels.value, o.resampleMethod, [vrt]));
    assert g.tasks == Prefix(o, pixels.value);
    outcome := BuildAfterWarp(g, o.routingMethod, o.tfa, true, Inclusive);
  }

  /** The declarations before the chain. */
  function Prefix(o: Options, pixels: PixelSize): seq<Task<Stage>>
    requires o.dem in KnownDems
  {
    [VrtTask(KnownDems[o.dem]), WarpTask(pixels, o.resampleMethod, [0])]
  }

  /** Every dependency points to an earlier task. */
  lemma PlanAcyclic(o: Options)
    ensures DepsPrecede(Run(o).tasks)
  {
    if EpsgAccepted(o.targetEpsg) && o.dem in KnownDems && ParsePixelSize(o.pixelSize, o.targetUnits).Ok? {
      AfterWarpAcyclic(Prefix(o, ParsePixelSize(o.pixelSize, o.targetUnits).value),
                       o.routingMethod, o.tfa, true, Inclusive);
    }
  }

  /** The graph is closed and joined exactly on success. */
  lemma PlanClosed(o: Options)
    ensures Run(o).closed <==> Run(o).outcome.Ok?
  {
    if EpsgAccepted(o.targetEpsg) && o.dem in KnownDems && ParsePixelSize(o.pixelSize, o.targetUnits).Ok? {
      AfterWarpClosed(Prefix(o, ParsePixelSize(o.pixelSize, o.targetUnits).value),
                      o.routingMethod, o.tfa, true, Inclusive);
    }
  }

  /** No two tasks write the same path in the workspace. */
  lemma PlanTargetsDistinct(o: Options)
    ensures DistinctTargets(Run(o).tasks)
    ensures var ts := Run(o).tasks;
      forall i, j :: 0 <= i < j < |ts| ==>
        StagePath(o.workspace, o.dem, ts[i].targets[0]) != StagePath(o.workspace, o.dem, ts[j].targets[0])
  {
    if EpsgAccepted(o.targetEpsg) && o.dem in KnownDems && ParsePixelSize(o.pixelSize, o.targetUnits).Ok? {
      AfterWarpDistinct(Prefix(o, ParsePixelSize(o.pixelSize, o.targetUnits).value),
                        o.routingMethod, o.tfa, true, Inclusive);
    }
    DistinctTargetPaths(Run(o).tasks, o.workspace, o.dem);
  }

  /** Where each error stops the run: a bad EPSG code or an unknown DEM
      before any task, a bad pixel size after the VRT task, an unknown
      routing after the fill task, and a bad threshold string after the
      accumulation task. */
  lemma ErrorPoints(o: Options)
    ensures var p := Run(o);
      (p.outcome == Err(EpsgNotInteger) <==> !EpsgAccepted(o.targetEpsg)) &&
      (p.outcome == Err(UnknownDem) <==> EpsgAccepted(o.targetEpsg) && o.dem !in KnownDems) &&
      (p.outcome.Err? && p.outcome.error in {EpsgNotInteger, UnknownDem} ==> p.tasks == []) &&
      (p.outcome.Err? && p.outcome.error in {PixelSizeNotInteger, UnitsNotMetres} ==>
        |p.tasks| == 1 && p.tasks[0].routine == WriteVrt) &&
      (p.outcome == Err(UnknownRouting) ==> |p.tasks| == 3) &&
      (p.outcome.Err? && p.outcome.error in {TfaNotThreeParts, TfaNotInteger, TfaZeroStep} ==>
        |p.tasks| == 5)
  {
    if EpsgAccepted(o.targetEpsg) && o.dem in KnownDems && ParsePixelSize(o.pixelSize, o.targetUnits).Ok? {
      var done := Prefix(o, ParsePixelSize(o.pixelSize, o.targetUnits).value);
      AfterWarpChain(done, o.routingMethod, o.tfa, true, Inclusive);
      if ParseRouting(o.routingMethod).Some? && o.tfa.Some? && o.tfa.value != "" {
        AfterWarpTfaError(done, o.routingMethod, o.tfa, true, Inclusive);
      }
    }
  }

  /** With a known DEM, a usable pixel size and a known routing, the run
      declares the VRT, the warp, fill pits, flow direction and flow
      accumulation in that order, each depending on the one before, with
      the routing's routines. */
  lemma PlanChain(o: Options)
    requires EpsgAccepted(o.targetEpsg) && o.dem in KnownDems
    requires ParsePixelSize(o.pixelSize, o.targetUnits).Ok?
    requires ParseRouting(o.routingMethod).Some?
    ensures var p := Run(o);
      var r := ParseRouting(o.routingMethod).value;
      |p.tasks| >= 5 &&
      p.tasks[0] == VrtTask(KnownDems[o.dem]) && p.tasks[0].args[0] == Text(KnownDems[o.dem]) &&
      p.tasks[1].routine == WarpRaster && p.tasks[1].deps == [0] &&
      p.tasks[1].args[1] == Pixels(ParsePixelSize(o.pixelSize, o.targetUnits).value) &&
      p.tasks[2].routine == FillPits && p.tasks[2].deps == [1] &&
      p.tasks[3].routine == (if r == D8 then FlowDirD8 else FlowDirMfd) && p.tasks[3].deps == [2] &&
      p.tasks[4].routine == (if r == D8 then FlowAccumulationD8 else FlowAccumulationMfd) &&
      p.tasks[4].deps == [3] &&
      p.tasks[3].name == p.tasks[4].name == "Flow direction"
  {
    var done := Prefix(o, ParsePixelSize(o.pixelSize, o.targetUnits).value);
    AfterWarpChain(done, o.routingMethod, o.tfa, true, Inclusive);
    assert Run(o).tasks[..2] == done;
    assert Run(o).tasks[0] == done[0] && Run(o).tasks[1] == done[1];
  }

  /** Without a threshold string the run ends after flow accumulation. */
  lemma NoThresholds(o: Options)
    requires EpsgAccepted(o.targetEpsg) && o.dem in KnownDems
    requires ParsePixelSize(o.pixelSize, o.targetUnits).Ok?
    requires ParseRouting(o.routingMethod).Some?
    requires o.tfa.None? || o.tfa.value == ""
    ensures Run(o).outcome.Ok? && Run(o).closed && |Run(o).tasks| == 5
  {
  }

  /** The command with every option at its default: with metre units the
      SRTM VRT, the warp at the latitude-derived pixel size and the D8
      chain, five tasks in all, and a closed graph; with other units the
      pixel-size error after the VRT task. */
  lemma DefaultsRun(targetUnits: string)
    ensures var p := Run(Defaults(targetUnits));
      targetUnits in {"m", "meter", "metre"} ==>
        p.outcome.Ok? && p.closed && |p.tasks| == 5 &&
        p.tasks[0] == VrtTask(KnownDems["SRTM"]) && p.tasks[1].args[1] == Pixels(FromLatitude) &&
        p.tasks[4].routine == FlowAccumulationD8
    ensures var p := Run(Defaults(targetUnits));
      targetUnits !in {"m", "meter", "metre"} ==>
        p.outcome == Err(UnitsNotMetres) && p.tasks == [VrtTask(KnownDems["SRTM"])]
  {
    var o := Defaults(targetUnits);
    assert Lower(o.routingMethod) == "d8";
    if targetUnits in {"m", "meter", "metre"} {
      NoThresholds(o);
      PlanChain(o);
    }
  }

  /** With `start:stop:step`, one stream task per value of
      `range(start, stop + 1, step)`, each depending on the accumulation
      task.  For a positive step the thresholds lie between start and stop
      and include stop exactly when stop is start plus a multiple of step. */
  lemma InclusiveThresholds(o: Options, start: int, stop: int, step: int)
    requires EpsgAccepted(o.targetEpsg) && o.dem in KnownDems
    requires ParsePixelSize(o.pixelSize, o.targetUnits).Ok?
    requires ParseRouting(o.routingMethod).Some?
    requires o.tfa.Some? && o.tfa.value != "" && ParseTfa(o.tfa.value) == Ok((start, stop, step))
    requires step > 0
    ensures var p := Run(o);
      var values := Range(start, stop + 1, step);
      p.outcome.Ok? && |p.tasks| == 5 + |values| &&
      (forall k :: 0 <= k < |values| ==>
        p.tasks[5 + k].deps == [4] && p.tasks[5 + k].targets == [Streams(values[k])] &&
        start <= values[k] <= stop) &&
      (stop in values <==> start <= stop && (stop - start) % step == 0)
  {
    var done := Prefix(o, ParsePixelSize(o.pixelSize, o.targetUnits).value);
    var r := ParseRouting(o.routingMethod).value;
    assert Run(o) == AfterWarp(done, o.routingMethod, o.tfa, true, Inclusive);
    AfterWarpStreams(done, o.routingMethod, o.tfa, true, Inclusive, r, start, stop, step);
    InclusiveRangeBounds(start, stop, step);
  }

  /** The option help promises thresholds "1000, 1150, 1300 ... 5000" for
      `1000:5000:150`; the range actually ends at 4900, because 5000 is
      not 1000 plus a multiple of 150. */
  lemma HelpExample()
    ensures var values := TfaValues(1000, 5000, 150, Inclusive);
      |values| == 27 && values[0] == 1000 && values[1] == 1150 && values[26] == 4900 &&
      5000 !in values
  {
    RangeLength(1000, 5001, 150);
    RangeIndex(1000, 5001, 150, 0);
    RangeIndex(1000, 5001, 150, 1);
    RangeIndex(1000, 5001, 150, 26);
    RangeMember(1000, 5001, 150, 5000);
  }
}
