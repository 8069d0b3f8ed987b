/** The scripted revision of the DEM preprocessing: its options are a
    fixed dictionary, the VRT task calls gdal.BuildVRT directly, the pixel
    size is a list used as given, and the threshold string is always
    split, with an exclusive range. */
module DemPreprocessing {
  import opened Wrappers
  import opened Strings
  import opened Ranges
  import opened TaskGraph
  import opened DemChain

  const UrlBase: string := "https://storage.googleapis.com/gef-ckan-public-data"

  const KnownDems: map<string, string> := map["SRTM" := UrlBase + "/srtm-v3-1s/srtm-v3-1s.tif"]

  /** The keyword arguments of the preprocessing function. */
  datatype Options = Options(sourceDemSlug: string, tfaSlice: string, workspace: string,
                             pixelSize: seq<int>, routingMethod: string, resampleMethod: string,
                             targetEpsg: Option<string>)

  /** The fixed dictionary the script runs with; the routing method and
      the EPSG code keep their defaults.  The AOI path from the command
      line only feeds foreign code. */
  const FixedOptions: Options :=
    Options("SRTM", "1000:10000:200", "bay_area_workspace", [30, 30], "D8", "bilinear", None)

  /** `main()`: building the dictionary reads `sys.argv[1]`, which raises
      IndexError when the script is given no AOI path; otherwise the
      dictionary is the fixed one, whatever else the command line holds. */
  function Main(argv: seq<string>): (r: Result<Options, DemError>)
    ensures r.Err? <==> |argv| < 2
    ensures r.Err? ==> r.error == MissingAoi
    ensures r.Ok? ==> r.value.sourceDemSlug in KnownDems && r.value.targetEpsg.None?
  {
    if |argv| < 2 then Err(MissingAoi) else Ok(FixedOptions)
  }

  /** The `__main__` block: `preprocess_dem(**main())`, which declares
      nothing when `main` raises. */
  function Script(argv: seq<string>): Plan
  {
    match Main(argv)
    case Err(e) => Plan([], Err(e), false)
    case Ok(o) => Run(o)
  }

  function VrtTask(url: string): Task<Stage>
  {
    Task("Build VRT", GdalBuildVrt, [File(Vrt), Text("/vsicurl/" + url)], [Vrt], [])
  }

  function Prefix(o: Options): seq<Task<Stage>>
    requires o.sourceDemSlug in KnownDems
  {
    [VrtTask(KnownDems[o.sourceDemSlug]), WarpTask(Explicit(o.pixelSize), o.resampleMethod, [0])]
  }

  function Run(o: Options): Plan
  {
    if !EpsgAccepted(o.targetEpsg) then Plan([], Err(EpsgNotInteger), false)
    else if o.sourceDemSlug !in KnownDems then Plan([], Err(UnknownDem), false)
    else AfterWarp(Prefix(o), o.routingMethod, Some(o.tfaSlice), false, Exclusive)
  }

  /** The preprocessing run against a fresh task graph. */
  method PreprocessDem(o: Options) returns (g: Graph<Stage>, outcome: Result<(), DemError>)
    ensures fresh(g) && g.Valid()
    ensures g.tasks == Run(o).tasks && outcome == Run(o).outcome
    ensures g.closed == Run(o).closed && g.joined == Run(o).closed
  {
    g := new Graph();
    if !EpsgAccepted(o.targetEpsg) {
      outcome := Err(EpsgNotInteger);
      return;
    }
    if o.sourceDemSlug !in KnownDems {
      outcome := Err(UnknownDem);
      return;
    }
    var vrt := g.AddTask(VrtTask(KnownDems[o.sourceDemSlug]));
    var warp := g.AddTask(WarpTask(Explicit(o.pixelSize), o.resampleMethod, [vrt]));
    assert g.tasks == Prefix(o);
    outcome := BuildAfterWarp(g, o.routingMethod, Some(o.tfaSlice), false, Exclusive);
  }

  predicate ReachesWarp(o: Options)
  {
    EpsgAccepted(o.targetEpsg) && o.sourceDemSlug in KnownDems
  }

  /** Every dependency points to an earlier task. */
  lemma PlanAcyclic(o: Options)
    ensures DepsPrecede(Run(o).tasks)
  {
    if ReachesWarp(o) {
      AfterWarpAcyclic(Prefix(o), o.routingMethod, Some(o.tfaSlice), false, Exclusive);
    }
  }

  /** The graph is closed and joined exactly on success. */
  lemma PlanClosed(o: Options)
    ensures Run(o).closed <==> Run(o).outcome.Ok?
  {
    if ReachesWarp(o) {
      AfterWarpClosed(Prefix(o), o.routingMethod, Some(o.tfaSlice), false, Exclusive);
    }
  }

  /** No two tasks write the same path in the workspace. */
  lemma PlanTargetsDistinct(o: Options)
    ensures DistinctTargets(Run(o).tasks)
    ensures var ts := Run(o).tasks;
      forall i, j :: 0 <= i < j < |ts| ==>
        StagePath(o.workspace, o.sourceDemSlug, ts[i].targets[0]) !=
        StagePath(o.workspace, o.sourceDemSlug, ts[j].targets[0])
  {
    if ReachesWarp(o) {
      AfterWarpDistinct(Prefix(o), o.routingMethod, Some(o.tfaSlice), false, Exclusive);
    }
    DistinctTargetPaths(Run(o).tasks, o.workspace, o.sourceDemSlug);
  }

  /** Where each error stops the run; with no guard, an empty threshold
      string fails the three-way unpacking after the accumulation task. */
  lemma ErrorPoints(o: Options)
    ensures var p := Run(o);
      (p.outcome == Err(EpsgNotInteger) <==> !EpsgAccepted(o.targetEpsg)) &&
      (p.outcome == Err(UnknownDem) <==> EpsgAccepted(o.targetEpsg) && o.sourceDemSlug !in KnownDems) &&
      (p.outcome.Err? && p.outcome.error in {EpsgNotInteger, UnknownDem} ==> p.tasks == []) &&
      (p.outcome == Err(UnknownRouting) ==> |p.tasks| == 3) &&
      (p.outcome.Err? && p.outcome.error in {TfaNotThreeParts, TfaNotInteger, TfaZeroStep} ==>
        |p.tasks| == 5) &&
      (ReachesWarp(o) && ParseRouting(o.routingMethod).Some? && o.tfaSlice == "" ==>
        p.outcome == Err(TfaNotThreeParts))
  {
    if ReachesWarp(o) {
      AfterWarpChain(Prefix(o), o.routingMethod, Some(o.tfaSlice), false, Exclusive);
      if ParseRouting(o.routingMethod).Some? {
        if o.tfaSlice == "" {
          assert Split("", ':') == [""];
        } else {
          AfterWarpTfaError(Prefix(o), o.routingMethod, Some(o.tfaSlice), false, Exclusive);
        }
      }
    }
  }

  /** The VRT task streams the DEM over HTTP, the warp uses the pixel size
      as given, and the chain follows with the routing's routines. */
  lemma PlanChain(o: Options)
    requires ReachesWarp(o) && ParseRouting(o.routingMethod).Some?
    ensures var p := Run(o);
      var r := ParseRouting(o.routingMethod).value;
      |p.tasks| >= 5 &&
      p.tasks[0].routine == GdalBuildVrt && p.tasks[0].deps == [] &&
      p.tasks[0].args[1] == Text("/vsicurl/" + KnownDems[o.sourceDemSlug]) &&
      p.tasks[1].routine == WarpRaster && p.tasks[1].deps == [0] &&
      p.tasks[1].args[1] == Pixels(Explicit(o.pixelSize)) &&
      p.tasks[2].routine == FillPits && p.tasks[2].deps == [1] &&
      p.tasks[3].routine == (if r == D8 then FlowDirD8 else FlowDirMfd) && p.tasks[3].deps == [2] &&
      p.tasks[4].routine == (if r == D8 then FlowAccumulationD8 else FlowAccumulationMfd) &&
      p.tasks[4].deps == [3]
  {
    AfterWarpChain(Prefix(o), o.routingMethod, Some(o.tfaSlice), false, Exclusive);
    assert Run(o).tasks[..2] == Prefix(o);
    assert Run(o).tasks[0] == Prefix(o)[0] && Run(o).tasks[1] == Prefix(o)[1];
  }

  /** The fixed routing name is D8.  The name comes in as a parameter that
      the requires pins, rather than as a literal in the ensures, so that
      Dafny does not unroll the recursive `Lower` on a literal string. */
  lemma MainRouting(name: string)
    requires name == FixedOptions.routingMethod
    ensures ParseRouting(name) == Some(D8)
  {
    assert Lower(name) == "d8";
  }

  /** The fixed threshold string parses to 1000, 10000 and 200.  The
      string comes in as a parameter that the requires pins, so that Dafny
      does not unroll `Split` and the digit parser on a literal string. */
  lemma MainSlice(text: string)
    requires text == FixedOptions.tfaSlice
    ensures ParseTfa(text) == Ok((1000, 10000, 200))
  {
    assert NatStr(1000) == "1000" && NatStr(10000) == "10000" && NatStr(200) == "200";
    assert text == IntStr(1000) + ":" + IntStr(10000) + ":" + IntStr(200);
    ParseTfaOfInts(1000, 10000, 200);
  }

  /** `range(1000, 10000, 200)` has 45 values, the k-th being 1000 + 200k.
      The bounds come in as parameters that the requires pins, so that
      Dafny does not unroll the recursive `Range` 45 times on literals. */
  lemma MainThresholds(start: int, stop: int, step: int)
    requires start == 1000 && stop == 10000 && step == 200
    ensures |Range(start, stop, step)| == 45
    ensures forall k :: 0 <= k < 45 ==> Range(start, stop, step)[k] == 1000 + 200 * k
  {
    RangeLength(start, stop, step);
    forall k | 0 <= k < 45
      ensures Range(start, stop, step)[k] == 1000 + 200 * k
    {
      RangeIndex(start, stop, step, k);
    }
  }

  /** A run that gets past the slug check with a known routing and a
      well-formed threshold string closes successfully with one stream
      task per value of `range(start, stop, step)`, after the five tasks up
      to flow accumulation. */
  lemma RunStreams(o: Options, r: Routing, start: int, stop: int, step: int)
    requires ReachesWarp(o) && ParseRouting(o.routingMethod) == Some(r)
    requires ParseTfa(o.tfaSlice) == Ok((start, stop, step)) && step != 0
    ensures var p := Run(o);
      p.outcome.Ok? && p.closed && |p.tasks| == 5 + |Range(start, stop, step)| &&
      p.tasks[1] == WarpTask(Explicit(o.pixelSize), o.resampleMethod, [0]) &&
      p.tasks[4] == FlowAccumTask(r, 3) &&
      forall k :: 0 <= k < |Range(start, stop, step)| ==>
        p.tasks[5 + k] == StreamTask(r, Range(start, stop, step)[k], 4)
  {
    var p := Run(o);
    assert o.tfaSlice != "" by {
      assert Split("", ':') == [""];
    }
    assert p == AfterWarp(Prefix(o), o.routingMethod, Some(o.tfaSlice), false, Exclusive);
    AfterWarpChain(Prefix(o), o.routingMethod, Some(o.tfaSlice), false, Exclusive);
    AfterWarpClosed(Prefix(o), o.routingMethod, Some(o.tfaSlice), false, Exclusive);
    AfterWarpStreams(Prefix(o), o.routingMethod, Some(o.tfaSlice), false, Exclusive, r, start, stop, step);
    assert p.tasks[1] == Prefix(o)[1] by { assert p.tasks[..2] == Prefix(o); }
  }

  /** The fixed run of `Main` (its routing and threshold string are those
      `MainRouting` and `MainSlice` parse): D8 routing and 45 stream tasks,
      each depending on the accumulation task, for the thresholds 1000,
      1200, ..., 9800; 10000 itself is left out. */
  lemma MainRun(o: Options)
    requires ReachesWarp(o) && ParseRouting(o.routingMethod) == Some(D8)
    requires ParseTfa(o.tfaSlice) == Ok((1000, 10000, 200))
    ensures var p := Run(o);
      p.outcome.Ok? && p.closed && |p.tasks| == 50 &&
      p.tasks[4] == FlowAccumTask(D8, 3) &&
      forall k :: 0 <= k < 45 ==> p.tasks[5 + k] == StreamTask(D8, 1000 + 200 * k, 4)
  {
    var slice := ParseTfa(o.tfaSlice).value;
    var rs := Range(slice.0, slice.1, slice.2);
    MainThresholds(slice.0, slice.1, slice.2);
    RunStreams(o, D8, slice.0, slice.1, slice.2);
    var p := Run(o);
    assert |rs| == 45 && |p.tasks| == 5 + |rs|;
    forall k | 0 <= k < 45
      ensures p.tasks[5 + k] == StreamTask(D8, 1000 + 200 * k, 4)
    {
      assert p.tasks[5 + k] == StreamTask(D8, rs[k], 4);
    }
  }

  /** The script's own run: with an AOI path on the command line the fixed
      dictionary of `main` succeeds and closes the graph, with the five
      chain tasks and 45 stream tasks; without one, `main` raises
      IndexError before any task is declared. */
  lemma MainPlan(argv: seq<string>)
    ensures var p := Script(argv);
      |argv| >= 2 ==>
        p.outcome.Ok? && p.closed && |p.tasks| == 50 &&
        p.tasks[4] == FlowAccumTask(D8, 3) &&
        forall k :: 0 <= k < 45 ==> p.tasks[5 + k] == StreamTask(D8, 1000 + 200 * k, 4)
    ensures |argv| < 2 ==> Script(argv) == Plan([], Err(MissingAoi), false)
  {
    if |argv| >= 2 {
      var o := FixedOptions;
      assert ReachesWarp(o);
      MainRouting(o.routingMethod);
      MainSlice(o.tfaSlice);
      MainRun(o);
    }
  }
}
