/** The part of the `taskgraph` library the DEM scripts use: a graph that
    records each `add_task` declaration, and `close`/`join` calls.  Running
    the tasks (skip-if-exists, the worker pool) is not modelled. */
module TaskGraph {

  /** The routine a task runs.  The routines are foreign code; only which
      one was chosen matters here. */
  datatype Routine =
    | WriteVrt            // the script's own wrapper around gdal.BuildVRT
    | GdalBuildVrt        // gdal.BuildVRT registered directly
    | WarpRaster
    | FillPits
    | FlowDirD8
    | FlowDirMfd
    | FlowAccumulationD8
    | FlowAccumulationMfd
    | ExtractStreamsD8
    | ExtractStreamsMfd

  /** The target pixel size handed to the warp: explicit numbers, or the
      size derived from the VRT's pixel area at the AOI's latitude. */
  datatype PixelSize = Explicit(xy: seq<int>) | FromLatitude

  /** One positional or keyword argument of a task.  `F` is how files are
      referred to; the scripts render each as a path in their workspace. */
  datatype Arg<F> =
    | Text(s: string)
    | File(f: F)
    | Band(raster: F, band: nat)    // a (raster path, band index) tuple
    | Int(i: int)
    | Pixels(size: PixelSize)

  /** A declaration: task name, routine, arguments, target path list and
      dependent task list (as indices of earlier declarations). */
  datatype Task<F> = Task(name: string, routine: Routine, args: seq<Arg<F>>,
                          targets: seq<F>, deps: seq<nat>)

  /** Every dependency is a task declared earlier, so declaration order is a
      topological order and the graph is acyclic. */
  predicate DepsPrecede<F>(tasks: seq<Task<F>>)
  {
    forall i, j :: 0 <= i < |tasks| && 0 <= j < |tasks[i].deps| ==> tasks[i].deps[j] < i
  }

  /** `j` is reachable from `i` by following dependency edges. */
  ghost predicate DependsOn<F>(tasks: seq<Task<F>>, i: nat, j: nat, steps: nat)
    decreases steps
  {
    i < |tasks| &&
    exists k :: 0 <= k < |tasks[i].deps| &&
      (tasks[i].deps[k] == j || (steps > 0 && DependsOn(tasks, tasks[i].deps[k], j, steps - 1)))
  }

  /** Following dependency edges always reaches strictly earlier tasks, so
      no task depends on itself. */
  lemma {:induction false} DependsOnEarlier<F>(tasks: seq<Task<F>>, i: nat, j: nat, steps: nat)
    requires DepsPrecede(tasks)
    requires DependsOn(tasks, i, j, steps)
    ensures j < i
    decreases steps
  {
    var k :| 0 <= k < |tasks[i].deps| &&
      (tasks[i].deps[k] == j || (steps > 0 && DependsOn(tasks, tasks[i].deps[k], j, steps - 1)));
    if tasks[i].deps[k] != j {
      DependsOnEarlier(tasks, tasks[i].deps[k], j, steps - 1);
    }
  }

  class Graph<F> {
    var tasks: seq<Task<F>>
    var closed: bool
    var joined: bool

    ghost predicate Valid()
      reads this
    {
      DepsPrecede(tasks)
    }

    constructor ()
      ensures Valid() && tasks == [] && !closed && !joined
    {
      tasks, closed, joined := [], false, false;
    }

    /** `add_task`: records the declaration and returns its handle.  The
        dependencies are handles of earlier declarations. */
    method AddTask(t: Task<F>) returns (handle: nat)
      requires Valid() && !closed
      requires forall j :: 0 <= j < |t.deps| ==> t.deps[j] < |tasks|
      modifies this
      ensures Valid()
      ensures tasks == old(tasks) + [t] && handle == |old(tasks)|
      ensures closed == old(closed) && joined == old(joined)
    {
      handle := |tasks|;
      tasks := tasks + [t];
    }

    /** `close`: no task may be added afterwards. */
    method Close()
      requires Valid()
      modifies this
      ensures Valid()
      ensures tasks == old(tasks) && closed && joined == old(joined)
    {
      closed := true;
    }

    /** `join`: waits for every recorded task. */
    method Join()
      requires Valid()
      modifies this
      ensures Valid()
      ensures tasks == old(tasks) && closed == old(closed) && joined
    {
      joined := true;
    }
  }
}
