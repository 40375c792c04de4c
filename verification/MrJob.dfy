/**
 A whole MapReduce job: the coordinator, any number of workers and the files they share
 (mr/coordinator.go, mr/worker.go).  A task may be run several times, at once or one after
 the other, and a worker may crash between any two of its steps; files appear by renaming.
 A reduce task never misses a file, and when the job is done the output files hold what a
 single run of every task would have left.
 */
module MrJob {
  import opened MapReduce
  import C = MrCoordinator

  /** A worker in a map task, with the files it has renamed, or in a reduce task, with what
      it has read of the first `next` map tasks and whether its output is in place. */
  datatype Work =
    | Mapping(m: nat, renamed: set<nat>)
    | Reducing(r: nat, next: nat, temp: Pairs, written: bool)

  /** `mid` are the files mr-m-r, `out` the files mr-out-r. */
  datatype Job = Job(
    coord: C.Coord,
    mid: map<(nat, nat), Pairs>,
    out: map<nat, seq<Line>>,
    workers: map<nat, Work>)

  /** What the map function gives for each input file, and the reduce function. */
  datatype Program = Program(parts: seq<Pairs>, n: nat, reduce: Reducer)

  datatype Step =
    | Coordinate(a: C.Action)
    | Take(w: nat, t: C.Task)
    | Rename(w: nat, r: nat)
    | Read(w: nat)
    | Write(w: nat, lines: seq<Line>)
    | Finish(w: nat)
    | Crash(w: nat)

  /** What a reduce task may print: the sort leaves equal keys in any order. */
  ghost predicate MayPrint(lines: seq<Line>, temp: Pairs, reduce: Reducer) {
    exists sorted :: multiset(sorted) == multiset(temp) && SortedByKey(sorted) && Prints(lines, sorted, reduce)
  }

  function TaskOf(work: Work): C.Task {
    match work
    case Mapping(m, _) => C.Task(C.MapTask, m)
    case Reducing(r, _, _, _) => C.Task(C.ReduceTask, r)
  }

  /** The worker has done what it reports. */
  predicate Complete(work: Work, n: nat) {
    match work
    case Mapping(_, renamed) => forall r :: 0 <= r < n ==> r in renamed
    case Reducing(_, _, _, written) => written
  }

  ghost predicate Enabled(p: Program, j: Job, s: Step) {
    match s
    case Coordinate(a) => (a.CheckPhase? || a.CountFinish? || a.Timeout?) && C.Enabled(j.coord, a)
    case Take(w, t) => w !in j.workers && C.Enabled(j.coord, C.Dispatch(t)) && (t.kind.FinishTask? || t.id >= 0)
    case Rename(w, r) => w in j.workers && j.workers[w].Mapping? && r < p.n && j.workers[w].m < |p.parts|
    case Read(w) =>
      && w in j.workers && j.workers[w].Reducing? && j.workers[w].next < |p.parts|
      && (j.workers[w].next, j.workers[w].r) in j.mid
    case Write(w, lines) =>
      && w in j.workers && j.workers[w].Reducing? && j.workers[w].next == |p.parts|
      && MayPrint(lines, j.workers[w].temp, p.reduce)
    case Finish(w) => w in j.workers && Complete(j.workers[w], p.n) && C.Enabled(j.coord, C.Report(TaskOf(j.workers[w])))
    case Crash(w) => w in j.workers
  }

  function Started(t: C.Task): Work
    requires t.id >= 0
  {
    if t.kind.MapTask? then Mapping(t.id, {}) else Reducing(t.id, 0, [], false)
  }

  ghost function Do(p: Program, j: Job, s: Step): Job
    requires p.n > 0 && Enabled(p, j, s)
  {
    match s
    case Coordinate(a) => j.(coord := C.Do(j.coord, a))
    case Take(w, t) =>
      j.(coord := C.Do(j.coord, C.Dispatch(t)),
         workers := if t.kind.FinishTask? then j.workers else j.workers[w := Started(t)])
    case Rename(w, r) =>
      var work := j.workers[w];
      j.(mid := j.mid[(work.m, r) := Bucket(p.parts[work.m], r, p.n)],
         workers := j.workers[w := work.(renamed := work.renamed + {r})])
    case Read(w) =>
      var work := j.workers[w];
      j.(workers := j.workers[w := work.(next := work.next + 1, temp := work.temp + j.mid[(work.next, work.r)])])
    case Write(w, lines) =>
      j.(out := j.out[j.workers[w].r := lines], workers := j.workers[w := j.workers[w].(written := true)])
    case Finish(w) =>
      j.(coord := C.Do(j.coord, C.Report(TaskOf(j.workers[w]))), workers := j.workers - {w})
    case Crash(w) => j.(workers := j.workers - {w})
  }

  // ----- The invariant ---------------------------------------------------------------

  predicate FileOK(p: Program, mid: map<(nat, nat), Pairs>, f: (nat, nat))
    requires p.n > 0 && f in mid
  {
    f.0 < |p.parts| && f.1 < p.n && mid[f] == Bucket(p.parts[f.0], f.1, p.n)
  }

  /** All files of map task m are there. */
  predicate Mapped(p: Program, mid: map<(nat, nat), Pairs>, m: nat) {
    forall r {:trigger (m, r) in mid} :: 0 <= r < p.n ==> (m, r) in mid
  }

  function Column(p: Program, r: nat, k: nat): Pairs
    requires p.n > 0 && k <= |p.parts|
  {
    Concat(Files(p.parts, r, p.n)[..k])
  }

  ghost predicate OutOK(p: Program, out: map<nat, seq<Line>>, r: nat)
    requires p.n > 0 && r in out
  {
    MayPrint(out[r], Column(p, r, |p.parts|), p.reduce)
  }

  predicate WorkOK(p: Program, j: Job, work: Work)
    requires p.n > 0
  {
    && TaskOf(work) in j.coord.handed
    && match work
       case Mapping(m, renamed) => m < |p.parts| && forall r :: r in renamed ==> (m, r) in j.mid
       case Reducing(r, next, temp, written) =>
         r < p.n && next <= |p.parts| && temp == Column(p, r, next) && (written ==> r in j.out)
  }

  /** Handed out tasks exist, and reduce tasks only after the map phase. */
  predicate HandedOK(p: Program, c: C.Coord, t: C.Task) {
    match t.kind
    case MapTask => 0 <= t.id < |p.parts|
    case ReduceTask => 0 <= t.id < p.n && !c.phase.MapPhase?
    case FinishTask => true
  }

  predicate ReportedOK(p: Program, j: Job, t: C.Task) {
    match t.kind
    case MapTask => t.id >= 0 ==> Mapped(p, j.mid, t.id)
    case ReduceTask => t.id >= 0 ==> t.id in j.out
    case FinishTask => true
  }

  ghost predicate Inv(p: Program, j: Job) {
    && p.n > 0 && C.Inv(j.coord) && j.coord.mM == |p.parts| && j.coord.nR == p.n
    && (forall f {:trigger FileOK(p, j.mid, f)} :: f in j.mid ==> FileOK(p, j.mid, f))
    && (forall r {:trigger OutOK(p, j.out, r)} :: r in j.out ==> OutOK(p, j.out, r))
    && (forall t {:trigger HandedOK(p, j.coord, t)} :: t in j.coord.handed ==> HandedOK(p, j.coord, t))
    && (forall t {:trigger ReportedOK(p, j, t)} :: t in j.coord.reported ==> ReportedOK(p, j, t))
    && (forall w {:trigger WorkOK(p, j, j.workers[w])} :: w in j.workers ==> WorkOK(p, j, j.workers[w]))
  }

  function Begin(p: Program): Job {
    Job(C.Make(|p.parts|, p.n), map[], map[], map[])
  }

  lemma BeginInv(p: Program)
    requires p.n > 0
    ensures Inv(p, Begin(p))
  {
    C.MakeInv(|p.parts|, p.n);
  }

  /** Only the coordinator moves; it hands out and reports nothing. */
  lemma CoordinateInv(p: Program, j: Job, a: C.Action)
    requires Inv(p, j) && Enabled(p, j, Coordinate(a))
    ensures Inv(p, Do(p, j, Coordinate(a)))
  {
    var k := Do(p, j, Coordinate(a));
    C.StepKeepsInv(j.coord, a);
    forall t | t in k.coord.handed ensures HandedOK(p, k.coord, t) {
      assert HandedOK(p, j.coord, t);
    }
    forall t | t in k.coord.reported ensures ReportedOK(p, k, t) {
      assert ReportedOK(p, j, t);
    }
    forall w | w in k.workers ensures WorkOK(p, k, k.workers[w]) {
      assert WorkOK(p, j, j.workers[w]);
    }
  }

  lemma DispatchHanded(p: Program, j: Job, t: C.Task)
    requires Inv(p, j) && C.Enabled(j.coord, C.Dispatch(t))
    ensures HandedOK(p, j.coord, t)
  {
    assert C.TaskOK(j.coord, t);
  }

  lemma TakeInv(p: Program, j: Job, w: nat, t: C.Task)
    requires Inv(p, j) && Enabled(p, j, Take(w, t))
    ensures Inv(p, Do(p, j, Take(w, t)))
  {
    var k := Do(p, j, Take(w, t));
    C.StepKeepsInv(j.coord, C.Dispatch(t));
    DispatchHanded(p, j, t);
    forall x | x in k.coord.handed ensures HandedOK(p, k.coord, x) {
      assert x in j.coord.handed ==> HandedOK(p, j.coord, x);
    }
    forall x | x in k.coord.reported ensures ReportedOK(p, k, x) {
      assert ReportedOK(p, j, x);
    }
    assert Files(p.parts, if t.id >= 0 then t.id else 0, p.n)[..0] == [];
    forall v | v in k.workers ensures WorkOK(p, k, k.workers[v]) {
      assert v in j.workers ==> WorkOK(p, j, j.workers[v]);
    }
  }

  /** Files are added or written again as they were. */
  lemma RenameInv(p: Program, j: Job, w: nat, r: nat)
    requires Inv(p, j) && Enabled(p, j, Rename(w, r))
    ensures Inv(p, Do(p, j, Rename(w, r)))
  {
    var k := Do(p, j, Rename(w, r));
    forall f | f in k.mid ensures FileOK(p, k.mid, f) {
      assert f in j.mid ==> FileOK(p, j.mid, f);
    }
    forall x | x in k.coord.reported ensures ReportedOK(p, k, x) {
      assert ReportedOK(p, j, x);
    }
    forall v | v in k.workers ensures WorkOK(p, k, k.workers[v]) {
      assert WorkOK(p, j, j.workers[v]);
    }
  }

  lemma ColumnMore(p: Program, r: nat, k: nat)
    requires p.n > 0 && k < |p.parts|
    ensures Column(p, r, k + 1) == Column(p, r, k) + Bucket(p.parts[k], r, p.n)
  {
    var files := Files(p.parts, r, p.n);
    assert files[..k + 1][..k] == files[..k];
  }

  lemma ReadInv(p: Program, j: Job, w: nat)
    requires Inv(p, j) && Enabled(p, j, Read(w))
    ensures Inv(p, Do(p, j, Read(w)))
  {
    var k, work := Do(p, j, Read(w)), j.workers[w];
    assert WorkOK(p, j, work);
    assert FileOK(p, j.mid, (work.next, work.r));
    ColumnMore(p, work.r, work.next);
    forall x | x in k.coord.reported ensures ReportedOK(p, k, x) {
      assert ReportedOK(p, j, x);
    }
    forall v | v in k.workers ensures WorkOK(p, k, k.workers[v]) {
      assert WorkOK(p, j, j.workers[v]);
    }
  }

  lemma WriteInv(p: Program, j: Job, w: nat, lines: seq<Line>)
    requires Inv(p, j) && Enabled(p, j, Write(w, lines))
    ensures Inv(p, Do(p, j, Write(w, lines)))
  {
    var k := Do(p, j, Write(w, lines));
    assert WorkOK(p, j, j.workers[w]);
    forall r | r in k.out ensures OutOK(p, k.out, r) {
      assert r in j.out ==> OutOK(p, j.out, r);
    }
    forall x | x in k.coord.reported ensures ReportedOK(p, k, x) {
      assert ReportedOK(p, j, x);
    }
    forall v | v in k.workers ensures WorkOK(p, k, k.workers[v]) {
      assert WorkOK(p, j, j.workers[v]);
    }
  }

  lemma FinishInv(p: Program, j: Job, w: nat)
    requires Inv(p, j) && Enabled(p, j, Finish(w))
    ensures Inv(p, Do(p, j, Finish(w)))
  {
    var k, t := Do(p, j, Finish(w)), TaskOf(j.workers[w]);
    C.StepKeepsInv(j.coord, C.Report(t));
    assert WorkOK(p, j, j.workers[w]);
    forall x | x in k.coord.handed ensures HandedOK(p, k.coord, x) {
      assert HandedOK(p, j.coord, x);
    }
    forall x | x in k.coord.reported ensures ReportedOK(p, k, x) {
      assert x in j.coord.reported ==> ReportedOK(p, j, x);
    }
    forall v | v in k.workers ensures WorkOK(p, k, k.workers[v]) {
      assert WorkOK(p, j, j.workers[v]);
    }
  }

  lemma CrashInv(p: Program, j: Job, w: nat)
    requires Inv(p, j) && Enabled(p, j, Crash(w))
    ensures Inv(p, Do(p, j, Crash(w)))
  {
    var k := Do(p, j, Crash(w));
    forall x | x in k.coord.reported ensures ReportedOK(p, k, x) {
      assert ReportedOK(p, j, x);
    }
    forall v | v in k.workers ensures WorkOK(p, k, k.workers[v]) {
      assert WorkOK(p, j, j.workers[v]);
    }
  }

  lemma StepKeepsInv(p: Program, j: Job, s: Step)
    requires Inv(p, j) && Enabled(p, j, s)
    ensures Inv(p, Do(p, j, s))
  {
    match s {
      case Coordinate(a) => CoordinateInv(p, j, a);
      case Take(w, t) => TakeInv(p, j, w, t);
      case Rename(w, r) => RenameInv(p, j, w, r);
      case Read(w) => ReadInv(p, j, w);
      case Write(w, lines) => WriteInv(p, j, w, lines);
      case Finish(w) => FinishInv(p, j, w);
      case Crash(w) => CrashInv(p, j, w);
    }
  }

  // ----- Runs ------------------------------------------------------------------------

  ghost predicate StepAt(p: Program, run: seq<Job>, steps: seq<Step>, k: nat)
    requires p.n > 0 && k < |steps| < |run|
  {
    Enabled(p, run[k], steps[k]) && run[k + 1] == Do(p, run[k], steps[k])
  }

  ghost predicate IsRun(p: Program, run: seq<Job>, steps: seq<Step>) {
    && p.n > 0 && |run| == |steps| + 1 && run[0] == Begin(p)
    && forall k {:trigger StepAt(p, run, steps, k)} :: 0 <= k < |steps| ==> StepAt(p, run, steps, k)
  }

  lemma {:induction false} RunInv(p: Program, run: seq<Job>, steps: seq<Step>, k: nat)
    requires IsRun(p, run, steps) && k < |run|
    ensures Inv(p, run[k])
  {
    if k == 0 {
      BeginInv(p);
    } else {
      RunInv(p, run, steps, k - 1);
      assert StepAt(p, run, steps, k - 1);
      StepKeepsInv(p, run[k - 1], steps[k - 1]);
    }
  }

  /** A reduce task finds the file of every map task, complete, however often the map tasks
      were run and wherever workers crashed. */
  lemma NoFileMissing(p: Program, run: seq<Job>, steps: seq<Step>, k: nat, w: nat, m: nat)
    requires IsRun(p, run, steps) && k < |run| && w in run[k].workers && run[k].workers[w].Reducing? && m < |p.parts|
    ensures var f := (m, run[k].workers[w].r); f in run[k].mid && run[k].mid[f] == Bucket(p.parts[m], f.1, p.n)
  {
    RunInv(p, run, steps, k);
    var j := run[k];
    var t := C.Task(C.MapTask, m);
    assert WorkOK(p, j, j.workers[w]);
    assert HandedOK(p, j.coord, TaskOf(j.workers[w]));
    assert C.TaskOK(j.coord, t);
    assert t in j.coord.counted;
    assert ReportedOK(p, j, t);
    assert FileOK(p, j.mid, (m, j.workers[w].r));
  }

  /** When the job is done every output file is there, and for reduce functions that do not
      depend on the order of values it holds exactly the lines of its bucket. */
  lemma DoneMeansOutput(p: Program, run: seq<Job>, steps: seq<Step>, k: nat, r: nat)
    requires IsRun(p, run, steps) && k < |run| && run[k].coord.phase.FinishedPhase? && r < p.n
    ensures r in run[k].out
    ensures Unordered(p.reduce) ==> Reduced(run[k].out[r], Concat(p.parts), r, p.n, p.reduce)
  {
    RunInv(p, run, steps, k);
    var j := run[k];
    var t := C.Task(C.ReduceTask, r);
    assert C.TaskOK(j.coord, t);
    assert t in j.coord.counted;
    assert ReportedOK(p, j, t);
    assert OutOK(p, j.out, r);
    assert Files(p.parts, r, p.n)[..|p.parts|] == Files(p.parts, r, p.n);
    FilesAreBucket(p.parts, r, p.n);
    if Unordered(p.reduce) {
      PrintsAny(j.out[r], Bucket(Concat(p.parts), r, p.n), p.reduce);
    }
  }

  lemma PrintsAny(lines: seq<Line>, temp: Pairs, reduce: Reducer)
    requires MayPrint(lines, temp, reduce) && Unordered(reduce)
    ensures Prints(lines, temp, reduce)
  {
    var sorted :| multiset(sorted) == multiset(temp) && SortedByKey(sorted) && Prints(lines, sorted, reduce);
    forall line ensures line in lines <==> IsLine(temp, reduce, line) {
      SameLines(sorted, temp, reduce, line);
    }
  }

  /** The finished job holds the lines of the sequential program, each in the file of its
      key's hash. */
  lemma JobIsSequential(p: Program, run: seq<Job>, steps: seq<Step>, k: nat, out: seq<Line>, line: Line)
    requires IsRun(p, run, steps) && k < |run| && run[k].coord.phase.FinishedPhase? && Unordered(p.reduce)
    requires Prints(out, Concat(p.parts), p.reduce)
    ensures line in out <==> exists r :: r in run[k].out && r < p.n && line in run[k].out[r]
    ensures forall r :: r in run[k].out && r < p.n && line in run[k].out[r] ==> r == ReducerOf(line.0, p.n)
  {
    forall r | 0 <= r < p.n ensures r in run[k].out && Reduced(run[k].out[r], Concat(p.parts), r, p.n, p.reduce) {
      DoneMeansOutput(p, run, steps, k, r);
    }
    var outs := seq(p.n, r requires 0 <= r < p.n => run[k].out[r]);
    DistributedIsSequential(p.parts, p.n, p.reduce, outs, out, line);
    forall r: nat ensures Printed(outs, r, line) <==> r < p.n && line in run[k].out[r] {
    }
  }

  /** Whatever the schedules, timeouts and crashes, two finished runs of a job have the same
      output files, line by line. */
  lemma OneResult(p: Program, run: seq<Job>, steps: seq<Step>, k: nat, other: seq<Job>, others: seq<Step>, m: nat, r: nat)
    requires IsRun(p, run, steps) && k < |run| && run[k].coord.phase.FinishedPhase?
    requires IsRun(p, other, others) && m < |other| && other[m].coord.phase.FinishedPhase?
    requires Unordered(p.reduce) && r < p.n
    ensures r in run[k].out && r in other[m].out && run[k].out[r] == other[m].out[r]
  {
    DoneMeansOutput(p, run, steps, k, r);
    DoneMeansOutput(p, other, others, m, r);
    OneOutput(run[k].out[r], other[m].out[r], Bucket(Concat(p.parts), r, p.n), p.reduce);
  }
}
