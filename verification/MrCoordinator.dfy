/**
 The MapReduce coordinator (mr/coordinator.go) as a state machine over its goroutines:
 tasks wait to be sent, are traced after dispatch, and are counted once when a finish
 signal reaches their tracer.  No task is lost or counted twice, and no reduce task exists
 before every map task has been reported finished.
 */
module MrCoordinator {

  datatype Kind = MapTask | ReduceTask | FinishTask
  datatype Task = Task(kind: Kind, id: int)
  datatype Phase = MapPhase | ReducePhase | FinishedPhase

  /** `queue`: goroutines blocked on sending a task.  `traced`: running traceTask calls.
      `signals`: goroutines blocked on a task's trace channel.  The last three fields are
      history: tasks handed to workers, reported by them, and counted. */
  datatype Coord = Coord(
    mM: nat, nR: nat,
    phase: Phase, quantity: int, finished: int,
    queue: multiset<Task>, traced: multiset<Task>, signals: multiset<Task>,
    handed: set<Task>, reported: set<Task>, counted: multiset<Task>)

  function KindOf(phase: Phase): Kind {
    match phase
    case MapPhase => MapTask
    case ReducePhase => ReduceTask
    case FinishedPhase => FinishTask
  }

  function TasksOf(kind: Kind, n: nat): multiset<Task> {
    if n == 0 then multiset{} else TasksOf(kind, n - 1) + multiset{Task(kind, n - 1)}
  }

  function ExecPhase(c: Coord, phase: Phase, quantity: int): Coord {
    c.(phase := phase, quantity := quantity, finished := 0,
       queue := c.queue + if quantity == -1 then multiset{Task(FinishTask, -1)}
                          else if quantity < 0 then multiset{} else TasksOf(KindOf(phase), quantity))
  }

  function Make(mM: nat, nR: nat): Coord {
    ExecPhase(Coord(mM, nR, MapPhase, 0, 0, multiset{}, multiset{}, multiset{}, {}, {}, multiset{}), MapPhase, mM)
  }

  datatype Action =
    | CheckPhase
    | Dispatch(t: Task)
    | Report(t: Task)
    | CountFinish(t: Task)
    | Timeout(t: Task)

  predicate Enabled(c: Coord, a: Action) {
    match a
    case CheckPhase => c.finished == c.quantity
    case Dispatch(t) => t in c.queue
    case Report(t) => t in c.handed
    case CountFinish(t) => t in c.traced && t in c.signals
    case Timeout(t) => t in c.traced
  }

  function Do(c: Coord, a: Action): Coord
    requires Enabled(c, a)
  {
    match a
    case CheckPhase =>
      (match c.phase
       case MapPhase => ExecPhase(c, ReducePhase, c.nR)
       case ReducePhase => ExecPhase(c, FinishedPhase, -1)
       case FinishedPhase => ExecPhase(c, FinishedPhase, -1))
    case Dispatch(t) =>
      c.(queue := c.queue - multiset{t}, handed := c.handed + {t},
         traced := if t.kind.FinishTask? then c.traced else c.traced + multiset{t})
    case Report(t) => c.(signals := c.signals + multiset{t}, reported := c.reported + {t})
    case CountFinish(t) =>
      // The signal taken is offered again for good.
      c.(traced := c.traced - multiset{t}, finished := c.finished + 1, counted := c.counted + multiset{t})
    case Timeout(t) => c.(traced := c.traced - multiset{t}, queue := c.queue + multiset{t})
  }

  // ----- The invariant ---------------------------------------------------------------

  /** A task is in one place: waiting, traced or counted. */
  predicate InOnePlace(c: Coord, t: Task) {
    c.queue[t] + c.traced[t] + c.counted[t] == 1
  }

  predicate Settled(c: Coord, t: Task) {
    c.queue[t] == 0 && c.traced[t] == 0 && c.counted[t] == 1
  }

  predicate Absent(c: Coord, t: Task) {
    c.queue[t] == 0 && c.traced[t] == 0 && c.counted[t] == 0
  }

  /** What may be said of a task in each phase. */
  predicate TaskOK(c: Coord, t: Task) {
    match t.kind
    case MapTask =>
      if 0 <= t.id < c.mM then (if c.phase.MapPhase? then InOnePlace(c, t) else Settled(c, t)) else Absent(c, t)
    case ReduceTask =>
      if 0 <= t.id < c.nR && !c.phase.MapPhase? then
        (if c.phase.ReducePhase? then InOnePlace(c, t) else Settled(c, t))
      else Absent(c, t)
    case FinishTask => c.traced[t] == 0 && c.counted[t] == 0 && (!c.phase.FinishedPhase? ==> c.queue[t] == 0)
  }

  function Counted(c: Coord, kind: Kind, n: nat): nat {
    if n == 0 then 0 else Counted(c, kind, n - 1) + c.counted[Task(kind, n - 1)]
  }

  predicate NumbersOK(c: Coord) {
    match c.phase
    case MapPhase => c.quantity == c.mM && c.finished == Counted(c, MapTask, c.mM)
    case ReducePhase => c.quantity == c.nR && c.finished == Counted(c, ReduceTask, c.nR)
    case FinishedPhase => c.quantity == -1 && c.finished == 0
  }

  ghost predicate Inv(c: Coord) {
    && (forall t {:trigger TaskOK(c, t)} :: TaskOK(c, t))
    && NumbersOK(c)
    && (forall t :: t in c.signals ==> t in c.reported)
    && (forall t :: t in c.counted ==> t in c.reported)
    && (forall t :: t in c.reported ==> t in c.handed)
  }

  lemma {:induction false} TasksCount(kind: Kind, n: nat, t: Task)
    ensures TasksOf(kind, n)[t] == if t.kind == kind && 0 <= t.id < n then 1 else 0
  {
    if n > 0 {
      TasksCount(kind, n - 1, t);
    }
  }

  lemma {:induction false} CountedSame(c: Coord, d: Coord, kind: Kind, n: nat)
    requires forall i :: 0 <= i < n ==> c.counted[Task(kind, i)] == d.counted[Task(kind, i)]
    ensures Counted(c, kind, n) == Counted(d, kind, n)
  {
    if n > 0 {
      CountedSame(c, d, kind, n - 1);
    }
  }

  lemma {:induction false} CountedOneMore(c: Coord, t: Task, n: nat)
    requires 0 <= t.id < n
    ensures var d := c.(counted := c.counted + multiset{t}); Counted(d, t.kind, n) == Counted(c, t.kind, n) + 1
  {
    var d := c.(counted := c.counted + multiset{t});
    if t.id == n - 1 {
      CountedSame(c, d, t.kind, n - 1);
    } else {
      CountedOneMore(c, t, n - 1);
    }
  }

  /** If every task counts at most once and the sum is the number of tasks, each counted. */
  lemma {:induction false} AllCounted(c: Coord, kind: Kind, n: nat)
    requires forall i :: 0 <= i < n ==> c.counted[Task(kind, i)] <= 1
    ensures Counted(c, kind, n) <= n
    ensures Counted(c, kind, n) == n ==> forall i :: 0 <= i < n ==> c.counted[Task(kind, i)] == 1
  {
    if n > 0 {
      AllCounted(c, kind, n - 1);
    }
  }

  lemma {:induction false} NoneCounted(c: Coord, kind: Kind, n: nat)
    requires forall i :: 0 <= i < n ==> c.counted[Task(kind, i)] == 0
    ensures Counted(c, kind, n) == 0
  {
    if n > 0 {
      NoneCounted(c, kind, n - 1);
    }
  }

  // ----- Steps -----------------------------------------------------------------------

  lemma MakeInv(mM: nat, nR: nat)
    ensures Inv(Make(mM, nR))
  {
    var c := Make(mM, nR);
    forall t ensures TaskOK(c, t) {
      TasksCount(MapTask, mM, t);
    }
    NoneCounted(c, MapTask, mM);
  }

  lemma MapsDone(c: Coord, t: Task)
    requires Inv(c) && c.phase.MapPhase? && c.finished == c.quantity
    ensures TaskOK(ExecPhase(c, ReducePhase, c.nR), t)
  {
    forall i | 0 <= i < c.mM ensures c.counted[Task(MapTask, i)] <= 1 {
      assert TaskOK(c, Task(MapTask, i));
    }
    AllCounted(c, MapTask, c.mM);
    TasksCount(ReduceTask, c.nR, t);
    assert TaskOK(c, t);
    assert t.kind.MapTask? && 0 <= t.id < c.mM ==> c.counted[Task(MapTask, t.id)] == 1;
  }

  lemma ReducesDone(c: Coord, t: Task)
    requires Inv(c) && c.phase.ReducePhase? && c.finished == c.quantity
    ensures TaskOK(ExecPhase(c, FinishedPhase, -1), t)
  {
    forall i | 0 <= i < c.nR ensures c.counted[Task(ReduceTask, i)] <= 1 {
      assert TaskOK(c, Task(ReduceTask, i));
    }
    AllCounted(c, ReduceTask, c.nR);
    assert TaskOK(c, t);
    assert t.kind.ReduceTask? && 0 <= t.id < c.nR ==> c.counted[Task(ReduceTask, t.id)] == 1;
  }

  lemma CheckPhaseInv(c: Coord)
    requires Inv(c) && Enabled(c, CheckPhase)
    ensures Inv(Do(c, CheckPhase))
  {
    var d := Do(c, CheckPhase);
    if c.phase.MapPhase? {
      forall t ensures TaskOK(d, t) {
        MapsDone(c, t);
      }
      forall i | 0 <= i < c.nR ensures d.counted[Task(ReduceTask, i)] == 0 {
        assert TaskOK(c, Task(ReduceTask, i));
      }
      NoneCounted(d, ReduceTask, c.nR);
    } else {
      forall t ensures TaskOK(d, t) {
        ReducesDone(c, t);
      }
    }
  }

  /** Only tasks of the running phase wait or are traced. */
  lemma RunningTask(c: Coord, t: Task)
    requires Inv(c) && (t in c.traced || (t in c.queue && !t.kind.FinishTask?))
    ensures t.kind == KindOf(c.phase) && !c.phase.FinishedPhase? && 0 <= t.id < c.quantity
    ensures InOnePlace(c, t)
  {
    assert TaskOK(c, t);
  }

  lemma CountInv(c: Coord, t: Task)
    requires Inv(c) && Enabled(c, CountFinish(t))
    ensures Inv(Do(c, CountFinish(t)))
  {
    var d := Do(c, CountFinish(t));
    RunningTask(c, t);
    forall x ensures TaskOK(d, x) {
      assert TaskOK(c, x);
    }
    CountedOneMore(c, t, c.quantity);
    CountedSame(c.(counted := c.counted + multiset{t}), d, t.kind, c.quantity);
  }

  lemma MoveInv(c: Coord, a: Action)
    requires Inv(c) && Enabled(c, a) && (a.Dispatch? || a.Timeout? || a.Report?)
    ensures Inv(Do(c, a))
  {
    var d := Do(c, a);
    if a.Timeout? || (a.Dispatch? && !a.t.kind.FinishTask?) {
      RunningTask(c, a.t);
    }
    forall x ensures TaskOK(d, x) {
      assert TaskOK(c, x);
    }
    CountedSame(c, d, MapTask, c.mM);
    CountedSame(c, d, ReduceTask, c.nR);
  }

  lemma StepKeepsInv(c: Coord, a: Action)
    requires Inv(c) && Enabled(c, a)
    ensures Inv(Do(c, a)) && Do(c, a).mM == c.mM && Do(c, a).nR == c.nR
  {
    match a {
      case CheckPhase => CheckPhaseInv(c);
      case CountFinish(t) => CountInv(c, t);
      case _ => MoveInv(c, a);
    }
  }

  // ----- Runs ------------------------------------------------------------------------

  predicate StepAt(run: seq<Coord>, actions: seq<Action>, k: nat)
    requires k < |actions| < |run|
  {
    Enabled(run[k], actions[k]) && run[k + 1] == Do(run[k], actions[k])
  }

  ghost predicate IsRun(run: seq<Coord>, actions: seq<Action>, mM: nat, nR: nat) {
    && |run| == |actions| + 1 && run[0] == Make(mM, nR)
    && forall k {:trigger StepAt(run, actions, k)} :: 0 <= k < |actions| ==> StepAt(run, actions, k)
  }

  lemma {:induction false} RunInv(run: seq<Coord>, actions: seq<Action>, mM: nat, nR: nat, k: nat)
    requires IsRun(run, actions, mM, nR) && k < |run|
    ensures Inv(run[k]) && run[k].mM == mM && run[k].nR == nR
  {
    if k == 0 {
      MakeInv(mM, nR);
    } else {
      RunInv(run, actions, mM, nR, k - 1);
      assert StepAt(run, actions, k - 1);
      StepKeepsInv(run[k - 1], actions[k - 1]);
    }
  }

  lemma {:induction false} HandedWasQueued(run: seq<Coord>, actions: seq<Action>, mM: nat, nR: nat, k: nat, t: Task)
    requires IsRun(run, actions, mM, nR) && k < |run| && t in run[k].handed && t.kind.ReduceTask?
    ensures !run[k].phase.MapPhase?
  {
    assert k > 0;
    assert StepAt(run, actions, k - 1);
    RunInv(run, actions, mM, nR, k - 1);
    if t in run[k - 1].handed {
      HandedWasQueued(run, actions, mM, nR, k - 1, t);
    } else {
      assert TaskOK(run[k - 1], t);
    }
  }

  /** No reduce task waits, runs or has ever been handed out before every map task has been
      reported finished and counted once. */
  lemma NoReduceBeforeMaps(run: seq<Coord>, actions: seq<Action>, mM: nat, nR: nat, k: nat, t: Task, m: nat)
    requires IsRun(run, actions, mM, nR) && k < |run| && t.kind.ReduceTask? && m < mM
    requires t in run[k].queue || t in run[k].traced || t in run[k].handed
    ensures Task(MapTask, m) in run[k].reported && run[k].counted[Task(MapTask, m)] == 1
  {
    RunInv(run, actions, mM, nR, k);
    assert TaskOK(run[k], t) && TaskOK(run[k], Task(MapTask, m));
    if t in run[k].handed {
      HandedWasQueued(run, actions, mM, nR, k, t);
    }
    assert Task(MapTask, m) in run[k].counted;
  }

  /** A task of the running phase is never lost and never counted twice: it waits, is
      traced or has been counted, in exactly one of these ways. */
  lemma TokensConserved(run: seq<Coord>, actions: seq<Action>, mM: nat, nR: nat, k: nat, i: nat)
    requires IsRun(run, actions, mM, nR) && k < |run| && !run[k].phase.FinishedPhase? && i < run[k].quantity
    ensures InOnePlace(run[k], Task(KindOf(run[k].phase), i))
    ensures 0 <= run[k].finished <= run[k].quantity
  {
    var c := run[k];
    RunInv(run, actions, mM, nR, k);
    assert TaskOK(c, Task(KindOf(c.phase), i));
    forall j | 0 <= j < c.quantity ensures c.counted[Task(KindOf(c.phase), j)] <= 1 {
      assert TaskOK(c, Task(KindOf(c.phase), j));
    }
    AllCounted(c, KindOf(c.phase), c.quantity);
  }

  /** Done() is true only when every map and every reduce task was reported. */
  lemma DoneMeansAll(run: seq<Coord>, actions: seq<Action>, mM: nat, nR: nat, k: nat, i: nat)
    requires IsRun(run, actions, mM, nR) && k < |run| && run[k].phase.FinishedPhase?
    ensures i < mM ==> Task(MapTask, i) in run[k].reported
    ensures i < nR ==> Task(ReduceTask, i) in run[k].reported
  {
    RunInv(run, actions, mM, nR, k);
    assert TaskOK(run[k], Task(MapTask, i)) && TaskOK(run[k], Task(ReduceTask, i));
    assert i < mM ==> Task(MapTask, i) in run[k].counted;
    assert i < nR ==> Task(ReduceTask, i) in run[k].counted;
  }

  // ----- The coordinator's own sections ----------------------------------------------

  class Coordinator {
    const mM: nat
    const nR: nat
    var phase: Phase
    var taskQuantity: int
    var taskFinished: int
    var taskCh: multiset<Task>

    /** The state machine whose locked part is this object; the rest is as in c. */
    ghost function Over(c: Coord): Coord
      reads this
    {
      c.(mM := mM, nR := nR, phase := phase, quantity := taskQuantity, finished := taskFinished, queue := taskCh)
    }

    constructor (mM: nat, nR: nat)
      ensures Over(Make(mM, nR)) == Make(mM, nR)
    {
      this.mM, this.nR := mM, nR;
      phase, taskQuantity, taskFinished, taskCh := MapPhase, 0, 0, multiset{};
      new;
      Exec(MapPhase, mM);
    }

    method Exec(next: Phase, quantity: int)
      requires quantity >= -1
      modifies this
      ensures forall c :: Over(c) == ExecPhase(old(Over(c)), next, quantity)
    {
      phase, taskQuantity, taskFinished := next, quantity, 0;
      if quantity == -1 {
        taskCh := taskCh + multiset{Task(FinishTask, -1)};
        return;
      }
      for i := 0 to quantity
        invariant phase == next && taskQuantity == quantity && taskFinished == 0
        invariant taskCh == old(taskCh) + TasksOf(KindOf(next), i)
      {
        taskCh := taskCh + multiset{Task(KindOf(next), i)};
      }
    }

    /** The locked part of getTask: the phase check of the state machine, or nothing. */
    method Check()
      modifies this
      ensures forall c :: Over(c) == if old(taskFinished == taskQuantity) then Do(old(Over(c)), CheckPhase) else old(Over(c))
    {
      if taskFinished == taskQuantity {
        match phase {
          case MapPhase => Exec(ReducePhase, nR);
          case ReducePhase => Exec(FinishedPhase, -1);
          case FinishedPhase => Exec(FinishedPhase, -1);
        }
      }
    }
  }
}
