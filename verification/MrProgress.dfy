/**
 What the coordinator can still do from any state it reaches: the job can always be
 finished, whatever was handed out, lost or reported late before; and one worker, no more,
 is ever told that it has been.
 */
module MrProgress {
  import opened MrCoordinator

  function Last<T>(s: seq<T>): T
    requires s != []
  {
    s[|s| - 1]
  }

  /** The run goes on as before and then as more says. */
  ghost predicate GoesOn(run: seq<Coord>, actions: seq<Action>, longer: seq<Coord>, more: seq<Action>, mM: nat, nR: nat) {
    run <= longer && actions <= more && IsRun(longer, more, mM, nR)
  }

  lemma OneStep(run: seq<Coord>, actions: seq<Action>, mM: nat, nR: nat, a: Action)
      returns (longer: seq<Coord>, more: seq<Action>)
    requires IsRun(run, actions, mM, nR) && Enabled(Last(run), a)
    ensures GoesOn(run, actions, longer, more, mM, nR) && Last(longer) == Do(Last(run), a)
  {
    longer, more := run + [Do(Last(run), a)], actions + [a];
    forall k | 0 <= k < |more| ensures StepAt(longer, more, k) {
      assert k < |actions| ==> StepAt(run, actions, k);
    }
  }

  // ----- A phase can be completed ----------------------------------------------------

  /** Some task of the phase is not counted as long as the count is short. */
  lemma {:induction false} SomeUncounted(c: Coord, kind: Kind, n: nat) returns (i: nat)
    requires Counted(c, kind, n) < n
    ensures i < n && c.counted[Task(kind, i)] == 0
  {
    if c.counted[Task(kind, n - 1)] == 0 {
      i := n - 1;
    } else {
      i := SomeUncounted(c, kind, n - 1);
    }
  }

  /** A task that is not counted waits or is traced: it can be handed out. */
  lemma HandOut(run: seq<Coord>, actions: seq<Action>, mM: nat, nR: nat, t: Task)
      returns (longer: seq<Coord>, more: seq<Action>)
    requires IsRun(run, actions, mM, nR) && InOnePlace(Last(run), t) && Last(run).counted[t] == 0
    requires !t.kind.FinishTask?
    ensures GoesOn(run, actions, longer, more, mM, nR) && t in Last(longer).traced && t in Last(longer).handed
    ensures Last(longer).(queue := Last(run).queue, traced := Last(run).traced, handed := Last(run).handed) == Last(run)
  {
    longer, more := run, actions;
    if t in Last(run).traced {
      longer, more := OneStep(longer, more, mM, nR, Timeout(t));
    }
    longer, more := OneStep(longer, more, mM, nR, Dispatch(t));
  }

  lemma CountOne(run: seq<Coord>, actions: seq<Action>, mM: nat, nR: nat, t: Task)
      returns (longer: seq<Coord>, more: seq<Action>)
    requires IsRun(run, actions, mM, nR) && InOnePlace(Last(run), t) && Last(run).counted[t] == 0
    requires !t.kind.FinishTask?
    ensures GoesOn(run, actions, longer, more, mM, nR)
    ensures Last(longer).phase == Last(run).phase && Last(longer).quantity == Last(run).quantity
    ensures Last(longer).finished == Last(run).finished + 1
  {
    longer, more := HandOut(run, actions, mM, nR, t);
    longer, more := OneStep(longer, more, mM, nR, Report(t));
    longer, more := OneStep(longer, more, mM, nR, CountFinish(t));
  }

  lemma {:induction false} CompletePhase(run: seq<Coord>, actions: seq<Action>, mM: nat, nR: nat)
      returns (longer: seq<Coord>, more: seq<Action>)
    requires IsRun(run, actions, mM, nR) && !Last(run).phase.FinishedPhase?
    ensures GoesOn(run, actions, longer, more, mM, nR)
    ensures Last(longer).phase == Last(run).phase && Last(longer).finished == Last(longer).quantity
    decreases Last(run).quantity - Last(run).finished
  {
    var c := Last(run);
    RunInv(run, actions, mM, nR, |run| - 1);
    longer, more := run, actions;
    forall i | 0 <= i < c.quantity ensures c.counted[Task(KindOf(c.phase), i)] <= 1 {
      assert TaskOK(c, Task(KindOf(c.phase), i));
    }
    AllCounted(c, KindOf(c.phase), c.quantity);
    if c.finished < c.quantity {
      var i := SomeUncounted(c, KindOf(c.phase), c.quantity);
      assert TaskOK(c, Task(KindOf(c.phase), i));
      longer, more := CountOne(run, actions, mM, nR, Task(KindOf(c.phase), i));
      longer, more := CompletePhase(longer, more, mM, nR);
    }
  }

  /** Every run of the coordinator, for any numbers of map and reduce tasks, has a
      continuation that reaches the finished phase. */
  lemma CanFinish(run: seq<Coord>, actions: seq<Action>, mM: nat, nR: nat)
    requires IsRun(run, actions, mM, nR)
    ensures exists longer, more :: GoesOn(run, actions, longer, more, mM, nR) && Last(longer).phase.FinishedPhase?
  {
    var longer, more := run, actions;
    if Last(longer).phase.MapPhase? {
      longer, more := CompletePhase(longer, more, mM, nR);
      longer, more := OneStep(longer, more, mM, nR, CheckPhase);
    }
    if Last(longer).phase.ReducePhase? {
      longer, more := CompletePhase(longer, more, mM, nR);
      longer, more := OneStep(longer, more, mM, nR, CheckPhase);
    }
    assert GoesOn(run, actions, longer, more, mM, nR) && Last(longer).phase.FinishedPhase?;
  }

  // ----- One worker is told ----------------------------------------------------------

  const LastTask := Task(FinishTask, -1)

  /** Before the finished phase nothing speaks of its task; then there is one, in the queue
      or handed out. */
  ghost predicate OneLast(c: Coord) {
    && (forall t :: t in c.queue && t.kind.FinishTask? ==> t == LastTask)
    && (if c.phase.FinishedPhase? then c.queue[LastTask] + (if LastTask in c.handed then 1 else 0) == 1
        else LastTask !in c.queue && LastTask !in c.handed)
  }

  lemma OneLastCheck(c: Coord)
    requires Inv(c) && OneLast(c) && Enabled(c, CheckPhase)
    ensures OneLast(Do(c, CheckPhase))
  {
    forall t ensures TasksOf(ReduceTask, c.nR)[t] > 0 ==> t.kind.ReduceTask? {
      TasksCount(ReduceTask, c.nR, t);
    }
  }

  lemma OneLastMove(c: Coord, a: Action)
    requires Inv(c) && OneLast(c) && Enabled(c, a) && (a.Dispatch? || a.Timeout?)
    ensures OneLast(Do(c, a))
  {
    var d := Do(c, a);
    if a.Timeout? {
      RunningTask(c, a.t);
      assert d.queue[LastTask] == c.queue[LastTask];
    }
    forall t | t in d.queue && t.kind.FinishTask? ensures t == LastTask {
      assert t in c.queue;
    }
  }

  lemma OneLastStart(mM: nat, nR: nat)
    ensures OneLast(Make(mM, nR))
  {
    forall t ensures t in Make(mM, nR).queue ==> t.kind.MapTask? {
      TasksCount(MapTask, mM, t);
    }
  }

  lemma OneLastStep(c: Coord, a: Action)
    requires Inv(c) && OneLast(c) && Enabled(c, a)
    ensures OneLast(Do(c, a))
  {
    match a {
      case CheckPhase => OneLastCheck(c);
      case Dispatch(_) => OneLastMove(c, a);
      case Timeout(_) => OneLastMove(c, a);
      case _ =>
    }
  }

  lemma {:induction false} OneLastAlong(run: seq<Coord>, actions: seq<Action>, mM: nat, nR: nat, k: nat)
    requires IsRun(run, actions, mM, nR) && k < |run|
    ensures OneLast(run[k])
  {
    if k == 0 {
      OneLastStart(mM, nR);
    } else {
      OneLastAlong(run, actions, mM, nR, k - 1);
      RunInv(run, actions, mM, nR, k - 1);
      assert StepAt(run, actions, k - 1);
      OneLastStep(run[k - 1], actions[k - 1]);
    }
  }

  lemma {:induction false} HandedStays(run: seq<Coord>, actions: seq<Action>, mM: nat, nR: nat, j: nat, k: nat, t: Task)
    requires IsRun(run, actions, mM, nR) && j <= k < |run| && t in run[j].handed
    ensures t in run[k].handed
  {
    if j < k {
      HandedStays(run, actions, mM, nR, j, k - 1, t);
      assert StepAt(run, actions, k - 1);
    }
  }

  /** Once one worker has been told to stop, no task of any kind is handed out again: any
      other worker that asks waits for ever. */
  lemma OneWorkerIsTold(run: seq<Coord>, actions: seq<Action>, mM: nat, nR: nat, j: nat, k: nat)
    requires IsRun(run, actions, mM, nR) && j < |actions| && actions[j] == Dispatch(LastTask) && j < k < |run|
    ensures run[k].queue == multiset{} && run[k].phase.FinishedPhase? && forall a :: Enabled(run[k], a) ==> a.Report?
  {
    var c := run[k];
    assert StepAt(run, actions, j);
    HandedStays(run, actions, mM, nR, j + 1, k, LastTask);
    OneLastAlong(run, actions, mM, nR, k);
    RunInv(run, actions, mM, nR, k);
    forall t ensures t !in c.queue && t !in c.traced {
      assert TaskOK(c, t);
    }
  }
}
