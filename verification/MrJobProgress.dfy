/**
 A MapReduce job can always be brought to its end: from every state that the coordinator,
 the workers and the files reach, with whatever tasks half done, lost or reported late,
 some continuation leaves every output file complete.
 */
module MrJobProgress {
  import opened MapReduce
  import opened MrJob
  import C = MrCoordinator
  import MrProgress

  function Last<T>(s: seq<T>): T
    requires s != []
  {
    s[|s| - 1]
  }

  ghost predicate GoesOn(p: Program, run: seq<Job>, steps: seq<Step>, longer: seq<Job>, more: seq<Step>) {
    run <= longer && steps <= more && IsRun(p, longer, more)
  }

  lemma OneStep(p: Program, run: seq<Job>, steps: seq<Step>, s: Step) returns (longer: seq<Job>, more: seq<Step>)
    requires IsRun(p, run, steps) && Enabled(p, Last(run), s)
    ensures GoesOn(p, run, steps, longer, more) && Last(longer) == Do(p, Last(run), s)
  {
    longer, more := run + [Do(p, Last(run), s)], steps + [s];
    forall k | 0 <= k < |more| ensures StepAt(p, longer, more, k) {
      assert k < |steps| ==> StepAt(p, run, steps, k);
    }
  }

  // ----- What a reduce task can print ------------------------------------------------

  lemma {:induction false} Place(s: Pairs, x: KeyValue) returns (k: nat)
    requires SortedByKey(s)
    ensures k <= |s| && Fits(s, x, k)
  {
    if s == [] || !Less(x.key, s[|s| - 1].key) {
      k := |s|;
    } else {
      k := Place(s[..|s| - 1], x);
      Asymmetric(x.key, s[|s| - 1].key);
    }
  }

  lemma {:induction false} CanSort(s: Pairs) returns (r: Pairs)
    ensures multiset(r) == multiset(s) && SortedByKey(r)
  {
    if s == [] {
      r := [];
    } else {
      var front, x := s[..|s| - 1], s[|s| - 1];
      r := CanSort(front);
      var k := Place(r, x);
      Inserted(r, x, k);
      InsertedElements(r, x, k);
      r := r[..k] + [x] + r[k..];
      assert s == front + [x];
    }
  }

  lemma AnotherKey(out: seq<Line>, s: Pairs, reduce: Reducer, i: nat) returns (next: seq<Line>)
    requires SortedByKey(s) && i < |s| && PrintsUpTo(out, s, reduce, i)
    ensures PrintsUpTo(next, s, reduce, i + 1)
  {
    var line := (s[i].key, reduce(s[i].key, ValuesOf(s, s[i].key)));
    forall k ensures HasKey(s[..i + 1], k) <==> HasKey(s[..i], k) || k == s[i].key {
      KeysUpTo(s, i, i + 1, k);
    }
    if HasKey(s[..i], s[i].key) {
      next := out;
    } else {
      PrintsStep(out, s, reduce, i, i + 1, line);
      next := out + [line];
    }
  }

  lemma {:induction false} CanList(s: Pairs, reduce: Reducer, i: nat) returns (out: seq<Line>)
    requires SortedByKey(s) && i <= |s|
    ensures PrintsUpTo(out, s, reduce, i)
  {
    if i == 0 {
      out := [];
    } else {
      out := CanList(s, reduce, i - 1);
      out := AnotherKey(out, s, reduce, i - 1);
    }
  }

  lemma CanPrint(temp: Pairs, reduce: Reducer) returns (lines: seq<Line>)
    ensures MayPrint(lines, temp, reduce)
  {
    var sorted := CanSort(temp);
    lines := CanList(sorted, reduce, |sorted|);
    assert sorted[..|sorted|] == sorted;
    assert Prints(lines, sorted, reduce);
  }

  // ----- A worker can do its task ----------------------------------------------------

  lemma {:induction false} FreshWorker(busy: set<nat>) returns (w: nat)
    ensures forall v :: v in busy ==> v < w
  {
    if busy == {} {
      w := 0;
    } else {
      var v :| v in busy;
      var above := FreshWorker(busy - {v});
      w := if above <= v then v + 1 else above;
      forall u | u in busy ensures u < w {
        assert u == v || u in busy - {v};
      }
    }
  }

  /** Only this worker and the files have moved. */
  predicate Working(j: Job, k: Job, w: nat) {
    k.coord == j.coord && w in k.workers
  }

  lemma {:induction false} RenameAll(p: Program, run: seq<Job>, steps: seq<Step>, w: nat, m: nat, n: nat)
      returns (longer: seq<Job>, more: seq<Step>)
    requires IsRun(p, run, steps) && n <= p.n && m < |p.parts|
    requires w in Last(run).workers && Last(run).workers[w].Mapping? && Last(run).workers[w].m == m
    ensures GoesOn(p, run, steps, longer, more) && Working(Last(run), Last(longer), w)
    ensures var work := Last(longer).workers[w]; work.Mapping? && work.m == m && forall r :: 0 <= r < n ==> r in work.renamed
  {
    if n == 0 {
      longer, more := run, steps;
    } else {
      longer, more := RenameAll(p, run, steps, w, m, n - 1);
      longer, more := OneStep(p, longer, more, Rename(w, n - 1));
    }
  }

  lemma {:induction false} ReadAll(p: Program, run: seq<Job>, steps: seq<Step>, w: nat, r: nat)
      returns (longer: seq<Job>, more: seq<Step>)
    requires IsRun(p, run, steps)
    requires w in Last(run).workers && Last(run).workers[w].Reducing? && Last(run).workers[w].r == r
    ensures GoesOn(p, run, steps, longer, more) && Working(Last(run), Last(longer), w)
    ensures var work := Last(longer).workers[w]; work.Reducing? && work.r == r && work.next == |p.parts|
    decreases |p.parts| - Last(run).workers[w].next
  {
    var work := Last(run).workers[w];
    RunInv(p, run, steps, |run| - 1);
    assert WorkOK(p, Last(run), work);
    if work.next == |p.parts| {
      longer, more := run, steps;
    } else {
      NoFileMissing(p, run, steps, |run| - 1, w, work.next);
      longer, more := OneStep(p, run, steps, Read(w));
      longer, more := ReadAll(p, longer, more, w, r);
    }
  }

  lemma ReduceAll(p: Program, run: seq<Job>, steps: seq<Step>, w: nat, r: nat)
      returns (longer: seq<Job>, more: seq<Step>)
    requires IsRun(p, run, steps)
    requires w in Last(run).workers && Last(run).workers[w].Reducing? && Last(run).workers[w].r == r
    ensures GoesOn(p, run, steps, longer, more) && Working(Last(run), Last(longer), w)
    ensures var work := Last(longer).workers[w]; work.Reducing? && work.r == r && work.written
  {
    longer, more := ReadAll(p, run, steps, w, r);
    var lines := CanPrint(Last(longer).workers[w].temp, p.reduce);
    longer, more := OneStep(p, longer, more, Write(w, lines));
  }

  lemma Perform(p: Program, run: seq<Job>, steps: seq<Step>, w: nat, t: C.Task)
      returns (longer: seq<Job>, more: seq<Step>)
    requires IsRun(p, run, steps) && w in Last(run).workers && t.id >= 0 && !t.kind.FinishTask?
    requires Last(run).workers[w] == Started(t)
    ensures GoesOn(p, run, steps, longer, more) && Working(Last(run), Last(longer), w)
    ensures TaskOf(Last(longer).workers[w]) == t && Complete(Last(longer).workers[w], p.n)
  {
    RunInv(p, run, steps, |run| - 1);
    assert WorkOK(p, Last(run), Last(run).workers[w]);
    if t.kind.MapTask? {
      longer, more := RenameAll(p, run, steps, w, t.id, p.n);
    } else {
      longer, more := ReduceAll(p, run, steps, w, t.id);
    }
  }

  // ----- A phase can be completed ----------------------------------------------------

  lemma Queued(p: Program, run: seq<Job>, steps: seq<Step>, t: C.Task) returns (longer: seq<Job>, more: seq<Step>)
    requires IsRun(p, run, steps) && C.InOnePlace(Last(run).coord, t) && Last(run).coord.counted[t] == 0
    ensures GoesOn(p, run, steps, longer, more) && t in Last(longer).coord.queue
    ensures Last(longer).coord.(queue := multiset{}, traced := multiset{}) == Last(run).coord.(queue := multiset{}, traced := multiset{})
  {
    longer, more := run, steps;
    if t in Last(run).coord.traced {
      longer, more := OneStep(p, run, steps, Coordinate(C.Timeout(t)));
    }
  }

  /** A worker that never did anything before performs t. */
  lemma DoneByNew(p: Program, run: seq<Job>, steps: seq<Step>, t: C.Task)
      returns (longer: seq<Job>, more: seq<Step>, w: nat)
    requires IsRun(p, run, steps) && t in Last(run).coord.queue && !t.kind.FinishTask? && t.id >= 0
    ensures GoesOn(p, run, steps, longer, more) && w in Last(longer).workers
    ensures Last(longer).coord == C.Do(Last(run).coord, C.Dispatch(t))
    ensures TaskOf(Last(longer).workers[w]) == t && Complete(Last(longer).workers[w], p.n)
  {
    w := FreshWorker(Last(run).workers.Keys);
    longer, more := OneStep(p, run, steps, Take(w, t));
    longer, more := Perform(p, longer, more, w, t);
  }

  lemma CountOne(p: Program, run: seq<Job>, steps: seq<Step>, t: C.Task) returns (longer: seq<Job>, more: seq<Step>)
    requires IsRun(p, run, steps) && C.InOnePlace(Last(run).coord, t) && Last(run).coord.counted[t] == 0
    requires !t.kind.FinishTask? && t.id >= 0
    ensures GoesOn(p, run, steps, longer, more)
    ensures var c, d := Last(run).coord, Last(longer).coord;
            d.phase == c.phase && d.quantity == c.quantity && d.finished == c.finished + 1
  {
    var w;
    longer, more := Queued(p, run, steps, t);
    longer, more, w := DoneByNew(p, longer, more, t);
    longer, more := OneStep(p, longer, more, Finish(w));
    longer, more := OneStep(p, longer, more, Coordinate(C.CountFinish(t)));
  }

  lemma {:induction false} CompletePhase(p: Program, run: seq<Job>, steps: seq<Step>)
      returns (longer: seq<Job>, more: seq<Step>)
    requires IsRun(p, run, steps) && !Last(run).coord.phase.FinishedPhase?
    ensures GoesOn(p, run, steps, longer, more)
    ensures Last(longer).coord.phase == Last(run).coord.phase
    ensures Last(longer).coord.finished == Last(longer).coord.quantity
    decreases Last(run).coord.quantity - Last(run).coord.finished
  {
    var c := Last(run).coord;
    RunInv(p, run, steps, |run| - 1);
    longer, more := run, steps;
    forall i | 0 <= i < c.quantity ensures c.counted[C.Task(C.KindOf(c.phase), i)] <= 1 {
      assert C.TaskOK(c, C.Task(C.KindOf(c.phase), i));
    }
    C.AllCounted(c, C.KindOf(c.phase), c.quantity);
    if c.finished < c.quantity {
      var i := MrProgress.SomeUncounted(c, C.KindOf(c.phase), c.quantity);
      assert C.TaskOK(c, C.Task(C.KindOf(c.phase), i));
      longer, more := CountOne(p, run, steps, C.Task(C.KindOf(c.phase), i));
      longer, more := CompletePhase(p, longer, more);
    }
  }

  lemma NextPhase(p: Program, run: seq<Job>, steps: seq<Step>) returns (longer: seq<Job>, more: seq<Step>)
    requires IsRun(p, run, steps) && !Last(run).coord.phase.FinishedPhase?
    ensures GoesOn(p, run, steps, longer, more)
    ensures Last(longer).coord.phase == if Last(run).coord.phase.MapPhase? then C.ReducePhase else C.FinishedPhase
  {
    longer, more := CompletePhase(p, run, steps);
    longer, more := OneStep(p, longer, more, Coordinate(C.CheckPhase));
  }

  lemma LastPhase(p: Program, run: seq<Job>, steps: seq<Step>) returns (longer: seq<Job>, more: seq<Step>)
    requires IsRun(p, run, steps)
    ensures GoesOn(p, run, steps, longer, more) && Last(longer).coord.phase.FinishedPhase?
  {
    longer, more := run, steps;
    if Last(longer).coord.phase.MapPhase? {
      longer, more := NextPhase(p, longer, more);
    }
    if Last(longer).coord.phase.ReducePhase? {
      longer, more := NextPhase(p, longer, more);
    }
  }

  ghost predicate Ended(p: Program, run: seq<Job>) {
    && run != [] && Last(run).coord.phase.FinishedPhase?
    && forall r :: 0 <= r < p.n ==> r in Last(run).out
  }

  /** Every run of a job has a continuation in which the coordinator is done and every
      output file is there. */
  lemma CanFinish(p: Program, run: seq<Job>, steps: seq<Step>)
    requires IsRun(p, run, steps)
    ensures exists longer, more :: GoesOn(p, run, steps, longer, more) && Ended(p, longer)
  {
    var longer, more := LastPhase(p, run, steps);
    forall r | 0 <= r < p.n ensures r in Last(longer).out {
      DoneMeansOutput(p, longer, more, |longer| - 1, r);
    }
  }
}
