/**
 What a snapshot from behind does.  The condition under which replicas follow the log is
 exact: an accepted snapshot leaves a service complete in every continuation if and only if
 it is not behind the commands that were handed over and will not be handed over again.
 After one that is behind there is a continuation, of the peer's own steps only, from which
 on the skipped commands never reach the service, whatever anybody does, until the peer
 restarts or takes in another snapshot.
 */
module KvBehind {
  import opened RaftPeer
  import opened RaftHistory
  import opened RaftCluster
  import opened RaftInvariant
  import opened RaftSafety
  import opened KvSystem
  import opened KvReplicas
  import K = KvService

  /** Everything that Raft counts as applied went into the state of the service. */
  ghost predicate Complete(x: System, p: nat) {
    && p < |x.raft.nodes| == |x.services|
    && forall i: nat :: 1 <= i <= x.raft.nodes[p].peer.lastApplied ==> i in x.services[p].now.has
  }

  predicate CalmAt(run: seq<System>, events: seq<Event>, p: nat, k: nat)
    requires k < |events| < |run|
  {
    Possible(run[k], events[k]) && !Resets(run[k], events[k], p)
  }

  /** Peer p neither restarts nor takes in a snapshot. */
  ghost predicate Calm(run: seq<System>, events: seq<Event>, p: nat)
    requires |events| < |run|
  {
    forall k {:trigger CalmAt(run, events, p, k)} :: 0 <= k < |events| ==> CalmAt(run, events, p, k)
  }

  ghost predicate Leads(decode: Decode, run: seq<System>, events: seq<Event>, x: System, p: nat) {
    Goes(decode, run, events) && run[0] == x && Calm(run, events, p)
  }

  ghost predicate StaysComplete(decode: Decode, x: System, p: nat) {
    forall run, events {:trigger Leads(decode, run, events, x, p)} ::
      Leads(decode, run, events, x, p) ==> Complete(run[|events|], p)
  }

  // ----- On the track for good -------------------------------------------------------

  lemma {:induction false} TrackKept(decode: Decode, X: Image, D: nat, run: seq<System>, events: seq<Event>, x: System,
                                     p: nat, k: nat)
    requires Leads(decode, run, events, x, p) && k < |run|
    requires Inv(x.raft) && TracksIn(decode, X, D, x, p) && Beyond(D, x, p)
    ensures Inv(run[k].raft) && TracksIn(decode, X, D, run[k], p) && Beyond(D, run[k], p)
  {
    if k > 0 {
      TrackKept(decode, X, D, run, events, x, p, k - 1);
      assert Happens(decode, run, events, k - 1) && CalmAt(run, events, p, k - 1);
      NextRaft(decode, run[k - 1], events[k - 1]);
      StepTracks(decode, X, D, run[k - 1], events[k - 1], p);
    }
  }

  lemma FollowingStaysComplete(decode: Decode, x: System, p: nat)
    requires Inv(x.raft) && ServiceOK(decode, x, p)
    ensures StaysComplete(decode, x, p)
  {
    forall run, events | Leads(decode, run, events, x, p) ensures Complete(run[|events|], p) {
      TrackKept(decode, BLANK, 0, run, events, x, p, |events|);
    }
  }

  // ----- The gap ---------------------------------------------------------------------

  /** The service holds the state of the committed prefix R and what came behind D; the
      commands between are missing, and Raft counts them as applied. */
  ghost predicate Gap(decode: Decode, x: System, p: nat, X: Image, R: Log, D: nat) {
    && Inv(x.raft) && TracksIn(decode, X, D, x, p) && Beyond(D, x, p)
    && Decided(R, x.raft.history) && IsStateOf(decode, X, R) && X.at < D
  }

  /** The committed log as far as the service was handed commands. */
  lemma ConsumedDecided(decode: Decode, x: System, p: nat) returns (T: Log)
    requires Inv(x.raft) && ServiceOK(decode, x, p)
    ensures 0 <= Consumed(x.raft.nodes[p], x.services[p]) && |T| == Consumed(x.raft.nodes[p], x.services[p]) + 1
    ensures Decided(T, x.raft.history)
  {
    var D := Consumed(x.raft.nodes[p], x.services[p]);
    var S :| Decided(S, x.raft.history) && Shows(decode, x.services[p].now, BLANK, 0, S);
    T := S[..D + 1];
    DecidedPrefix(T, S, x.raft.history);
  }

  /** Right after the install the service holds the snapshot, and Raft goes on behind D. */
  lemma GapOpens(decode: Decode, x: System, p: nat, args: SnapshotArgs, image: Image)
    requires SystemOK(decode, x) && Possible(x, TakeIn(p, args, image)) && Accepts(x.raft.nodes[p].peer, args)
    requires !NotBehind(x.raft.nodes[p], x.services[p], image)
    ensures TracksIn(decode, image, Consumed(x.raft.nodes[p], x.services[p]), Next(decode, x, TakeIn(p, args, image)), p)
  {
    assert ServiceOK(decode, x, p) && PairOK(decode, (args, image), x.raft.history);
    var y := Next(decode, x, TakeIn(p, args, image));
    var T := ConsumedDecided(decode, x, p);
    var D := |T| - 1;
    assert T[D + 1..] == [];
    assert Shows(decode, image, image, D, T);
    assert y.raft.nodes[p].peer.lastApplied == Max(x.raft.nodes[p].peer.lastApplied, args.lastIncludedIndex);
    assert InLine(D, y.raft.nodes[p], y.services[p]);
  }

  lemma Longer(decode: Decode, run: seq<System>, events: seq<Event>, x: System, p: nat, e: Event)
    requires Leads(decode, run, events, x, p) && Possible(run[|events|], e) && !Resets(run[|events|], e, p)
    ensures Leads(decode, run + [Next(decode, run[|events|], e)], events + [e], x, p)
  {
    var run', events' := run + [Next(decode, run[|events|], e)], events + [e];
    forall k | 0 <= k < |events'| ensures Happens(decode, run', events', k) && CalmAt(run', events', p, k) {
      if k < |events| {
        assert Happens(decode, run, events, k) && CalmAt(run, events, p, k);
      }
    }
  }

  /** On the way to the end of the batch. */
  ghost predicate Draining(decode: Decode, x: System, p: nat, X: Image, D: nat) {
    && Inv(x.raft) && TracksIn(decode, X, D, x, p) && WellFormed(x.raft)
    && !x.raft.nodes[p].peer.snapshotInFlight
    && (x.raft.nodes[p].sending.None? ==> Beyond(D, x, p))
    && (x.raft.nodes[p].sending.Some? ==> x.services[p].queue != [] || D <= x.raft.nodes[p].sending.value || Beyond(D, x, p))
  }

  predicate OwnStep(e: Event, p: nat) {
    e == Raft(SnapshotHandedOver(p)) || e == Deliver(p) || e == Raft(EndApply(p))
  }

  /** Steps of p alone that begin at x and lead on to the last state of the run. */
  ghost predicate OwnRun(decode: Decode, run: seq<System>, events: seq<Event>, x: System, p: nat) {
    Leads(decode, run, events, x, p) && forall k :: 0 <= k < |events| ==> OwnStep(events[k], p)
  }

  lemma {:induction false} Drain(decode: Decode, run: seq<System>, events: seq<Event>, x: System, p: nat, X: Image, D: nat)
    returns (run': seq<System>, events': seq<Event>)
    requires OwnRun(decode, run, events, x, p) && Draining(decode, run[|events|], p, X, D)
    ensures OwnRun(decode, run', events', x, p) && Draining(decode, run'[|events'|], p, X, D)
    ensures run'[|events'|].services[p].queue == []
    decreases |run[|events|].services[p].queue|
  {
    var y := run[|events|];
    if y.services[p].queue == [] {
      run', events' := run, events;
    } else {
      DrainOne(decode, y, p, X, D);
      Longer(decode, run, events, x, p, Deliver(p));
      run', events' := Drain(decode, run + [Next(decode, y, Deliver(p))], events + [Deliver(p)], x, p, X, D);
    }
  }

  lemma DrainOne(decode: Decode, y: System, p: nat, X: Image, D: nat)
    requires Draining(decode, y, p, X, D) && y.services[p].queue != []
    ensures Possible(y, Deliver(p)) && !Resets(y, Deliver(p), p) && Draining(decode, Next(decode, y, Deliver(p)), p, X, D)
    ensures |Next(decode, y, Deliver(p)).services[p].queue| < |y.services[p].queue|
  {
    NextRaft(decode, y, Deliver(p));
    StepTracks(decode, X, D, y, Deliver(p), p);
    var queue := y.services[p].queue;
    assert queue[|queue| - 1].index == queue[0].index + |queue| - 1;
  }

  lemma EndBatch(decode: Decode, y: System, p: nat, X: Image, D: nat)
    requires Draining(decode, y, p, X, D) && y.services[p].queue == [] && y.raft.nodes[p].sending.Some?
    ensures var e := Raft(EndApply(p));
            && Possible(y, e) && !Resets(y, e, p) && Inv(Next(decode, y, e).raft)
            && TracksIn(decode, X, D, Next(decode, y, e), p) && Beyond(D, Next(decode, y, e), p)
  {
    var e := Raft(EndApply(p));
    NextRaft(decode, y, e);
    StepTracks(decode, X, D, y, e, p);
    assert Next(decode, y, e).raft.nodes[p].peer == FinishBatch(y.raft.nodes[p].peer, y.raft.nodes[p].sending.value);
  }

  /** Once the batch is done, Raft counts the skipped commands as applied. */
  lemma BatchDone(decode: Decode, y: System, p: nat, X: Image, D: nat) returns (run: seq<System>, events: seq<Event>)
    requires Draining(decode, y, p, X, D)
    ensures OwnRun(decode, run, events, y, p) && Inv(run[|events|].raft)
    ensures TracksIn(decode, X, D, run[|events|], p) && Beyond(D, run[|events|], p)
  {
    run, events := Drain(decode, [y], [], y, p, X, D);
    var z := run[|events|];
    if z.raft.nodes[p].sending.Some? {
      EndBatch(decode, z, p, X, D);
      Longer(decode, run, events, y, p, Raft(EndApply(p)));
      run, events := run + [Next(decode, z, Raft(EndApply(p)))], events + [Raft(EndApply(p))];
    }
  }

  lemma {:induction false} PrefixStays(decode: Decode, run: seq<System>, events: seq<Event>, x: System, p: nat, R: Log, k: nat)
    requires Leads(decode, run, events, x, p) && Inv(x.raft) && Decided(R, x.raft.history) && k < |run|
    ensures Inv(run[k].raft) && Decided(R, run[k].raft.history)
  {
    if k > 0 {
      PrefixStays(decode, run, events, x, p, R, k - 1);
      assert Happens(decode, run, events, k - 1);
      NextRaft(decode, run[k - 1], events[k - 1]);
      DecidedGrows(R, run[k - 1].raft.history, run[k].raft.history);
    }
  }

  lemma HandedOver(decode: Decode, y: System, p: nat, X: Image, D: nat)
    requires Inv(y.raft) && TracksIn(decode, X, D, y, p) && WellFormed(y.raft)
    requires y.raft.nodes[p].sending.None? ==> Beyond(D, y, p)
    requires y.raft.nodes[p].sending.Some? ==>
               y.services[p].queue != [] || D <= y.raft.nodes[p].sending.value || Beyond(D, y, p)
    ensures var e := Raft(SnapshotHandedOver(p));
            Possible(y, e) && !Resets(y, e, p) && Draining(decode, Next(decode, y, e), p, X, D)
  {
    var e := Raft(SnapshotHandedOver(p));
    NextRaft(decode, y, e);
    StepTracks(decode, X, D, y, e, p);
    var z := Next(decode, y, e).raft;
    forall q | 0 <= q < |z.nodes| ensures |z.nodes[q].peer.logs| > 0 && |z.nodes[q].peer.nextIndex| == |z.nodes[q].peer.matchIndex| == |z.nodes| {
      assert NodeOK(z.nodes[q], q, |z.nodes|, z.history);
    }
  }

  lemma Joined(decode: Decode, y: System, p: nat, run: seq<System>, events: seq<Event>)
    returns (run': seq<System>, events': seq<Event>)
    requires Possible(y, Raft(SnapshotHandedOver(p))) && !Resets(y, Raft(SnapshotHandedOver(p)), p)
    requires OwnRun(decode, run, events, Next(decode, y, Raft(SnapshotHandedOver(p))), p)
    ensures OwnRun(decode, run', events', y, p) && run'[|events'|] == run[|events|]
  {
    var e := Raft(SnapshotHandedOver(p));
    run', events' := [y] + run, [e] + events;
    forall k | 0 <= k < |events'| ensures Happens(decode, run', events', k) && CalmAt(run', events', p, k) {
      if k > 0 {
        assert Happens(decode, run, events, k - 1) && CalmAt(run, events, p, k - 1);
      }
    }
  }

  /** After a snapshot from behind, the peer's own steps lead to a gap. */
  lemma BehindOpensGap(decode: Decode, x: System, p: nat, args: SnapshotArgs, image: Image)
    returns (run: seq<System>, events: seq<Event>, R: Log)
    requires SystemOK(decode, x) && Possible(x, TakeIn(p, args, image)) && Accepts(x.raft.nodes[p].peer, args)
    requires !NotBehind(x.raft.nodes[p], x.services[p], image)
    ensures OwnRun(decode, run, events, Next(decode, x, TakeIn(p, args, image)), p)
    ensures 0 <= Consumed(x.raft.nodes[p], x.services[p])
    ensures Gap(decode, run[|events|], p, image, R, Consumed(x.raft.nodes[p], x.services[p]))
  {
    var e, D := TakeIn(p, args, image), Consumed(x.raft.nodes[p], x.services[p]);
    var y := Next(decode, x, e);
    NextRaft(decode, x, e);
    assert PairOK(decode, (args, image), x.raft.history);
    ImageIsState(decode, image, x.raft.history);
    R :| Decided(R, x.raft.history) && IsStateOf(decode, image, R);
    DecidedGrows(R, x.raft.history, y.raft.history);
    GapOpens(decode, x, p, args, image);
    AtOnce(decode, x, p, args, image);
    HandedOver(decode, y, p, image, D);
    run, events := BatchDone(decode, Next(decode, y, Raft(SnapshotHandedOver(p))), p, image, D);
    run, events := Joined(decode, y, p, run, events);
    PrefixStays(decode, run, events, y, p, R, |events|);
  }

  lemma AtOnce(decode: Decode, x: System, p: nat, args: SnapshotArgs, image: Image)
    requires SystemOK(decode, x) && Possible(x, TakeIn(p, args, image)) && Accepts(x.raft.nodes[p].peer, args)
    ensures var y, D := Next(decode, x, TakeIn(p, args, image)), Consumed(x.raft.nodes[p], x.services[p]);
            && D >= 0 && p < |y.raft.nodes| == |y.services| && WellFormed(y.raft)
            && (y.raft.nodes[p].sending.None? ==> Beyond(D, y, p))
            && (y.raft.nodes[p].sending.Some? ==>
                  y.services[p].queue != [] || D <= y.raft.nodes[p].sending.value || Beyond(D, y, p))
  {
    assert ServiceOK(decode, x, p);
    NextRaft(decode, x, TakeIn(p, args, image));
    var z := Next(decode, x, TakeIn(p, args, image)).raft;
    forall q | 0 <= q < |z.nodes| ensures |z.nodes[q].peer.logs| > 0 && |z.nodes[q].peer.nextIndex| == |z.nodes[q].peer.matchIndex| == |z.nodes| {
      assert NodeOK(z.nodes[q], q, |z.nodes|, z.history);
    }
  }

  // ----- The theorems ----------------------------------------------------------------

  /** The exact condition for an accepted snapshot. */
  lemma InstallKeepsIff(decode: Decode, run: seq<System>, events: seq<Event>, n: nat, p: nat, args: SnapshotArgs, image: Image)
    requires CarefulRun(decode, run, events, n)
    requires Possible(run[|events|], TakeIn(p, args, image)) && Accepts(run[|events|].raft.nodes[p].peer, args)
    ensures var x := run[|events|];
            NotBehind(x.raft.nodes[p], x.services[p], image) <==>
            StaysComplete(decode, Next(decode, x, TakeIn(p, args, image)), p)
  {
    var x, e := run[|events|], TakeIn(p, args, image);
    CarefulRunOK(decode, run, events, n, |events|);
    NextRaft(decode, x, e);
    if NotBehind(x.raft.nodes[p], x.services[p], image) {
      StepKeepsSystem(decode, x, e);
      assert ServiceOK(decode, Next(decode, x, e), p);
      FollowingStaysComplete(decode, Next(decode, x, e), p);
    } else {
      var D := Consumed(x.raft.nodes[p], x.services[p]);
      var run', events', R := BehindOpensGap(decode, x, p, args, image);
      GapIncomplete(decode, run'[|events'|], p, image, R, D);
      assert Leads(decode, run', events', Next(decode, x, e), p);
    }
  }

  lemma GapIncomplete(decode: Decode, x: System, p: nat, X: Image, R: Log, D: nat)
    requires Gap(decode, x, p, X, R, D)
    ensures !Complete(x, p)
  {
    var T :| Decided(T, x.raft.history) && Shows(decode, x.services[p].now, X, D, T);
    assert D !in x.services[p].now.has;
  }

  /** The gap stays in every continuation without a reset of the peer, whatever the other
      peers do. */
  lemma GapStays(decode: Decode, run: seq<System>, events: seq<Event>, x: System, p: nat, X: Image, R: Log, D: nat)
    requires Leads(decode, run, events, x, p) && Gap(decode, x, p, X, R, D)
    ensures Gap(decode, run[|events|], p, X, R, D)
  {
    TrackKept(decode, X, D, run, events, x, p, |events|);
    PrefixStays(decode, run, events, x, p, R, |events|);
  }

  /** The commands of T that the service with the gap holds. */
  function Kept(decode: Decode, T: Log, r: nat, D: nat): seq<K.Op>
    requires 1 <= r <= D + 1 <= |T|
  {
    Ops(decode, T[1..r]) + Ops(decode, T[D + 1..])
  }

  /** What the service with the gap holds: the committed log without positions |R| to D. */
  lemma GapState(decode: Decode, x: System, p: nat, X: Image, R: Log, D: nat) returns (T: Log)
    requires Gap(decode, x, p, X, R, D)
    ensures Decided(T, x.raft.history) && 1 <= |R| <= D < |T| && R <= T
    ensures x.services[p].now.store == K.Fold(Kept(decode, T, |R|, D))
  {
    T :| Decided(T, x.raft.history) && Shows(decode, x.services[p].now, X, D, T);
    DecidedComparable(R, T, x.raft.history, |x.raft.nodes|);
    assert T[1..|R|] == R[1..];
    K.ApplyConcat(K.EMPTY, Ops(decode, T[1..|R|]), Ops(decode, T[D + 1..]));
  }

  /** A skipped write that is newer than all that the service holds of its client: the
      service would still take it for new, and its state is that of no committed prefix
      with the write. */
  lemma SkippedWriteIsLost(decode: Decode, x: System, p: nat, T: Log, r: nat, D: nat, i: nat, S: Log)
    requires 1 <= r <= i <= D < |T| && Decided(T, x.raft.history) && HistoryOK(x.raft.history, |x.raft.nodes|)
    requires p < |x.services| && x.services[p].now.store == K.Fold(Kept(decode, T, r, D))
    requires var op := decode(T[i].command);
             !op.kind.Get? && forall k :: 0 <= k < |Kept(decode, T, r, D)| && K.WriteOf(Kept(decode, T, r, D)[k], op.client) ==>
                                Kept(decode, T, r, D)[k].request < op.request
    requires Decided(S, x.raft.history) && i < |S|
    ensures K.ShouldApply(x.services[p].now.store, decode(T[i].command))
    ensures x.services[p].now.store != StateOf(decode, S)
  {
    var op, kept := decode(T[i].command), Kept(decode, T, r, D);
    K.TableIsLatest(kept);
    DecidedComparable(S, T, x.raft.history, |x.raft.nodes|);
    assert S[i] == T[i];
    var ops := Ops(decode, S[1..]);
    assert ops[i - 1] == op;
    K.Covered(K.EMPTY, ops, i - 1);
  }
}
