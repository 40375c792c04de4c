/**
 Replicas follow the log.  In every run in which no snapshot is taken in from behind, the
 state of a service, in memory and in its stored snapshot, is the state of a prefix of the
 one committed log, whatever is handed over again, left out or overtaken by snapshots.

 The invariant of one service is stated relative to a state X and a position D: what the
 service holds is X followed by the commands behind D.  With the blank state and position
 0 it says that the service follows the log; `KvBehind` uses it with a gap.
 */
module KvReplicas {
  import opened RaftPeer
  import opened RaftHistory
  import opened RaftCluster
  import opened RaftInvariant
  import opened RaftSnapshots
  import opened RaftSafety
  import opened KvSystem
  import K = KvService

  // ----- The committed log -----------------------------------------------------------

  /** T is a prefix of what the cluster has committed. */
  ghost predicate Decided(T: Log, h: History) {
    |T| > 0 && exists b: int :: Committed(T, b, h)
  }

  lemma DecidedGrows(T: Log, h: History, h': History)
    requires Decided(T, h) && h.commits <= h'.commits && Grows(h.leaders, h'.leaders)
    ensures Decided(T, h')
  {
    var b :| Committed(T, b, h);
    CommittedGrows(T, b, b, h, h');
  }

  lemma DecidedComparable(R: Log, T: Log, h: History, n: nat)
    requires Decided(R, h) && Decided(T, h) && HistoryOK(h, n)
    ensures R <= T || T <= R
  {
    var b :| Committed(R, b, h);
    var c :| Committed(T, c, h);
    var d := if b < c then c else b;
    CommittedGrows(R, b, d, h, h);
    CommittedGrows(T, c, d, h, h);
    CommittedComparable(R, T, d, h, n);
  }

  lemma DecidedPrefix(R: Log, T: Log, h: History)
    requires Decided(T, h) && R <= T && |R| > 0
    ensures Decided(R, h)
  {
    var b :| Committed(T, b, h);
    CommittedPrefix(R, T, b, h);
  }

  // ----- What a service holds --------------------------------------------------------

  function Ops(decode: Decode, L: Log): seq<K.Op> {
    seq(|L|, i requires 0 <= i < |L| => decode(L[i].command))
  }

  /** The state after the commands of the log T. */
  function StateOf(decode: Decode, T: Log): K.Store {
    K.Fold(Ops(decode, if T == [] then [] else T[1..]))
  }

  function Reach(D: nat, im: Image): nat {
    Max(D, im.at)
  }

  ghost predicate Shows(decode: Decode, im: Image, X: Image, D: nat, T: Log) {
    && |T| == Reach(D, im) + 1
    && im.store == K.ApplyAll(X.store, Ops(decode, T[D + 1..]))
    && forall i: nat :: i in im.has <==> i in X.has || D < i <= Reach(D, im)
  }

  /** The state is X followed by the committed commands behind position D. */
  ghost predicate Reflects(decode: Decode, im: Image, X: Image, D: nat, h: History) {
    exists T :: Decided(T, h) && Shows(decode, im, X, D, T)
  }

  predicate Places(m: ApplyMsg, T: Log) {
    0 < m.index && |T| == m.index + 1 && T[m.index] == Entry(m.command, m.term)
  }

  /** A command handed over is the committed one of its index. */
  ghost predicate MsgOK(m: ApplyMsg, h: History) {
    exists T :: Decided(T, h) && Places(m, T)
  }

  ghost predicate QueueOK(queue: seq<ApplyMsg>, h: History) {
    forall k {:trigger queue[k]} :: 0 <= k < |queue| ==> queue[k].index == queue[0].index + k && MsgOK(queue[k], h)
  }

  /** Raft goes on where the service is, or before. */
  ghost predicate InLine(D: nat, node: Node, svc: Service) {
    var P, reach := node.peer, Reach(D, svc.now);
    && P.lastApplied <= reach
    && (P.applying <==> node.sending.Some?)
    && (svc.queue != [] ==>
          && node.sending == Some(svc.queue[|svc.queue| - 1].index)
          && D < svc.queue[0].index <= reach + 1
          && (P.lastApplied < svc.queue[0].index || P.lastApplied <= P.lastIncludedIndex))
    && (svc.queue == [] && node.sending.Some? ==> node.sending.value <= reach)
    && (svc.hand.Some? ==> svc.hand.value <= reach && svc.hand.value <= P.commitIndex)
  }

  ghost predicate Tracks(decode: Decode, X: Image, D: nat, node: Node, h: History, svc: Service) {
    Reflects(decode, svc.now, X, D, h) && QueueOK(svc.queue, h) && InLine(D, node, svc)
  }

  lemma ReflectsGrows(decode: Decode, im: Image, X: Image, D: nat, h: History, h': History)
    requires Reflects(decode, im, X, D, h) && h.commits <= h'.commits && Grows(h.leaders, h'.leaders)
    ensures Reflects(decode, im, X, D, h')
  {
    var T :| Decided(T, h) && Shows(decode, im, X, D, T);
    DecidedGrows(T, h, h');
  }

  lemma QueueGrows(queue: seq<ApplyMsg>, h: History, h': History)
    requires QueueOK(queue, h) && h.commits <= h'.commits && Grows(h.leaders, h'.leaders)
    ensures QueueOK(queue, h')
  {
    forall k | 0 <= k < |queue| ensures queue[k].index == queue[0].index + k && MsgOK(queue[k], h') {
      var T :| Decided(T, h) && Places(queue[k], T);
      DecidedGrows(T, h, h');
    }
  }

  // ----- One command -----------------------------------------------------------------

  /** A command at or before the reached position was handed over before; the next one
      extends the prefix. */
  lemma ReceiveShows(decode: Decode, im: Image, X: Image, D: nat, T: Log, m: ApplyMsg, R: Log, h: History, n: nat)
    requires HistoryOK(h, n) && Decided(T, h) && Shows(decode, im, X, D, T)
    requires Decided(R, h) && Places(m, R) && D < m.index <= Reach(D, im) + 1
    ensures Reflects(decode, After(decode, im, m), X, D, h)
  {
    var im' := After(decode, im, m);
    DecidedComparable(R, T, h, n);
    var ops, op := Ops(decode, T[D + 1..]), decode(m.command);
    if m.index < |T| {
      assert R <= T && R[m.index] == T[m.index] == T[D + 1..][m.index - D - 1];
      assert ops[m.index - D - 1] == op;
      K.ReplayChangesNothing(X.store, ops, m.index - D - 1);
      assert Shows(decode, im', X, D, T);
    } else {
      var ops' := Ops(decode, R[D + 1..]);
      assert T == R[..m.index];
      assert ops' == ops + [op];
      assert ops'[..|ops'| - 1] == ops;
      assert Shows(decode, im', X, D, R);
    }
  }

  lemma ReceiveTracks(decode: Decode, X: Image, D: nat, node: Node, h: History, n: nat, svc: Service)
    requires HistoryOK(h, n) && Tracks(decode, X, D, node, h, svc) && svc.queue != []
    requires node.sending.Some? ==> node.sending.value <= node.peer.commitIndex
    ensures Tracks(decode, X, D, node, h, Receive(decode, svc))
  {
    var m, svc' := svc.queue[0], Receive(decode, svc);
    var T :| Decided(T, h) && Shows(decode, svc.now, X, D, T);
    assert MsgOK(m, h);
    var R :| Decided(R, h) && Places(m, R);
    ReceiveShows(decode, svc.now, X, D, T, m, R, h, n);
    assert svc.queue[|svc.queue| - 1].index == m.index + |svc.queue| - 1;
    forall k | 0 <= k < |svc'.queue| ensures svc'.queue[k].index == svc'.queue[0].index + k && MsgOK(svc'.queue[k], h) {
      assert svc'.queue[k] == svc.queue[k + 1] && svc'.queue[0] == svc.queue[1];
    }
  }

  // ----- Sections of Raft that leave the service alone -------------------------------

  lemma ElectionOffsets(s: Cluster, a: Action)
    requires Enabled(s, a) && Elects(a)
    ensures SameOffsets(s.nodes[a.p].peer, PeerAfter(s, a))
  {
  }

  lemma AppendOffsets(P: Peer, a: AppendArgs)
    requires |P.logs| > 0
    ensures SameOffsets(P, HandleAppend(P, a).0)
  {
  }

  lemma ReplyOffsets(P: Peer, me: nat, from: nat, a: AppendArgs, r: AppendReply)
    requires me < |P.matchIndex| && from < |P.nextIndex| == |P.matchIndex|
    ensures SameOffsets(P, OnAppendReply(P, me, from, a, r))
  {
  }

  predicate Serves(a: Action) {
    a.BeginApply? || a.EndApply? || a.Install? || a.Trim? || a.Restart?
  }

  predicate SameOffsets(P: Peer, P': Peer) {
    && P'.commitIndex >= P.commitIndex && P'.lastApplied == P.lastApplied
    && P'.lastIncludedIndex == P.lastIncludedIndex && P'.applying == P.applying
  }

  lemma OffsetsKept(s: Cluster, a: Action)
    requires Enabled(s, a) && !Serves(a)
    ensures SameOffsets(s.nodes[a.p].peer, PeerAfter(s, a))
  {
    var P := s.nodes[a.p].peer;
    if Elects(a) {
      ElectionOffsets(s, a);
    } else {
      match a {
        case GetAppend(_, m) => AppendOffsets(P, m.append);
        case GetAppendReply(p, m) => ReplyOffsets(P, p, m.from, m.append, m.appendReply);
        case _ =>
      }
    }
  }

  lemma SendingKept(s: Cluster, a: Action)
    requires Enabled(s, a) && !Serves(a)
    ensures |Do(s, a).nodes| == |s.nodes| && Do(s, a).nodes[a.p].sending == s.nodes[a.p].sending
  {
  }

  lemma QuietTracks(decode: Decode, X: Image, D: nat, s: Cluster, a: Action, svc: Service)
    requires Inv(s) && Enabled(s, a) && !Serves(a) && Tracks(decode, X, D, s.nodes[a.p], s.history, svc)
    ensures |Do(s, a).nodes| == |s.nodes| && Tracks(decode, X, D, Do(s, a).nodes[a.p], Do(s, a).history, svc)
    ensures Do(s, a).nodes[a.p].peer.lastApplied == s.nodes[a.p].peer.lastApplied
  {
    PeersAfter(s, a, a.p);
    OffsetsKept(s, a);
    SendingKept(s, a);
    StepExtends(s, a);
    ReflectsGrows(decode, svc.now, X, D, s.history, Do(s, a).history);
    QueueGrows(svc.queue, s.history, Do(s, a).history);
  }

  lemma ElectionOthers(s: Cluster, a: Action, p: nat)
    requires Enabled(s, a) && p < |s.nodes| && p != a.p && Elects(a)
    ensures |Do(s, a).nodes| == |s.nodes| && Do(s, a).nodes[p] == s.nodes[p]
  {
  }

  lemma OthersStay(s: Cluster, a: Action, p: nat)
    requires Enabled(s, a) && p < |s.nodes| && p != a.p
    ensures |Do(s, a).nodes| == |s.nodes| && Do(s, a).nodes[p] == s.nodes[p]
  {
    if Elects(a) {
      ElectionOthers(s, a, p);
    }
  }

  lemma OtherTracks(decode: Decode, X: Image, D: nat, s: Cluster, a: Action, p: nat, svc: Service)
    requires Inv(s) && Enabled(s, a) && p < |s.nodes| && p != a.p && Tracks(decode, X, D, s.nodes[p], s.history, svc)
    ensures |Do(s, a).nodes| == |s.nodes| && Tracks(decode, X, D, Do(s, a).nodes[p], Do(s, a).history, svc)
    ensures Do(s, a).nodes[p] == s.nodes[p]
  {
    OthersStay(s, a, p);
    StepExtends(s, a);
    ReflectsGrows(decode, svc.now, X, D, s.history, Do(s, a).history);
    QueueGrows(svc.queue, s.history, Do(s, a).history);
  }

  // ----- Batches ---------------------------------------------------------------------

  /** The batch is a stretch of the committed log. */
  lemma BatchDecided(P: Peer, p: nat, n: nat, h: History)
    requires PeerOK(P, p, n, h) && CanApply(P)
    ensures BatchEnd(P) == P.commitIndex && BatchStart(P) == P.lastApplied + 1
    ensures QueueOK(Batch(P), h) && Batch(P) != [] && Batch(P)[0].index == P.lastApplied + 1
    ensures Batch(P)[|Batch(P)| - 1].index == P.commitIndex
  {
    var L := Full(P);
    assert |L| == LastIndex(P) + 1;
    forall k | 0 <= k < |Batch(P)| ensures Batch(P)[k].index == Batch(P)[0].index + k && MsgOK(Batch(P)[k], h) {
      var m := Batch(P)[k];
      var T := L[..m.index + 1];
      assert L[m.index] == P.logs[m.index - P.lastIncludedIndex];
      assert T <= L[..P.commitIndex + 1];
      CommittedPrefix(T, L[..P.commitIndex + 1], P.currentTerm, h);
      assert Decided(T, h) && Places(m, T);
    }
  }

  lemma BeginTracks(decode: Decode, X: Image, D: nat, s: Cluster, p: nat, svc: Service)
    requires Inv(s) && Enabled(s, BeginApply(p)) && Tracks(decode, X, D, s.nodes[p], s.history, svc)
    requires D <= s.nodes[p].peer.lastApplied
    ensures Tracks(decode, X, D, Do(s, BeginApply(p)).nodes[p], s.history, svc.(queue := Batch(s.nodes[p].peer)))
  {
    assert NodeOK(s.nodes[p], p, |s.nodes|, s.history);
    BatchDecided(s.nodes[p].peer, p, |s.nodes|, s.history);
  }

  lemma EndTracks(decode: Decode, X: Image, D: nat, s: Cluster, p: nat, svc: Service)
    requires Enabled(s, EndApply(p)) && Tracks(decode, X, D, s.nodes[p], s.history, svc) && svc.queue == []
    ensures Tracks(decode, X, D, Do(s, EndApply(p)).nodes[p], s.history, svc)
  {
  }

  // ----- Snapshots of the service's own ----------------------------------------------

  lemma SaveTracks(decode: Decode, X: Image, D: nat, s: Cluster, p: nat, svc: Service)
    requires svc.hand.Some? && Enabled(s, Trim(p, svc.hand.value)) && Tracks(decode, X, D, s.nodes[p], s.history, svc)
    ensures Tracks(decode, X, D, Do(s, Trim(p, svc.hand.value)).nodes[p], s.history, Saved(s.nodes[p].peer, svc))
    ensures Do(s, Trim(p, svc.hand.value)).nodes[p].peer.lastApplied >= s.nodes[p].peer.lastApplied
  {
    assert Saved(s.nodes[p].peer, svc).now == svc.now;
  }

  // ----- Every step except a reset ---------------------------------------------------

  predicate Resets(x: System, e: Event, p: nat)
    requires Possible(x, e)
  {
    || (e.Raft? && e.a == Restart(p))
    || (e.TakeIn? && e.p == p && Accepts(x.raft.nodes[p].peer, e.args))
  }

  /** The section of Raft in a step. */
  function Section(x: System, e: Event): Option<Action>
    requires Possible(x, e)
  {
    match e
    case Raft(a) => Some(a)
    case Deliver(_) => None
    case SaveSnapshot(p) => Some(Trim(p, x.services[p].hand.value))
    case TakeIn(p, args, _) => Some(Install(p, args))
  }

  lemma NextRaft(decode: Decode, x: System, e: Event)
    requires Inv(x.raft) && Possible(x, e)
    ensures var y := Next(decode, x, e);
            && Inv(y.raft) && |y.raft.nodes| == |x.raft.nodes| == |y.services|
            && x.raft.history.commits <= y.raft.history.commits
            && Grows(x.raft.history.leaders, y.raft.history.leaders)
  {
    if Section(x, e).Some? {
      StepKeepsInv(x.raft, Section(x, e).value);
      SameSize(x.raft, Section(x, e).value);
      StepExtends(x.raft, Section(x, e).value);
    } else {
      forall T | T in x.raft.history.leaders ensures LeaderGrows(T, x.raft.history.leaders, x.raft.history.leaders) {
      }
    }
  }

  ghost predicate TracksIn(decode: Decode, X: Image, D: nat, x: System, p: nat) {
    && p < |x.raft.nodes| == |x.services|
    && Tracks(decode, X, D, x.raft.nodes[p], x.raft.history, x.services[p])
  }

  /** The service's peer counts as applied what is behind the gap. */
  predicate Beyond(D: nat, x: System, p: nat) {
    p < |x.raft.nodes| && D <= x.raft.nodes[p].peer.lastApplied
  }

  lemma RaftTracks(decode: Decode, X: Image, D: nat, x: System, a: Action)
    requires Inv(x.raft) && Possible(x, Raft(a)) && TracksIn(decode, X, D, x, a.p) && !a.Restart?
    requires a.BeginApply? ==> Beyond(D, x, a.p)
    ensures TracksIn(decode, X, D, Next(decode, x, Raft(a)), a.p)
    ensures Beyond(D, x, a.p) ==> Beyond(D, Next(decode, x, Raft(a)), a.p)
  {
    SameSize(x.raft, a);
    if a.BeginApply? {
      BeginTracks(decode, X, D, x.raft, a.p, x.services[a.p]);
    } else if a.EndApply? {
      EndTracks(decode, X, D, x.raft, a.p, x.services[a.p]);
    } else {
      QuietTracks(decode, X, D, x.raft, a, x.services[a.p]);
    }
  }

  lemma RefusedTracks(decode: Decode, X: Image, D: nat, x: System, p: nat, args: SnapshotArgs, image: Image)
    requires Possible(x, TakeIn(p, args, image)) && TracksIn(decode, X, D, x, p) && !Accepts(x.raft.nodes[p].peer, args)
    ensures TracksIn(decode, X, D, Next(decode, x, TakeIn(p, args, image)), p)
    ensures Next(decode, x, TakeIn(p, args, image)).raft.nodes[p] == x.raft.nodes[p]
  {
    assert Do(x.raft, Install(p, args)).nodes[p] == x.raft.nodes[p];
  }

  lemma OwnTracks(decode: Decode, X: Image, D: nat, x: System, e: Event, p: nat)
    requires Inv(x.raft) && Possible(x, e) && TracksIn(decode, X, D, x, p) && !Resets(x, e, p)
    requires if e.Raft? then e.a.p == p else e.p == p
    requires e.Raft? && e.a.BeginApply? ==> Beyond(D, x, p)
    ensures TracksIn(decode, X, D, Next(decode, x, e), p)
    ensures Beyond(D, x, p) ==> Beyond(D, Next(decode, x, e), p)
  {
    match e {
      case Raft(a) => RaftTracks(decode, X, D, x, a);
      case Deliver(_) =>
        assert NodeOK(x.raft.nodes[p], p, |x.raft.nodes|, x.raft.history);
        ReceiveTracks(decode, X, D, x.raft.nodes[p], x.raft.history, |x.raft.nodes|, x.services[p]);
      case SaveSnapshot(_) => SaveTracks(decode, X, D, x.raft, p, x.services[p]);
      case TakeIn(_, args, image) => RefusedTracks(decode, X, D, x, p, args, image);
    }
  }

  /** Whatever anybody does, a service stays on its track until it is reset. */
  lemma StepTracks(decode: Decode, X: Image, D: nat, x: System, e: Event, p: nat)
    requires Inv(x.raft) && Possible(x, e) && TracksIn(decode, X, D, x, p) && !Resets(x, e, p)
    requires e.Raft? && e.a == BeginApply(p) ==> Beyond(D, x, p)
    ensures TracksIn(decode, X, D, Next(decode, x, e), p)
    ensures Beyond(D, x, p) ==> Beyond(D, Next(decode, x, e), p)
  {
    if (if e.Raft? then e.a.p == p else e.p == p) {
      OwnTracks(decode, X, D, x, e, p);
    } else if Section(x, e).Some? {
      OtherTracks(decode, X, D, x.raft, Section(x, e).value, p, x.services[p]);
    }
  }

  // ----- Stored and sent snapshots ---------------------------------------------------

  ghost predicate ImageOK(decode: Decode, im: Image, h: History) {
    Reflects(decode, im, BLANK, 0, h)
  }

  ghost predicate ServiceOK(decode: Decode, x: System, p: nat) {
    && TracksIn(decode, BLANK, 0, x, p)
    && ImageOK(decode, x.services[p].disk, x.raft.history)
    && x.raft.nodes[p].peer.lastIncludedIndex <= x.services[p].disk.at
  }

  ghost predicate PairOK(decode: Decode, pair: (SnapshotArgs, Image), h: History) {
    ImageOK(decode, pair.1, h) && pair.0.lastIncludedIndex <= pair.1.at
  }

  ghost predicate SystemOK(decode: Decode, x: System) {
    && Inv(x.raft) && |x.services| == |x.raft.nodes|
    && (forall p {:trigger ServiceOK(decode, x, p)} :: 0 <= p < |x.services| ==> ServiceOK(decode, x, p))
    && (forall pair {:trigger PairOK(decode, pair, x.raft.history)} :: pair in x.images ==> PairOK(decode, pair, x.raft.history))
  }

  lemma RestartTracks(decode: Decode, x: System, p: nat)
    requires Inv(x.raft) && Possible(x, Raft(Restart(p))) && ServiceOK(decode, x, p)
    ensures ServiceOK(decode, Next(decode, x, Raft(Restart(p))), p)
  {
    var P := x.raft.nodes[p].peer;
    assert NodeOK(x.raft.nodes[p], p, |x.raft.nodes|, x.raft.history);
    BootOK(P, p, |x.raft.nodes|, x.raft.history);
  }

  /** A snapshot that is not behind puts the service where Raft goes on. */
  lemma TakeInTracks(decode: Decode, x: System, p: nat, args: SnapshotArgs, image: Image)
    requires Inv(x.raft) && Possible(x, TakeIn(p, args, image)) && Accepts(x.raft.nodes[p].peer, args)
    requires ServiceOK(decode, x, p) && PairOK(decode, (args, image), x.raft.history)
    requires NotBehind(x.raft.nodes[p], x.services[p], image)
    ensures ServiceOK(decode, Next(decode, x, TakeIn(p, args, image)), p)
  {
    var P, P' := x.raft.nodes[p].peer, Next(decode, x, TakeIn(p, args, image)).raft.nodes[p].peer;
    assert P'.lastApplied == Max(P.lastApplied, args.lastIncludedIndex);
  }

  lemma DiskKept(s: Cluster, a: Action)
    requires Enabled(s, a) && !a.Install? && !a.Trim? && !a.Restart?
    ensures |Do(s, a).nodes| == |s.nodes|
    ensures Do(s, a).nodes[a.p].peer.lastIncludedIndex == s.nodes[a.p].peer.lastIncludedIndex
  {
    PeersAfter(s, a, a.p);
    if !Serves(a) {
      OffsetsKept(s, a);
    }
  }

  lemma SaveKeeps(P: Peer, index: nat, snapshot: Log)
    ensures TakeSnapshot(P, index, snapshot).lastIncludedIndex == if Stores(P, index) then index else P.lastIncludedIndex
  {
  }

  lemma ResetService(decode: Decode, x: System, e: Event, p: nat)
    requires SystemOK(decode, x) && Possible(x, e) && Careful(x, e) && p < |x.services| && Resets(x, e, p)
    ensures ServiceOK(decode, Next(decode, x, e), p)
  {
    assert ServiceOK(decode, x, p);
    if e.Raft? {
      RestartTracks(decode, x, p);
    } else {
      assert PairOK(decode, (e.args, e.image), x.raft.history);
      TakeInTracks(decode, x, p, e.args, e.image);
    }
  }

  /** The stored snapshot after a step of the peer's own. */
  lemma OwnDisk(decode: Decode, x: System, e: Event, p: nat)
    requires Inv(x.raft) && Possible(x, e) && ServiceOK(decode, x, p) && !Resets(x, e, p)
    requires if e.Raft? then e.a.p == p else e.p == p
    ensures var y := Next(decode, x, e);
            && p < |y.raft.nodes| == |y.services|
            && y.raft.nodes[p].peer.lastIncludedIndex <= y.services[p].disk.at
            && (y.services[p].disk == x.services[p].disk || y.services[p].disk == x.services[p].now)
  {
    NextRaft(decode, x, e);
    if e.Raft? {
      DiskKept(x.raft, e.a);
    } else if e.SaveSnapshot? {
      SavedDisk(x.raft, p, x.services[p]);
    }
  }

  lemma SavedDisk(s: Cluster, p: nat, svc: Service)
    requires svc.hand.Some? && Enabled(s, Trim(p, svc.hand.value)) && svc.hand.value <= svc.now.at
    requires s.nodes[p].peer.lastIncludedIndex <= svc.disk.at
    ensures Do(s, Trim(p, svc.hand.value)).nodes[p].peer.lastIncludedIndex <= Saved(s.nodes[p].peer, svc).disk.at
  {
    var P, i := s.nodes[p].peer, svc.hand.value;
    SaveKeeps(P, i, Full(P)[..i + 1]);
  }

  lemma OwnService(decode: Decode, x: System, e: Event, p: nat)
    requires SystemOK(decode, x) && Possible(x, e) && Careful(x, e) && p < |x.services|
    requires if e.Raft? then e.a.p == p else e.p == p
    ensures ServiceOK(decode, Next(decode, x, e), p)
  {
    assert ServiceOK(decode, x, p);
    if Resets(x, e, p) {
      ResetService(decode, x, e, p);
    } else {
      NextRaft(decode, x, e);
      OwnTracks(decode, BLANK, 0, x, e, p);
      OwnDisk(decode, x, e, p);
      ReflectsGrows(decode, x.services[p].disk, BLANK, 0, x.raft.history, Next(decode, x, e).raft.history);
      ReflectsGrows(decode, x.services[p].now, BLANK, 0, x.raft.history, Next(decode, x, e).raft.history);
    }
  }

  lemma OtherService(decode: Decode, x: System, e: Event, p: nat)
    requires SystemOK(decode, x) && Possible(x, e) && p < |x.services|
    requires if e.Raft? then e.a.p != p else e.p != p
    ensures ServiceOK(decode, Next(decode, x, e), p)
  {
    assert ServiceOK(decode, x, p);
    NextRaft(decode, x, e);
    if Section(x, e).Some? {
      OtherTracks(decode, BLANK, 0, x.raft, Section(x, e).value, p, x.services[p]);
    }
    ReflectsGrows(decode, x.services[p].disk, BLANK, 0, x.raft.history, Next(decode, x, e).raft.history);
  }

  lemma PairsKept(decode: Decode, x: System, e: Event, pair: (SnapshotArgs, Image))
    requires SystemOK(decode, x) && Possible(x, e) && pair in Next(decode, x, e).images
    ensures PairOK(decode, pair, Next(decode, x, e).raft.history)
  {
    NextRaft(decode, x, e);
    if pair !in x.images {
      assert ServiceOK(decode, x, e.a.p);
      assert pair.0.lastIncludedIndex == x.raft.nodes[e.a.p].peer.lastIncludedIndex;
    } else {
      assert PairOK(decode, pair, x.raft.history);
    }
    ReflectsGrows(decode, pair.1, BLANK, 0, x.raft.history, Next(decode, x, e).raft.history);
  }

  lemma StepKeepsSystem(decode: Decode, x: System, e: Event)
    requires SystemOK(decode, x) && Possible(x, e) && Careful(x, e)
    ensures SystemOK(decode, Next(decode, x, e))
  {
    var y := Next(decode, x, e);
    NextRaft(decode, x, e);
    forall p | 0 <= p < |y.services| ensures ServiceOK(decode, y, p) {
      if (if e.Raft? then e.a.p == p else e.p == p) {
        OwnService(decode, x, e, p);
      } else {
        OtherService(decode, x, e, p);
      }
    }
    forall pair | pair in y.images ensures PairOK(decode, pair, y.raft.history) {
      PairsKept(decode, x, e, pair);
    }
  }

  lemma StartOK(decode: Decode, n: nat)
    ensures SystemOK(decode, Start(n))
  {
    var x := Start(n);
    InitKeepsInv(n);
    forall p | 0 <= p < n ensures ServiceOK(decode, x, p) {
      var T: Log := [PLACEHOLDER];
      assert Committed(T, 0, x.raft.history);
      assert Decided(T, x.raft.history) && Shows(decode, BLANK, BLANK, 0, T);
    }
  }

  // ----- The theorems ----------------------------------------------------------------

  lemma {:induction false} CarefulRunOK(decode: Decode, run: seq<System>, events: seq<Event>, n: nat, k: nat)
    requires CarefulRun(decode, run, events, n) && k < |run|
    ensures SystemOK(decode, run[k]) && |run[k].services| == n
  {
    if k == 0 {
      StartOK(decode, n);
    } else {
      CarefulRunOK(decode, run, events, n, k - 1);
      assert Happens(decode, run, events, k - 1) && CarefulAt(run, events, k - 1);
      StepKeepsSystem(decode, run[k - 1], events[k - 1]);
      NextRaft(decode, run[k - 1], events[k - 1]);
    }
  }

  ghost predicate IsStateOf(decode: Decode, im: Image, T: Log) {
    && |T| == im.at + 1 && im.store == StateOf(decode, T)
    && forall i: nat :: i in im.has <==> 1 <= i <= im.at
  }

  /** Every replica always holds, in memory and on disk, the state of a committed prefix
      that is no shorter than what Raft counts as applied and as snapshotted. */
  lemma ServicesFollowLog(decode: Decode, run: seq<System>, events: seq<Event>, n: nat, k: nat, p: nat)
    requires CarefulRun(decode, run, events, n) && k < |run| && p < n
    ensures |run[k].services| == |run[k].raft.nodes| == n
    ensures var svc, P, h := run[k].services[p], run[k].raft.nodes[p].peer, run[k].raft.history;
            && (exists T :: Decided(T, h) && IsStateOf(decode, svc.now, T))
            && (exists T :: Decided(T, h) && IsStateOf(decode, svc.disk, T))
            && P.lastApplied <= svc.now.at && P.lastIncludedIndex <= svc.disk.at
  {
    CarefulRunOK(decode, run, events, n, k);
    assert ServiceOK(decode, run[k], p);
    ImageIsState(decode, run[k].services[p].now, run[k].raft.history);
    ImageIsState(decode, run[k].services[p].disk, run[k].raft.history);
  }

  lemma ImageIsState(decode: Decode, im: Image, h: History)
    requires ImageOK(decode, im, h)
    ensures exists T :: Decided(T, h) && IsStateOf(decode, im, T)
  {
    var T :| Decided(T, h) && Shows(decode, im, BLANK, 0, T);
    assert IsStateOf(decode, im, T);
  }

  /** Two replicas, at any two moments, hold states of one log, the one at most as far
      along as the other; with the same position they hold the same state. */
  lemma ReplicasAgree(decode: Decode, run: seq<System>, events: seq<Event>, n: nat, j: nat, k: nat, p: nat, q: nat)
    returns (T: Log)
    requires CarefulRun(decode, run, events, n) && j <= k < |run| && p < n && q < n
    ensures |run[j].services| == |run[k].services| == n
    ensures var a, b := run[j].services[p].now, run[k].services[q].now;
            && Decided(T, run[k].raft.history) && |T| == Max(a.at, b.at) + 1
            && a.store == StateOf(decode, T[..a.at + 1]) && b.store == StateOf(decode, T[..b.at + 1])
            && (a.at == b.at ==> a.store == b.store)
  {
    var R := PrefixAt(decode, run, events, n, j, p);
    var S := PrefixAt(decode, run, events, n, k, q);
    HistoryGrows(decode, run, events, n, j, k);
    DecidedGrows(R, run[j].raft.history, run[k].raft.history);
    T := OneLog(decode, run[j].services[p].now, run[k].services[q].now, R, S, run[k].raft.history, n);
  }

  lemma PrefixAt(decode: Decode, run: seq<System>, events: seq<Event>, n: nat, k: nat, p: nat) returns (T: Log)
    requires CarefulRun(decode, run, events, n) && k < |run| && p < n
    ensures |run[k].services| == n && HistoryOK(run[k].raft.history, n)
    ensures Decided(T, run[k].raft.history) && IsStateOf(decode, run[k].services[p].now, T)
  {
    CarefulRunOK(decode, run, events, n, k);
    ServicesFollowLog(decode, run, events, n, k, p);
    T :| Decided(T, run[k].raft.history) && IsStateOf(decode, run[k].services[p].now, T);
  }

  lemma OneLog(decode: Decode, a: Image, b: Image, R: Log, S: Log, h: History, n: nat) returns (T: Log)
    requires HistoryOK(h, n) && Decided(R, h) && IsStateOf(decode, a, R) && Decided(S, h) && IsStateOf(decode, b, S)
    ensures Decided(T, h) && |T| == Max(a.at, b.at) + 1
    ensures a.store == StateOf(decode, T[..a.at + 1]) && b.store == StateOf(decode, T[..b.at + 1])
    ensures a.at == b.at ==> a.store == b.store
  {
    DecidedComparable(R, S, h, n);
    T := if |R| < |S| then S else R;
    assert T[..a.at + 1] == R && T[..b.at + 1] == S;
  }

  lemma {:induction false} HistoryGrows(decode: Decode, run: seq<System>, events: seq<Event>, n: nat, j: nat, k: nat)
    requires CarefulRun(decode, run, events, n) && j <= k < |run|
    ensures run[j].raft.history.commits <= run[k].raft.history.commits
    ensures Grows(run[j].raft.history.leaders, run[k].raft.history.leaders)
  {
    if j == k {
      forall T | T in run[k].raft.history.leaders ensures LeaderGrows(T, run[k].raft.history.leaders, run[k].raft.history.leaders) {
      }
    } else {
      HistoryGrows(decode, run, events, n, j, k - 1);
      CarefulRunOK(decode, run, events, n, k - 1);
      assert Happens(decode, run, events, k - 1);
      NextRaft(decode, run[k - 1], events[k - 1]);
      var a, b, c := run[j].raft.history.leaders, run[k - 1].raft.history.leaders, run[k].raft.history.leaders;
      forall T | T in a ensures LeaderGrows(T, a, c) {
        assert LeaderGrows(T, a, b) && LeaderGrows(T, b, c);
      }
    }
  }
}
