/**
 A run of three peers in which a delayed snapshot takes back a write.  Every step is one of
 the code's own: the write is committed and applied on a replica, the snapshot of the
 command before it arrives late and is accepted, and after the next command the replica
 holds the state of no prefix of the committed log.
 */
module KvLateSnapshot {
  import opened RaftPeer
  import opened RaftHistory
  import opened RaftCluster
  import opened RaftInvariant
  import opened RaftSafety
  import opened KvSystem
  import opened KvReplicas
  import K = KvService

  /** Three clients append one letter each. */
  function Decoded(c: string): K.Op {
    K.Op(K.Append, "k", c, if c == "a" then 0 else if c == "b" then 1 else 2, 1)
  }

  const EA := Entry("a", 1)
  const EB := Entry("b", 1)
  const EC := Entry("c", 1)
  const NOTHING: Log := [PLACEHOLDER]
  const FIRST: Log := [PLACEHOLDER, EA]
  const BOTH: Log := [PLACEHOLDER, EA, EB]
  const CUT: Log := [Entry(NONE_COMMAND, 1)]
  const CUT_BOTH: Log := [Entry(NONE_COMMAND, 1), EB]
  const CUT_ALL: Log := [Entry(NONE_COMMAND, 1), EB, EC]

  const A := Image(K.Store(map["k" := "a"], map[0 := 1]), 1, {1})
  const AB := Image(K.Store(map["k" := "ab"], map[0 := 1, 1 := 1]), 2, {1, 2})
  const AC := Image(K.Store(map["k" := "ac"], map[0 := 1, 2 := 1]), 3, {1, 3})

  const NONE_YET := Service(BLANK, BLANK, [], None)
  const HAS_A := Service(A, A, [], None)
  const HAS_AB := Service(AB, BLANK, [], Some(2))

  // ----- Runs built step by step -----------------------------------------------------

  datatype Trace = Trace(run: seq<System>, events: seq<Event>)

  ghost predicate Ok(t: Trace) {
    Goes(Decoded, t.run, t.events) && t.run[0] == Start(3)
  }

  function Last(t: Trace): System
    requires t.run != []
  {
    t.run[|t.run| - 1]
  }

  function End(t: Trace): Cluster
    requires t.run != []
  {
    Last(t).raft
  }

  lemma Extend(t: Trace, e: Event) returns (t': Trace)
    requires Ok(t) && Possible(Last(t), e)
    ensures Ok(t') && Last(t') == Next(Decoded, Last(t), e) && t'.events == t.events + [e]
  {
    t' := Trace(t.run + [Next(Decoded, Last(t), e)], t.events + [e]);
    forall k | 0 <= k < |t'.events| ensures Happens(Decoded, t'.run, t'.events, k) {
      if k < |t.events| {
        assert Happens(Decoded, t.run, t.events, k);
      }
    }
  }

  // ----- What the run shows of a peer ------------------------------------------------

  datatype View = View(role: Role, term: nat, logs: Log, base: nat, commit: nat, applied: nat, next: seq<nat>, matched: seq<nat>)

  function Look(p: Peer): View {
    View(p.role, p.currentTerm, p.logs, p.lastIncludedIndex, p.commitIndex, p.lastApplied, p.nextIndex, p.matchIndex)
  }

  predicate Idle(node: Node) {
    && !node.peer.applying && !node.peer.snapshotInFlight && node.sending == None
    && |node.peer.logs| > 0 && node.peer.lastIncludedTerm == node.peer.logs[0].term
    && node.peer.storage.snapshot == (if node.peer.lastIncludedIndex == 0 then [] else FIRST)
  }

  ghost predicate At(t: Trace, a: View, b: View, c: View, x: Service, y: Service) {
    && Ok(t)
    && var s, v := End(t), Last(t).services;
       && |s.nodes| == |v| == 3 && WellFormed(s)
       && Look(s.nodes[0].peer) == a && Look(s.nodes[1].peer) == b && Look(s.nodes[2].peer) == c
       && Idle(s.nodes[0]) && Idle(s.nodes[1]) && Idle(s.nodes[2])
       && v[0] == x && v[1] == y
  }

  const FRESH := View(Follower, 0, NOTHING, 0, 0, 0, [0, 0, 0], [0, 0, 0])

  predicate Sent(t: Trace, m: Message)
    requires t.run != []
  {
    m in End(t).net
  }

  // ----- Peer 0 is elected by peer 2 -------------------------------------------------

  lemma Begin() returns (t: Trace)
    ensures At(t, FRESH, FRESH, FRESH, NONE_YET, NONE_YET) && 1 !in End(t).nodes[0].elections
  {
    t := Trace([Start(3)], []);
    assert seq(3, _ => 0) == [0, 0, 0];
  }

  const CANDIDACY := VoteArgs(1, 0, 0, 0)

  lemma Candidate0() returns (t: Trace)
    ensures At(t, FRESH.(role := Candidate, term := 1), FRESH, FRESH, NONE_YET, NONE_YET)
    ensures 1 in End(t).nodes[0].elections && End(t).nodes[0].elections[1] == Tally({}, {0}, false)
    ensures Sent(t, VoteRequest(2, CANDIDACY, NOTHING))
  {
    t := Begin();
    t := Extend(t, Raft(Timeout(0)));
    assert Full(End(t).nodes[0].peer) == NOTHING;
    t := Extend(t, Raft(AskVote(0, 1, 2)));
  }

  const VOTED := FRESH.(term := 1)

  lemma Voted2() returns (t: Trace)
    ensures At(t, FRESH.(role := Candidate, term := 1), FRESH, VOTED, NONE_YET, NONE_YET)
    ensures 1 in End(t).nodes[0].elections && End(t).nodes[0].elections[1] == Tally({2}, {0}, false)
  {
    t := Candidate0();
    t := Extend(t, Raft(GetVoteRequest(2, VoteRequest(2, CANDIDACY, NOTHING))));
    t := Extend(t, Raft(GetVoteReply(0, VoteResponse(2, CANDIDACY, VoteReply(0, true)))));
  }

  const ELECTED := View(Leader, 1, NOTHING, 0, 0, 0, [1, 1, 1], [0, 0, 0])

  lemma Elected0() returns (t: Trace)
    ensures At(t, ELECTED, FRESH, VOTED, NONE_YET, NONE_YET)
  {
    t := Voted2();
    t := Extend(t, Raft(Count(0, 1, 2)));
    assert |{0, 2}| == 2;
    assert seq(3, _ => 1) == [1, 1, 1] && seq(3, i => if i == 0 then 0 else 0) == [0, 0, 0];
  }

  // ----- The first write is committed with peer 2; peer 1 has not answered yet --------

  const APPEND_A := AppendArgs(1, 0, 0, 0, [EA], 0, 0)

  lemma Started() returns (t: Trace)
    ensures At(t, ELECTED.(logs := FIRST), FRESH, VOTED, NONE_YET, NONE_YET)
  {
    t := Elected0();
    t := Extend(t, Raft(ClientStart(0, "a")));
    assert End(t).nodes[0].peer.logs == FIRST;
  }

  lemma Proposed() returns (t: Trace)
    ensures At(t, ELECTED.(logs := FIRST), FRESH, VOTED, NONE_YET, NONE_YET)
    ensures Sent(t, AppendRequest(1, APPEND_A)) && Sent(t, AppendRequest(2, APPEND_A))
  {
    t := Started();
    assert FIRST[1..] == [EA];
    t := Extend(t, Raft(Replicate(0, 1)));
    t := Extend(t, Raft(Replicate(0, 2)));
  }

  const MATCHED_2 := View(Leader, 1, FIRST, 0, 1, 0, [1, 1, 2], [0, 0, 1])
  const VOTED_A := VOTED.(logs := FIRST)

  /** With the copy of one other peer a position is committed. */
  lemma CountsTo(p: Peer, N: nat, other: nat)
    requires |p.matchIndex| == 3 && 1 <= other < 3 && p.matchIndex[other] >= N
    requires TermAt(p, N) == p.currentTerm && N == LastIndex(p) > p.commitIndex && p.role.Leader?
    ensures AdvanceCommit(p, 0).commitIndex == N
  {
    var R := Replicas(p, 0, N);
    assert other in R;
    assert |R - {other}| == |R| - 1;
  }

  lemma Replied(P: Peer, other: nat, a: AppendArgs, N: nat)
    requires |P.nextIndex| == |P.matchIndex| == 3 && 1 <= other < 3 && P.role.Leader? && a.term == P.currentTerm == 1
    requires N == a.prevLogIndex + |a.entries| == LastIndex(P) > P.commitIndex && TermAt(P, N) == P.currentTerm
    requires P.matchIndex[other] <= N && P.nextIndex[other] <= N + 1
    ensures OnAppendReply(P, 0, other, a, AppendReply(1, true)) ==
            P.(commitIndex := N, matchIndex := P.matchIndex[other := N], nextIndex := P.nextIndex[other := N + 1])
  {
    CountsTo(NoteMatch(P, other, N), N, other);
  }

  lemma Held() returns (t: Trace)
    ensures At(t, ELECTED.(logs := FIRST), FRESH, VOTED_A, NONE_YET, NONE_YET)
    ensures Sent(t, AppendRequest(1, APPEND_A)) && Sent(t, AppendResponse(2, APPEND_A, AppendReply(1, true)))
  {
    t := Proposed();
    t := Extend(t, Raft(GetAppend(2, AppendRequest(2, APPEND_A))));
    assert End(t).nodes[2].peer.logs == FIRST;
  }

  lemma Committed() returns (t: Trace)
    ensures At(t, MATCHED_2, FRESH, VOTED_A, NONE_YET, NONE_YET)
    ensures Sent(t, AppendRequest(1, APPEND_A))
  {
    t := Held();
    Replied(End(t).nodes[0].peer, 2, APPEND_A, 1);
    t := Extend(t, Raft(GetAppendReply(0, AppendResponse(2, APPEND_A, AppendReply(1, true)))));
    assert [1, 1, 1][2 := 2] == [1, 1, 2] && [0, 0, 0][2 := 1] == [0, 0, 1];
  }

  // ----- Peer 0 applies it, snapshots it, and sends the snapshot to peer 1 ------------

  /** The three commands that are handed over. */
  lemma Applies(im: Image, c: string, i: nat)
    ensures c == "a" && i == 1 && im == BLANK ==> After(Decoded, im, ApplyMsg(i, c, 1)) == A
    ensures c == "b" && i == 2 && im == A ==> After(Decoded, im, ApplyMsg(i, c, 1)) == AB
    ensures c == "c" && i == 3 && im == A ==> After(Decoded, im, ApplyMsg(i, c, 1)) == AC
  {
    assert "" + "a" == "a" && "a" + "b" == "ab" && "a" + "c" == "ac";
  }

  lemma Applied() returns (t: Trace)
    ensures At(t, MATCHED_2.(applied := 1), FRESH, VOTED_A, NONE_YET.(now := A, hand := Some(1)), NONE_YET)
    ensures Sent(t, AppendRequest(1, APPEND_A))
  {
    t := Committed();
    assert Batch(End(t).nodes[0].peer) == [ApplyMsg(1, "a", 1)];
    t := Extend(t, Raft(BeginApply(0)));
    Applies(BLANK, "a", 1);
    t := Extend(t, Deliver(0));
    t := Extend(t, Raft(EndApply(0)));
  }

  const TRIMMED := View(Leader, 1, CUT, 1, 1, 1, [1, 1, 2], [0, 0, 1])
  const SNAPSHOT := SnapshotArgs(1, 0, 1, 1, FIRST)

  lemma Trimmed() returns (t: Trace)
    ensures At(t, TRIMMED, FRESH, VOTED_A, HAS_A, NONE_YET)
    ensures Sent(t, AppendRequest(1, APPEND_A))
  {
    t := Applied();
    assert Full(End(t).nodes[0].peer) == FIRST;
    assert FIRST[..2] == FIRST && FIRST[2..] == [] && CUT + [] == CUT;
    t := Extend(t, SaveSnapshot(0));
  }

  lemma SnapshotSent() returns (t: Trace)
    ensures At(t, TRIMMED, FRESH, VOTED_A, HAS_A, NONE_YET) && (SNAPSHOT, A) in Last(t).images
    ensures Sent(t, AppendRequest(1, APPEND_A)) && Sent(t, SnapshotRequest(1, SNAPSHOT))
  {
    t := Trimmed();
    assert MakeRequest(End(t).nodes[0].peer, 0, 1) == SendSnapshot(SNAPSHOT);
    assert Shipped(End(t).nodes[0].peer, Replicate(0, 1), A) == {(SNAPSHOT, A)};
    t := Extend(t, Raft(Replicate(0, 1)));
  }

  // ----- Peer 1 follows by ordinary appends and applies both writes -------------------

  const CAUGHT_UP := View(Leader, 1, CUT, 1, 1, 1, [1, 2, 2], [0, 1, 1])

  lemma Received() returns (t: Trace)
    ensures At(t, TRIMMED, VOTED_A, VOTED_A, HAS_A, NONE_YET)
    ensures Sent(t, SnapshotRequest(1, SNAPSHOT)) && (SNAPSHOT, A) in Last(t).images && Sent(t, AppendResponse(1, APPEND_A, AppendReply(0, true)))
  {
    t := SnapshotSent();
    t := Extend(t, Raft(GetAppend(1, AppendRequest(1, APPEND_A))));
    assert End(t).nodes[1].peer.logs == FIRST;
  }

  lemma Answered() returns (t: Trace)
    ensures At(t, CAUGHT_UP, VOTED_A, VOTED_A, HAS_A, NONE_YET)
    ensures Sent(t, SnapshotRequest(1, SNAPSHOT)) && (SNAPSHOT, A) in Last(t).images
  {
    t := Received();
    t := Extend(t, Raft(GetAppendReply(0, AppendResponse(1, APPEND_A, AppendReply(0, true)))));
    assert [1, 1, 2][1 := 2] == [1, 2, 2] && [0, 0, 1][1 := 1] == [0, 1, 1];
  }

  const APPEND_B := AppendArgs(1, 0, 1, 1, [EB], 1, 1)

  lemma SecondStarted() returns (t: Trace)
    ensures At(t, CAUGHT_UP.(logs := CUT_BOTH), VOTED_A, VOTED_A, HAS_A, NONE_YET)
    ensures Sent(t, SnapshotRequest(1, SNAPSHOT)) && (SNAPSHOT, A) in Last(t).images
  {
    t := Answered();
    t := Extend(t, Raft(ClientStart(0, "b")));
    assert End(t).nodes[0].peer.logs == CUT_BOTH;
  }

  lemma Second() returns (t: Trace)
    ensures At(t, CAUGHT_UP.(logs := CUT_BOTH), VOTED_A, VOTED_A, HAS_A, NONE_YET)
    ensures Sent(t, SnapshotRequest(1, SNAPSHOT)) && (SNAPSHOT, A) in Last(t).images && Sent(t, AppendRequest(1, APPEND_B))
  {
    t := SecondStarted();
    assert CUT_BOTH[1..] == [EB];
    assert MakeRequest(End(t).nodes[0].peer, 0, 1) == SendEntries(APPEND_B);
    t := Extend(t, Raft(Replicate(0, 1)));
  }

  const BOTH_COMMITTED := View(Leader, 1, CUT_BOTH, 1, 2, 1, [1, 3, 2], [0, 2, 1])
  const HEARTBEAT := AppendArgs(1, 0, 2, 1, [], 2, 1)
  const FOLLOWING := VOTED.(logs := BOTH, commit := 1)

  lemma SecondHeld() returns (t: Trace)
    ensures At(t, CAUGHT_UP.(logs := CUT_BOTH), FOLLOWING, VOTED_A, HAS_A, NONE_YET)
    ensures Sent(t, SnapshotRequest(1, SNAPSHOT)) && (SNAPSHOT, A) in Last(t).images && Sent(t, AppendResponse(1, APPEND_B, AppendReply(1, true)))
  {
    t := Second();
    t := Extend(t, Raft(GetAppend(1, AppendRequest(1, APPEND_B))));
    assert End(t).nodes[1].peer.logs == BOTH;
  }

  lemma SecondCommitted() returns (t: Trace)
    ensures At(t, BOTH_COMMITTED, FOLLOWING, VOTED_A, HAS_A, NONE_YET)
    ensures Sent(t, SnapshotRequest(1, SNAPSHOT)) && (SNAPSHOT, A) in Last(t).images
  {
    t := SecondHeld();
    Replied(End(t).nodes[0].peer, 1, APPEND_B, 2);
    t := Extend(t, Raft(GetAppendReply(0, AppendResponse(1, APPEND_B, AppendReply(1, true)))));
    assert [1, 2, 2][1 := 3] == [1, 3, 2] && [0, 1, 1][1 := 2] == [0, 2, 1];
  }

  const TOLD := FOLLOWING.(commit := 2)

  lemma Told() returns (t: Trace)
    ensures At(t, BOTH_COMMITTED, TOLD, VOTED_A, HAS_A, NONE_YET)
    ensures Sent(t, SnapshotRequest(1, SNAPSHOT)) && (SNAPSHOT, A) in Last(t).images
  {
    t := SecondCommitted();
    t := Extend(t, Raft(Replicate(0, 1)));
    t := Extend(t, Raft(GetAppend(1, AppendRequest(1, HEARTBEAT))));
  }

  /** The batch of both, with nothing taken out yet. */
  lemma BothBatched() returns (t: Trace)
    ensures Ok(t) && |End(t).nodes| == |Last(t).services| == 3 && WellFormed(End(t))
    ensures Look(End(t).nodes[0].peer) == BOTH_COMMITTED && Look(End(t).nodes[1].peer) == TOLD && Look(End(t).nodes[2].peer) == VOTED_A
    ensures Idle(End(t).nodes[0]) && Idle(End(t).nodes[2])
    ensures End(t).nodes[1].sending == Some(2) && Idle(End(t).nodes[1].(sending := None, peer := End(t).nodes[1].peer.(applying := false)))
    ensures Last(t).services[0] == HAS_A && Last(t).services[1] == NONE_YET.(queue := [ApplyMsg(1, "a", 1), ApplyMsg(2, "b", 1)])
    ensures Sent(t, SnapshotRequest(1, SNAPSHOT)) && (SNAPSHOT, A) in Last(t).images
  {
    t := Told();
    assert Batch(End(t).nodes[1].peer) == [ApplyMsg(1, "a", 1), ApplyMsg(2, "b", 1)];
    t := Extend(t, Raft(BeginApply(1)));
  }

  lemma BothReceived() returns (t: Trace)
    ensures Ok(t) && |End(t).nodes| == |Last(t).services| == 3 && WellFormed(End(t))
    ensures Look(End(t).nodes[0].peer) == BOTH_COMMITTED && Look(End(t).nodes[1].peer) == TOLD && Look(End(t).nodes[2].peer) == VOTED_A
    ensures Idle(End(t).nodes[0]) && Idle(End(t).nodes[2])
    ensures End(t).nodes[1].sending == Some(2) && Idle(End(t).nodes[1].(sending := None, peer := End(t).nodes[1].peer.(applying := false)))
    ensures Last(t).services[0] == HAS_A && Last(t).services[1] == HAS_AB
    ensures Sent(t, SnapshotRequest(1, SNAPSHOT)) && (SNAPSHOT, A) in Last(t).images
  {
    t := BothBatched();
    Applies(BLANK, "a", 1);
    t := Extend(t, Deliver(1));
    Applies(A, "b", 2);
    t := Extend(t, Deliver(1));
  }

  lemma SecondApplied() returns (t: Trace)
    ensures At(t, BOTH_COMMITTED, TOLD.(applied := 2), VOTED_A, HAS_A, HAS_AB)
    ensures Sent(t, SnapshotRequest(1, SNAPSHOT)) && (SNAPSHOT, A) in Last(t).images
  {
    t := BothReceived();
    t := Extend(t, Raft(EndApply(1)));
  }

  // ----- The snapshot arrives --------------------------------------------------------

  /** The delayed snapshot is offered to the service of peer 1, which has both writes. */
  lemma Offered() returns (t: Trace)
    ensures Ok(t) && |End(t).nodes| == |Last(t).services| == 3
    ensures Look(End(t).nodes[0].peer) == BOTH_COMMITTED && Idle(End(t).nodes[0])
    ensures Look(End(t).nodes[1].peer) == TOLD.(applied := 2) && !End(t).nodes[1].peer.applying && End(t).nodes[1].sending == None
    ensures Last(t).services[1] == HAS_AB
    ensures Possible(Last(t), TakeIn(1, SNAPSHOT, A)) && Accepts(End(t).nodes[1].peer, SNAPSHOT)
  {
    t := SecondApplied();
    t := Extend(t, Raft(GetSnapshot(1, SnapshotRequest(1, SNAPSHOT))));
  }

  const MOVED_BACK := View(Follower, 1, CUT_BOTH, 1, 2, 2, [0, 0, 0], [0, 0, 0])

  /** The peers 0 and 1 after the install, and the service of peer 1. */
  ghost predicate Then(t: Trace, a: View, b: View, svc: Service) {
    && Ok(t) && |End(t).nodes| == |Last(t).services| == 3 && WellFormed(End(t))
    && Look(End(t).nodes[0].peer) == a && Look(End(t).nodes[1].peer) == b
    && Idle(End(t).nodes[0]) && Idle(End(t).nodes[1]) && Last(t).services[1] == svc
  }

  /** It is taken in, and the second write is gone. */
  lemma WriteGone() returns (t: Trace)
    ensures Then(t, BOTH_COMMITTED, MOVED_BACK, HAS_A)
  {
    t := Offered();
    assert BOTH[2..] == [EB] && CUT + [EB] == CUT_BOTH;
    t := Extend(t, TakeIn(1, SNAPSHOT, A));
    t := Extend(t, Raft(SnapshotHandedOver(1)));
  }

  // ----- A third write is applied behind it ------------------------------------------

  const APPEND_C := AppendArgs(1, 0, 2, 1, [EC], 2, 1)

  lemma ThirdStarted() returns (t: Trace)
    ensures Then(t, BOTH_COMMITTED.(logs := CUT_ALL), MOVED_BACK, HAS_A)
  {
    t := WriteGone();
    t := Extend(t, Raft(ClientStart(0, "c")));
    assert End(t).nodes[0].peer.logs == CUT_ALL;
  }

  lemma Third() returns (t: Trace)
    ensures Then(t, BOTH_COMMITTED.(logs := CUT_ALL), MOVED_BACK, HAS_A) && Sent(t, AppendRequest(1, APPEND_C))
  {
    t := ThirdStarted();
    assert CUT_ALL[2..] == [EC];
    assert MakeRequest(End(t).nodes[0].peer, 0, 1) == SendEntries(APPEND_C);
    t := Extend(t, Raft(Replicate(0, 1)));
  }

  lemma ThirdHeld() returns (t: Trace)
    ensures Then(t, BOTH_COMMITTED.(logs := CUT_ALL), MOVED_BACK.(logs := CUT_ALL), HAS_A)
    ensures Sent(t, AppendResponse(1, APPEND_C, AppendReply(1, true)))
  {
    t := Third();
    t := Extend(t, Raft(GetAppend(1, AppendRequest(1, APPEND_C))));
    assert End(t).nodes[1].peer.logs == CUT_ALL;
  }

  const ALL_COMMITTED := View(Leader, 1, CUT_ALL, 1, 3, 1, [1, 4, 2], [0, 3, 1])
  const LAST_BEAT := AppendArgs(1, 0, 3, 1, [], 3, 1)

  lemma ThirdCommitted() returns (t: Trace)
    ensures Then(t, ALL_COMMITTED, MOVED_BACK.(logs := CUT_ALL), HAS_A)
  {
    t := ThirdHeld();
    Replied(End(t).nodes[0].peer, 1, APPEND_C, 3);
    t := Extend(t, Raft(GetAppendReply(0, AppendResponse(1, APPEND_C, AppendReply(1, true)))));
    assert [1, 3, 2][1 := 4] == [1, 4, 2] && [0, 2, 1][1 := 3] == [0, 3, 1];
  }

  lemma ThirdTold() returns (t: Trace)
    ensures Then(t, ALL_COMMITTED, MOVED_BACK.(logs := CUT_ALL, commit := 3), HAS_A)
  {
    t := ThirdCommitted();
    t := Extend(t, Raft(Replicate(0, 1)));
    t := Extend(t, Raft(GetAppend(1, AppendRequest(1, LAST_BEAT))));
  }

  lemma ThirdReceived() returns (t: Trace)
    ensures Ok(t) && |End(t).nodes| == |Last(t).services| == 3 && WellFormed(End(t))
    ensures Look(End(t).nodes[1].peer) == MOVED_BACK.(logs := CUT_ALL, commit := 3) && End(t).nodes[1].peer.storage.snapshot == FIRST
    ensures Last(t).services[1].now == AC
  {
    t := ThirdTold();
    assert Batch(End(t).nodes[1].peer) == [ApplyMsg(3, "c", 1)];
    t := Extend(t, Raft(BeginApply(1)));
    Applies(A, "c", 3);
    t := Extend(t, Deliver(1));
  }

  // ----- The state of no prefix ------------------------------------------------------

  lemma {:induction false} RaftSafe(t: Trace, k: nat)
    requires Ok(t) && k < |t.run|
    ensures Inv(t.run[k].raft)
  {
    if k == 0 {
      InitKeepsInv(3);
    } else {
      RaftSafe(t, k - 1);
      assert Happens(Decoded, t.run, t.events, k - 1);
      NextRaft(Decoded, t.run[k - 1], t.events[k - 1]);
    }
  }

  /** A prefix with the second write counts its client; a shorter one lacks the third. */
  lemma NoPrefix(S: Log)
    requires S <= [PLACEHOLDER, EA, EB, EC] || [PLACEHOLDER, EA, EB, EC] <= S
    ensures StateOf(Decoded, S) != AC.store
  {
    var ops := Ops(Decoded, if S == [] then [] else S[1..]);
    if |S| > 2 {
      assert ops[1] == Decoded("b");
      K.Covered(K.EMPTY, ops, 1);
    } else if |S| == 2 {
      assert ops == [Decoded("a")] && ops[..0] == [];
      assert K.Fold(ops) == K.ApplyOp(K.ApplyAll(K.EMPTY, []), Decoded("a"));
      assert 2 in AC.store.last;
    } else {
      assert ops == [];
      assert 2 in AC.store.last;
    }
  }

  /** Peer 1 had applied both writes when the snapshot of the first came; after the third
      write its store lacks the second and is the state of no prefix of the committed log. */
  lemma LateInstallLosesWrite() returns (t: Trace)
    ensures Ok(t) && |Last(t).services| == 3
    ensures Last(t).services[1].now.store.kv == map["k" := "ac"]
    ensures Decided([PLACEHOLDER, EA, EB, EC], End(t).history)
    ensures forall S :: Decided(S, End(t).history) ==> Last(t).services[1].now.store != StateOf(Decoded, S)
  {
    t := ThirdReceived();
    RaftSafe(t, |t.run| - 1);
    var P, h, all := End(t).nodes[1].peer, End(t).history, [PLACEHOLDER, EA, EB, EC];
    assert NodeOK(End(t).nodes[1], 1, 3, h);
    assert Full(P) == all && all[..4] == all;
    assert Decided(all, h);
    forall S | Decided(S, h) ensures Last(t).services[1].now.store != StateOf(Decoded, S) {
      DecidedComparable(S, all, h, 3);
      NoPrefix(S);
    }
  }
}
