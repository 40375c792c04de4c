/**
 Snapshots, client commands, application and restart keep the invariant.
 */
module RaftSnapshots {
  import opened RaftPeer
  import opened RaftHistory
  import opened RaftCluster
  import opened RaftInvariant
  import opened RaftElections
  import opened RaftReplication

  /** Only the peer itself changes. */
  lemma PeerMove(s: Cluster, p: nat, P': Peer)
    requires Inv(s) && Ready(s, p) && PeerOK(P', p, |s.nodes|, s.history)
    requires PeerStep(s.nodes[p].peer, P', s.history.leaders) && s.nodes[p].peer.commitIndex <= P'.commitIndex
    ensures Inv(Move(s, p, s.nodes[p].(peer := P'), {}, s.history))
  {
    var n, h, node := |s.nodes|, s.history, s.nodes[p];
    assert NodeOK(node, p, n, h);
    NodeKeeps(node, node.(peer := P'), p, n, h, h);
    var s' := Move(s, p, node.(peer := P'), {}, h);
    assert s'.net == s.net;
    QuietMove(s, s', p, s'.nodes[p]);
  }

  // ----- Receiving a snapshot --------------------------------------------------------

  lemma HandleSnapshotOK(P: Peer, a: SnapshotArgs, p: nat, n: nat, h: History)
    requires PeerOK(P, p, n, h)
    ensures var r := HandleSnapshot(P, a);
            && PeerOK(r.0, p, n, h) && PeerStep(P, r.0, h.leaders) && r.0.commitIndex == P.commitIndex
            && (r.2 ==> a.term <= r.0.currentTerm)
  {
    var r := HandleSnapshot(P, a).0;
    if a.term > P.currentTerm {
      StepDownOK(P, a.term, p, n, h);
      FlagOK(StepDown(P, a.term), true, p, n, h);
    } else {
      StayPut(P, h.leaders);
      FlagOK(P, true, p, n, h);
    }
  }

  lemma FlagOK(P: Peer, flag: bool, p: nat, n: nat, h: History)
    requires PeerOK(P, p, n, h)
    ensures var P' := P.(snapshotInFlight := flag);
            PeerOK(P', p, n, h) && PeerStep(P, P', h.leaders) && Full(P') == Full(P)
  {
    var P' := P.(snapshotInFlight := flag);
    SameLogOK(P, P', p, n, h);
  }

  lemma OfferMove(s: Cluster, p: nat, a: SnapshotArgs, P': Peer, term: nat, offer: bool)
    requires Inv(s) && Ready(s, p) && PeerOK(P', p, |s.nodes|, s.history)
    requires PeerStep(s.nodes[p].peer, P', s.history.leaders) && P'.commitIndex == s.nodes[p].peer.commitIndex
    requires SnapOK(a, a.term, s.history) && (offer ==> a.term <= P'.currentTerm)
    ensures Inv(Offer(s, p, a, P', term, offer))
  {
    var s', n, h, node := Offer(s, p, a, P', term, offer), |s.nodes|, s.history, s.nodes[p];
    assert NodeOK(node, p, n, h);
    NodeKeeps(node, node.(peer := P'), p, n, h, h);
    if offer {
      OfferedFrame({a}, a.term, P'.currentTerm, h, h);
      assert SnapOK(a, P'.currentTerm, h);
    }
    assert NodeOK(s'.nodes[p], p, n, h);
    VoteMove(s, s', p, {});
  }

  lemma GetSnapshotKeepsInv(s: Cluster, p: nat, m: Message)
    requires Inv(s) && Ready(s, p) && m in s.net && m.SnapshotRequest?
    ensures Inv(DoGetSnapshot(s, p, m))
  {
    assert NodeOK(s.nodes[p], p, |s.nodes|, s.history) && MessageOK(m, s);
    HandleSnapshotOK(s.nodes[p].peer, m.snapshot, p, |s.nodes|, s.history);
    var (P', term, offer) := HandleSnapshot(s.nodes[p].peer, m.snapshot);
    OfferMove(s, p, m.snapshot, P', term, offer);
  }

  lemma HandedOverKeepsInv(s: Cluster, p: nat)
    requires Inv(s) && Ready(s, p)
    ensures Inv(Move(s, p, s.nodes[p].(peer := s.nodes[p].peer.(snapshotInFlight := false)), {}, s.history))
  {
    assert NodeOK(s.nodes[p], p, |s.nodes|, s.history);
    FlagOK(s.nodes[p].peer, false, p, |s.nodes|, s.history);
    PeerMove(s, p, s.nodes[p].peer.(snapshotInFlight := false));
  }

  /** The unchecked write of the snapshot reply path: the position it records is at most
      the commit index, so it is never counted. */
  lemma SnapshotReplyOK(P: Peer, server: nat, term: nat, p: nat, n: nat, h: History)
    requires PeerOK(P, p, n, h) && server < n
    ensures var P' := OnSnapshotReply(P, server, term);
            PeerOK(P', p, n, h) && PeerStep(P, P', h.leaders) && P'.commitIndex == P.commitIndex
  {
    var P' := OnSnapshotReply(P, server, term);
    if term > P.currentTerm {
      StepDownOK(P, term, p, n, h);
    } else {
      if P.role.Leader? {
        MatchReset(P, P', server, p, h);
      }
      NotedOK(P, P', p, n, h);
      KeepsPrefix(Full(P), Full(P'), P.currentTerm, h.leaders);
    }
  }

  lemma MatchReset(P: Peer, P': Peer, server: nat, p: nat, h: History)
    requires MatchOK(P, p, h) && server < |P.matchIndex| && P.lastIncludedIndex <= P.commitIndex
    requires P' == P.(matchIndex := P.matchIndex[server := P.lastIncludedIndex], nextIndex := P'.nextIndex)
    ensures MatchOK(P', p, h)
  {
  }

  lemma GetSnapshotReplyKeepsInv(s: Cluster, p: nat, m: Message)
    requires Inv(s) && Ready(s, p) && m.SnapshotResponse?
    requires m.from < |s.nodes[p].peer.nextIndex| == |s.nodes[p].peer.matchIndex|
    ensures Inv(Move(s, p, s.nodes[p].(peer := OnSnapshotReply(s.nodes[p].peer, m.from, m.term)), {}, s.history))
  {
    assert NodeOK(s.nodes[p], p, |s.nodes|, s.history);
    SnapshotReplyOK(s.nodes[p].peer, m.from, m.term, p, |s.nodes|, s.history);
    PeerMove(s, p, OnSnapshotReply(s.nodes[p].peer, m.from, m.term));
  }

  // ----- Moving the base -------------------------------------------------------------

  lemma RebaseRep(P: Peer, index: nat, term: nat, suffix: Log, data: Log, n: nat)
    requires RepOK(P, n) && |data| == index + 1 && Last(data).term == term
    ensures RepOK(Rebase(P, index, term, suffix, data), n)
    ensures Full(Rebase(P, index, term, suffix, data)) == data + suffix
  {
  }

  /** A peer with the same whole log, term and role, and a commit index no lower. */
  lemma SameFullOK(P: Peer, P': Peer, p: nat, n: nat, h: History)
    requires PeerOK(P, p, n, h) && RepOK(P', n) && OffsetsOK(P') && Full(P') == Full(P)
    requires P'.currentTerm == P.currentTerm && P'.role == P.role && P'.votedFor == P.votedFor
    requires P'.nextIndex == P.nextIndex && P'.matchIndex == P.matchIndex && LastIndex(P') == LastIndex(P)
    requires P.commitIndex <= P'.commitIndex < |Full(P)| && Committed(Full(P)[..P'.commitIndex + 1], P.currentTerm, h)
    ensures PeerOK(P', p, n, h) && PeerStep(P, P', h.leaders)
  {
    KeepsPrefix(Full(P), Full(P'), P.currentTerm, h.leaders);
  }

  lemma RebaseOffsets(P: Peer, index: nat, term: nat, suffix: Log, data: Log, n: nat)
    requires RepOK(P, n) && OffsetsOK(P) && |data| == index + 1 && Last(data).term == term && data + suffix == Full(P)
    ensures OffsetsOK(Rebase(P, index, term, suffix, data))
    ensures LastIndex(Rebase(P, index, term, suffix, data)) == LastIndex(P)
  {
    LastOfFull(P, n);
  }

  /** The base moves under an unchanged log. */
  lemma RebaseSame(P: Peer, index: nat, term: nat, suffix: Log, data: Log, p: nat, n: nat, h: History)
    requires PeerOK(P, p, n, h) && |data| == index + 1 && Last(data).term == term && index < |Full(P)|
    requires data + suffix == Full(P)
    requires Committed(data, P.currentTerm, h)
    ensures var P' := Rebase(P, index, term, suffix, data);
            PeerOK(P', p, n, h) && PeerStep(P, P', h.leaders) && Full(P') == Full(P)
  {
    RebaseRep(P, index, term, suffix, data, n);
    RebaseOffsets(P, index, term, suffix, data, n);
    assert Full(P)[..index + 1] == data;
    SameFullOK(P, Rebase(P, index, term, suffix, data), p, n, h);
  }

  /** A log that does not contain the snapshot is replaced by it; nothing committed is lost
      and the peer does not lead. */
  lemma RebaseReplace(P: Peer, index: nat, term: nat, data: Log, p: nat, n: nat, h: History)
    requires HistoryOK(h, n) && PeerOK(P, p, n, h) && |data| == index + 1 && index > 0 && Last(data).term == term
    requires Committed(data, P.currentTerm, h) && !Has(Full(P), term, index)
    ensures P.commitIndex < index && !P.role.Leader?
    ensures var P' := Rebase(P, index, term, [], data);
            PeerOK(P', p, n, h) && PeerStep(P, P', h.leaders)
  {
    var P' := Rebase(P, index, term, [], data);
    NotContained(P, index, term, data, p, n, h);
    RebaseRep(P, index, term, [], data, n);
    assert Full(P') == data && data[..index + 1] == data;
    CommittedFirst(data, P.currentTerm, h, n);
    CommittedTerms(data, P.currentTerm, h, n);
    InstallKeeps(Full(P), data, P.currentTerm, h, n);
    LastOfFull(P', n);
  }

  lemma NotContained(P: Peer, index: nat, term: nat, data: Log, p: nat, n: nat, h: History)
    requires HistoryOK(h, n) && PeerOK(P, p, n, h) && |data| == index + 1 && index > 0 && Last(data).term == term
    requires Committed(data, P.currentTerm, h) && !Has(Full(P), term, index)
    ensures P.commitIndex < index && !P.role.Leader?
  {
    if P.role.Leader? {
      CommittedInLeader(data, P.currentTerm, P.currentTerm, h, n);
    }
    CommittedComparable(Full(P)[..P.commitIndex + 1], data, P.currentTerm, h, n);
  }

  lemma CommittedTerms(S: Log, b: nat, h: History, n: nat)
    requires HistoryOK(h, n) && Committed(S, b, h)
    ensures TermsBelow(S, b)
  {
    if !(S <= [PLACEHOLDER]) {
      var c :| c in h.commits && c.term <= b && Covers(c, S, h.leaders);
      assert LeaderLog(c.term, h.leaders);
    }
  }

  lemma InstallOK(P: Peer, a: SnapshotArgs, p: nat, n: nat, h: History)
    requires HistoryOK(h, n) && PeerOK(P, p, n, h) && SnapOK(a, P.currentTerm, h)
    ensures var P' := CondInstall(P, a.lastIncludedTerm, a.lastIncludedIndex, a.data).0;
            PeerOK(P', p, n, h) && PeerStep(P, P', h.leaders) && P.commitIndex <= P'.commitIndex
  {
    var index, term := a.lastIncludedIndex, a.lastIncludedTerm;
    var P' := CondInstall(P, term, index, a.data).0;
    if index <= P.lastIncludedIndex {
      StayPut(P, h.leaders);
    } else {
      var local := index - P.lastIncludedIndex;
      if local < |P.logs| && P.logs[local].term == term {
        assert P' == Rebase(P, index, term, P.logs[local + 1..], a.data);
        InstallContained(P, index, term, a.data, local, p, n, h);
      } else {
        assert P' == Rebase(P, index, term, [], a.data);
        HasLocal(P, local, term, n);
        RebaseReplace(P, index, term, a.data, p, n, h);
      }
    }
  }

  lemma HasLocal(P: Peer, local: nat, term: nat, n: nat)
    requires RepOK(P, n) && 0 < local
    ensures Has(Full(P), term, P.lastIncludedIndex + local) <==> local < |P.logs| && P.logs[local].term == term
  {
    LastOfFull(P, n);
    assert local < |P.logs| ==> Full(P)[P.lastIncludedIndex + local] == P.logs[local];
  }

  lemma InstallContained(P: Peer, index: nat, term: nat, data: Log, local: nat, p: nat, n: nat, h: History)
    requires HistoryOK(h, n) && PeerOK(P, p, n, h) && |data| == index + 1 && Last(data).term == term
    requires Committed(data, P.currentTerm, h)
    requires local == index - P.lastIncludedIndex && 0 < local < |P.logs| && P.logs[local].term == term
    ensures var P' := Rebase(P, index, term, P.logs[local + 1..], data);
            PeerOK(P', p, n, h) && PeerStep(P, P', h.leaders) && Full(P') == Full(P)
  {
    LastOfFull(P, n);
    assert Full(P)[index] == P.logs[local];
    CommittedFirst(data, P.currentTerm, h, n);
    Matching(Full(P), data, index, h.leaders);
    SuffixOfFull(P, local, n);
    assert data == data[..index + 1];
    RebaseSame(P, index, term, P.logs[local + 1..], data, p, n, h);
  }

  lemma SuffixOfFull(P: Peer, local: nat, n: nat)
    requires RepOK(P, n) && 0 < local < |P.logs|
    ensures P.lastIncludedIndex + local < |Full(P)|
    ensures Full(P) == Full(P)[..P.lastIncludedIndex + local + 1] + P.logs[local + 1..]
  {
    assert P.logs[1..][local..] == P.logs[local + 1..];
  }

  lemma InstallKeepsInv(s: Cluster, p: nat, a: SnapshotArgs)
    requires Inv(s) && Ready(s, p) && a in s.nodes[p].offered
    ensures Inv(Move(s, p, s.nodes[p].(peer := CondInstall(s.nodes[p].peer, a.lastIncludedTerm, a.lastIncludedIndex, a.data).0),
                     {}, s.history))
  {
    assert NodeOK(s.nodes[p], p, |s.nodes|, s.history);
    assert SnapOK(a, s.nodes[p].peer.currentTerm, s.history);
    InstallOK(s.nodes[p].peer, a, p, |s.nodes|, s.history);
    PeerMove(s, p, CondInstall(s.nodes[p].peer, a.lastIncludedTerm, a.lastIncludedIndex, a.data).0);
  }

  lemma TrimPrefix(P: Peer, index: nat, n: nat, h: History)
    requires RepOK(P, n) && P.lastIncludedIndex < index <= P.commitIndex < |Full(P)|
    requires Committed(Full(P)[..P.commitIndex + 1], P.currentTerm, h)
    ensures var local, data := index - P.lastIncludedIndex, Full(P)[..index + 1];
            && local < |P.logs| && Last(data).term == P.logs[local].term
            && data + P.logs[local + 1..] == Full(P) && Committed(data, P.currentTerm, h)
  {
    var local, data := index - P.lastIncludedIndex, Full(P)[..index + 1];
    LastOfFull(P, n);
    assert Full(P)[index] == P.logs[local];
    SuffixOfFull(P, local, n);
    assert data == Full(P)[..P.commitIndex + 1][..index + 1];
    CommittedPrefix(data, Full(P)[..P.commitIndex + 1], P.currentTerm, h);
  }

  lemma TrimOK(P: Peer, index: nat, p: nat, n: nat, h: History)
    requires PeerOK(P, p, n, h) && index < |Full(P)|
    ensures var P' := TakeSnapshot(P, index, Full(P)[..index + 1]);
            PeerOK(P', p, n, h) && PeerStep(P, P', h.leaders) && P'.commitIndex == P.commitIndex && Full(P') == Full(P)
  {
    if P.lastIncludedIndex < index <= P.commitIndex {
      var local := index - P.lastIncludedIndex;
      TrimPrefix(P, index, n, h);
      assert TakeSnapshot(P, index, Full(P)[..index + 1])
          == Rebase(P, index, P.logs[local].term, P.logs[local + 1..], Full(P)[..index + 1]);
      RebaseSame(P, index, P.logs[local].term, P.logs[local + 1..], Full(P)[..index + 1], p, n, h);
    } else {
      StayPut(P, h.leaders);
    }
  }

  lemma TrimKeepsInv(s: Cluster, p: nat, index: nat)
    requires Inv(s) && Ready(s, p) && index < |Full(s.nodes[p].peer)|
    ensures Inv(Move(s, p, s.nodes[p].(peer := TakeSnapshot(s.nodes[p].peer, index, Full(s.nodes[p].peer)[..index + 1])),
                     {}, s.history))
  {
    assert NodeOK(s.nodes[p], p, |s.nodes|, s.history);
    TrimOK(s.nodes[p].peer, index, p, |s.nodes|, s.history);
    PeerMove(s, p, TakeSnapshot(s.nodes[p].peer, index, Full(s.nodes[p].peer)[..index + 1]));
  }

  // ----- Client commands -------------------------------------------------------------

  lemma LeaderAppends(ls: Leaders, T: nat, e: Entry)
    requires LeaderLogs(ls) && T in ls && e.term == T
    ensures var ls' := ls[T := ls[T].(log := ls[T].log + [e])];
            LeaderLogs(ls') && Grows(ls, ls')
  {
    var L, ls' := ls[T].log + [e], ls[T := ls[T].(log := ls[T].log + [e])];
    assert LeaderLog(T, ls);
    assert Grows(ls, ls');
    ChainGrows(ls[T].log, ls, ls');
    forall k | 1 <= k < |L| ensures Linked(L, k, ls') {
      if k < |ls[T].log| {
        assert Linked(ls[T].log, k, ls');
        assert L[..k + 1] == ls[T].log[..k + 1];
      }
    }
    forall U | U in ls' ensures LeaderLog(U, ls') {
      if U != T {
        assert LeaderLog(U, ls);
        ChainGrows(ls[U].log, ls, ls');
      }
    }
  }

  lemma StartedOK(P: Peer, command: Command, p: nat, n: nat, h: History, h': History)
    requires PeerOK(P, p, n, h) && P.role.Leader? && LeaderLogs(h.leaders) && LeaderLogs(h'.leaders)
    requires h' == h.(leaders := h.leaders[P.currentTerm :=
                     h.leaders[P.currentTerm].(log := Full(P) + [Entry(command, P.currentTerm)])])
    requires Grows(h.leaders, h'.leaders)
    ensures var P' := StartCommand(P, command);
            && Full(P') == Full(P) + [Entry(command, P.currentTerm)]
            && PeerOK(P', p, n, h') && PeerStep(P, P', h'.leaders) && P'.commitIndex == P.commitIndex
  {
    var P' := StartCommand(P, command);
    StartRep(P, command, n);
    assert LeaderLog(P.currentTerm, h'.leaders);
    assert Full(P')[..P.commitIndex + 1] == Full(P)[..P.commitIndex + 1];
    CommittedGrows(Full(P)[..P.commitIndex + 1], P.currentTerm, P.currentTerm, h, h');
    KeepsPrefix(Full(P), Full(P'), P.currentTerm, h'.leaders);
  }

  lemma StartRep(P: Peer, command: Command, n: nat)
    requires RepOK(P, n) && P.role.Leader?
    ensures var P' := StartCommand(P, command);
            && RepOK(P', n) && Full(P') == Full(P) + [Entry(command, P.currentTerm)]
            && LastIndex(P') == LastIndex(P) + 1 && LastIndex(P) == |Full(P)| - 1
  {
    var P' := StartCommand(P, command);
    assert P'.logs[1..] == P.logs[1..] + [Entry(command, P.currentTerm)];
  }

  lemma StartHistory(s: Cluster, h': History, p: nat, T: nat, e: Entry)
    requires Inv(s) && p < |s.nodes| && T in s.history.leaders && s.history.leaders[T].who == p && e.term == T
    requires s.nodes[p].peer.currentTerm == T
    requires h' == s.history.(leaders := s.history.leaders[T :=
                     s.history.leaders[T].(log := s.history.leaders[T].log + [e])])
    ensures HistoryStep(s.history, h', p, T) && HistoryOK(h', |s.nodes|) && Grows(s.history.leaders, h'.leaders)
  {
    LeaderAppends(s.history.leaders, T, e);
    AcksGrow(s.history.acks, s.history.leaders, h'.leaders);
    HistoryAdvance(s, h', p, T);
  }

  lemma StartMove(s: Cluster, p: nat, P': Peer, h': History)
    requires Inv(s) && Ready(s, p) && HistoryStep(s.history, h', p, P'.currentTerm) && HistoryOK(h', |s.nodes|)
    requires h' == s.history.(leaders := h'.leaders) && h'.leaders.Keys == s.history.leaders.Keys
    requires PeerOK(P', p, |s.nodes|, h') && PeerStep(s.nodes[p].peer, P', h'.leaders)
    requires P'.commitIndex == s.nodes[p].peer.commitIndex
    ensures Inv(Move(s, p, s.nodes[p].(peer := P'), {}, h'))
  {
    var s', n, node := Move(s, p, s.nodes[p].(peer := P'), {}, h'), |s.nodes|, s.nodes[p];
    assert NodeOK(node, p, n, s.history);
    NodeKeeps(node, s'.nodes[p], p, n, s.history, h');
    assert Moves(s, s', p);
    assert NewOK(s, s', p);
    Advance(s, s', p);
  }

  lemma ClientStartKeepsInv(s: Cluster, p: nat, command: Command)
    requires Inv(s) && Ready(s, p)
    ensures Inv(DoClientStart(s, p, command))
  {
    var P, n, h := s.nodes[p].peer, |s.nodes|, s.history;
    assert NodeOK(s.nodes[p], p, n, h);
    if P.role.Leader? {
      var T, e := P.currentTerm, Entry(command, P.currentTerm);
      var h' := h.(leaders := h.leaders[T := h.leaders[T].(log := h.leaders[T].log + [e])]);
      StartHistory(s, h', p, T, e);
      StartedOK(P, command, p, n, h, h');
      StartMove(s, p, StartCommand(P, command), h');
    } else {
      StayPut(P, h.leaders);
      PeerMove(s, p, P);
    }
  }

  // ----- Application and restart -----------------------------------------------------

  /** A command sent to the service is the entry at its index, and that index is committed. */
  lemma BatchCommitted(P: Peer, k: nat, p: nat, n: nat, h: History)
    requires PeerOK(P, p, n, h) && BatchStart(P) <= BatchEnd(P) && k < |Batch(P)|
    ensures var m := Batch(P)[k];
            && 0 < m.index <= P.commitIndex && m.index < |Full(P)| && Full(P)[m.index] == Entry(m.command, m.term)
            && DeliveryOK(Delivery(p, m), h)
  {
    var m, S := Batch(P)[k], Full(P)[..P.commitIndex + 1];
    assert Full(P)[m.index] == P.logs[m.index - P.lastIncludedIndex];
    assert S[m.index] == Full(P)[m.index];
    var c :| c in h.commits && c.term <= P.currentTerm && Covers(c, S, h.leaders);
    assert Justifies(c, m, h.leaders);
  }

  lemma BeginApplyKeepsInv(s: Cluster, p: nat)
    requires Inv(s) && Ready(s, p) && BatchStart(s.nodes[p].peer) <= BatchEnd(s.nodes[p].peer)
    ensures Inv(DoBeginApply(s, p))
  {
    var s', n, h, P := DoBeginApply(s, p), |s.nodes|, s.history, s.nodes[p].peer;
    assert NodeOK(s.nodes[p], p, n, h);
    SameLogOK(P, s'.nodes[p].peer, p, n, h);
    assert NodeOK(s'.nodes[p], p, n, h);
    forall d | d in s'.delivered && d !in s.delivered ensures DeliveryOK(d, h) {
      var k :| 0 <= k < |Batch(P)| && d == Delivery(p, Batch(P)[k]);
      BatchCommitted(P, k, p, n, h);
    }
    assert s'.net == s.net;
    assert Moves(s, s', p);
    Advance(s, s', p);
  }

  lemma EndApplyKeepsInv(s: Cluster, p: nat)
    requires Inv(s) && Ready(s, p) && s.nodes[p].sending.Some?
    ensures Inv(Move(s, p, s.nodes[p].(peer := FinishBatch(s.nodes[p].peer, s.nodes[p].sending.value), sending := None),
                     {}, s.history))
  {
    var n, h, node := |s.nodes|, s.history, s.nodes[p];
    var node' := node.(peer := FinishBatch(node.peer, node.sending.value), sending := None);
    var s' := Move(s, p, node', {}, h);
    assert NodeOK(node, p, n, h);
    SameLogOK(node.peer, node'.peer, p, n, h);
    assert NodeOK(node', p, n, h);
    assert s'.net == s.net;
    QuietMove(s, s', p, node');
  }

  /** A restart brings back the whole log; only volatile state is lost. */
  lemma BootOK(P: Peer, p: nat, n: nat, h: History)
    requires PeerOK(P, p, n, h)
    ensures var P' := Boot(P.storage, n);
            PeerOK(P', p, n, h) && PeerStep(P, P', h.leaders) && Full(P') == Full(P)
  {
    var P' := Boot(P.storage, n);
    assert P'.logs == P.logs && P'.storage == P.storage && P'.lastIncludedIndex == P.lastIncludedIndex;
    assert Full(P') == Full(P);
    assert P'.commitIndex == P'.lastIncludedIndex == P'.lastApplied;
    CommittedPrefix(Full(P)[..P'.commitIndex + 1], Full(P)[..P.commitIndex + 1], P.currentTerm, h);
    KeepsPrefix(Full(P), Full(P'), P.currentTerm, h.leaders);
  }

  lemma RestartKeepsInv(s: Cluster, p: nat)
    requires Inv(s) && Ready(s, p)
    ensures Inv(Move(s, p, Node(Boot(s.nodes[p].peer.storage, |s.nodes|), map[], {}, None), {}, s.history))
  {
    var n, h, node := |s.nodes|, s.history, s.nodes[p];
    var node' := Node(Boot(node.peer.storage, n), map[], {}, None);
    var s' := Move(s, p, node', {}, h);
    assert NodeOK(node, p, n, h);
    BootOK(node.peer, p, n, h);
    assert NodeOK(node', p, n, h);
    assert s'.net == s.net;
    QuietMove(s, s', p, node');
  }
}
