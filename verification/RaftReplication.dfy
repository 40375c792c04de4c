/**
 The actions of log replication keep the invariant.
 */
module RaftReplication {
  import opened RaftPeer
  import opened RaftHistory
  import opened RaftCluster
  import opened RaftInvariant
  import opened RaftElections

  // ----- Sending ---------------------------------------------------------------------

  lemma EntriesOfFull(P: Peer, next: nat, n: nat)
    requires RepOK(P, n) && P.lastIncludedIndex < next <= LastIndex(P) + 1
    ensures next <= |Full(P)| && LastIndex(P) == |Full(P)| - 1
    ensures var start := next - P.lastIncludedIndex;
            (if start < |P.logs| then P.logs[start..] else []) == Full(P)[next..]
  {
    var start := next - P.lastIncludedIndex;
    if start < |P.logs| {
      assert P.logs[start..] == P.logs[1..][start - 1..];
      assert Full(P)[next..] == P.logs[1..][start - 1..];
    }
  }

  /** A request whose entries run from `next` to the end of the leader's log. */
  lemma TailAppendOK(a: AppendArgs, next: nat, h: History)
    requires a.term in h.leaders && a.prevLogIndex + 1 == next <= |h.leaders[a.term].log|
    requires a.entries == h.leaders[a.term].log[next..]
    requires a.prevLogTerm == h.leaders[a.term].log[next - 1].term
    requires a.leaderCommit < |h.leaders[a.term].log|
    requires Committed(h.leaders[a.term].log[..a.leaderCommit + 1], a.term, h)
    ensures AppendOK(a, h)
  {
    var G := h.leaders[a.term].log;
    assert G[next..] == G[next..|G|];
  }

  lemma EntriesOK(P: Peer, p: nat, to: nat, n: nat, h: History)
    requires PeerOK(P, p, n, h) && P.role.Leader? && to < n && P.nextIndex[to] > P.lastIncludedIndex
    ensures MakeRequest(P, p, to).SendEntries? && AppendOK(MakeRequest(P, p, to).append, h)
  {
    TermOfFull(P, P.nextIndex[to] - 1, n);
    EntriesOfFull(P, P.nextIndex[to], n);
    TailAppendOK(MakeRequest(P, p, to).append, P.nextIndex[to], h);
  }

  lemma StemCommitted(P: Peer, p: nat, n: nat, h: History)
    requires PeerOK(P, p, n, h)
    ensures Committed(Stem(P), P.currentTerm, h)
  {
    CommittedPrefix(Stem(P), Full(P)[..P.commitIndex + 1], P.currentTerm, h);
  }

  lemma ReplicateKeepsInv(s: Cluster, p: nat, to: nat)
    requires Inv(s) && Ready(s, p) && s.nodes[p].peer.role.Leader? && to < |s.nodes| && to < |s.nodes[p].peer.nextIndex|
    ensures Inv(DoReplicate(s, p, to))
  {
    var s', n, h := DoReplicate(s, p, to), |s.nodes|, s.history;
    var P := s.nodes[p].peer;
    assert NodeOK(s.nodes[p], p, n, h);
    assert s'.nodes == s.nodes;
    match MakeRequest(P, p, to) {
      case SendEntries(append) =>
        EntriesOK(P, p, to, n, h);
        assert MessageOK(AppendRequest(to, append), s);
        SendMove(s, s', p, AppendRequest(to, append));
      case SendSnapshot(snapshot) =>
        StemCommitted(P, p, n, h);
        assert MessageOK(SnapshotRequest(to, snapshot), s);
        SendMove(s, s', p, SnapshotRequest(to, snapshot));
    }
  }

  // ----- Receiving entries -----------------------------------------------------------

  /** The consistency check at prevLogIndex establishes a shared prefix. */
  lemma PrevAgrees(P: Peer, a: AppendArgs, G: Log, n: nat, ls: Leaders)
    requires RepOK(P, n) && Chain(Full(P), ls) && Chain(G, ls) && PrevMatches(P, a)
    requires a.prevLogIndex < |G| && a.prevLogTerm == G[a.prevLogIndex].term
    ensures a.prevLogIndex + 1 <= |Full(P)|
    ensures Full(P)[..a.prevLogIndex + 1] == G[..a.prevLogIndex + 1]
  {
    TermOfFull(P, a.prevLogIndex, n);
    Matching(Full(P), G, a.prevLogIndex, ls);
  }

  lemma PrevShared(P: Peer, a: AppendArgs, p: nat, n: nat, h: History)
    requires PeerOK(P, p, n, h) && AppendOK(a, h) && LeaderLogs(h.leaders) && PrevMatches(P, a)
    ensures Continues(Full(P), a, h)
  {
    assert LeaderLog(a.term, h.leaders);
    PrevAgrees(P, a, h.leaders[a.term].log, n, h.leaders);
  }

  /** The scan of the stored suffix is the scan of the whole log. */
  lemma SpliceOffset(stem: Log, logs: Log, start: nat, entries: Log)
    requires |stem| > 0 && |logs| > 0 && |stem| <= start <= |stem| - 1 + |logs|
    ensures |Splice(logs, |stem| - 1, start, entries)| > 0
    ensures stem + Splice(logs, |stem| - 1, start, entries)[1..] == Splice(stem + logs[1..], 0, start, entries)
    decreases |entries|
  {
    var F, base := stem + logs[1..], |stem| - 1;
    if entries != [] {
      if start == base + |logs| {
      } else {
        assert F[start] == logs[start - base];
        if logs[start - base].term != entries[0].term {
          assert stem + (logs[..start - base] + entries)[1..] == F[..start] + entries;
        } else {
          SpliceOffset(stem, logs, start + 1, entries[1..]);
        }
      }
    }
  }

  lemma RewrittenOK(Q: Peer, P': Peer, r: Log, p: nat, n: nat, h: History)
    requires PeerOK(Q, p, n, h) && Q.role.Follower?
    requires P' == Q.(logs := P'.logs, storage := P'.storage, commitIndex := P'.commitIndex)
    requires RepOK(P', n) && Full(P') == r
    requires Chain(r, h.leaders) && TermsBelow(r, Q.currentTerm)
    requires Q.commitIndex <= P'.commitIndex < |r|
    requires Committed(r[..P'.commitIndex + 1], Q.currentTerm, h)
    ensures PeerOK(P', p, n, h)
  {
  }

  /** What the handler leaves behind once the consistency check passed. */
  ghost predicate Appended(Q: Peer, P': Peer, a: AppendArgs, p: nat, n: nat, h: History)
    requires AppendOK(a, h) && |Q.logs| > 0
  {
    && PeerOK(P', p, n, h)
    && P'.currentTerm == Q.currentTerm && P'.votedFor == Q.votedFor && P'.role == Q.role
    && Q.commitIndex <= P'.commitIndex
    && Keeps(Full(Q), Full(P'), a.term, h.leaders)
    && Q.commitIndex < |Full(Q)| && Full(Q)[..Q.commitIndex + 1] <= Full(P')
    && var e := a.prevLogIndex + |a.entries| + 1;
       e <= |Full(P')| && Full(P')[..e] == h.leaders[a.term].log[..e]
  }

  lemma CommitOfLeader(r: Log, a: AppendArgs, e: nat, candidate: nat, h: History)
    requires AppendOK(a, h) && e <= |h.leaders[a.term].log|
    requires e <= |r| && r[..e] == h.leaders[a.term].log[..e] && candidate <= a.leaderCommit && candidate < e
    ensures Committed(r[..candidate + 1], a.term, h)
  {
    var G := h.leaders[a.term].log;
    assert r[..candidate + 1] == r[..e][..candidate + 1] == G[..a.leaderCommit + 1][..candidate + 1];
    CommittedPrefix(r[..candidate + 1], G[..a.leaderCommit + 1], a.term, h);
  }

  lemma HeartbeatOK(Q: Peer, a: AppendArgs, commit: nat, p: nat, n: nat, h: History)
    requires HistoryOK(h, n) && PeerOK(Q, p, n, h) && Q.role.Follower? && AppendOK(a, h)
    requires Q.currentTerm == a.term && PrevMatches(Q, a) && a.entries == []
    requires commit == Q.commitIndex || (Q.commitIndex < commit <= Min(a.leaderCommit, a.prevLogIndex))
    ensures Appended(Q, Q.(commitIndex := commit), a, p, n, h)
  {
    var P' := Q.(commitIndex := commit);
    PrevShared(Q, a, p, n, h);
    assert Full(P') == Full(Q);
    if commit > Q.commitIndex {
      CommitOfLeader(Full(Q), a, a.prevLogIndex + 1, commit, h);
    }
    RewrittenOK(Q, P', Full(Q), p, n, h);
    KeepsPrefix(Full(Q), Full(P'), a.term, h.leaders);
  }

  lemma SplicedRep(Q: Peer, a: AppendArgs, n: nat, P': Peer)
    requires RepOK(Q, n) && Q.lastIncludedIndex <= a.prevLogIndex <= LastIndex(Q)
    requires P'.logs == Splice(Q.logs, Q.lastIncludedIndex, a.prevLogIndex + 1, a.entries)
    requires P' == Q.(logs := P'.logs, storage := P'.storage, commitIndex := P'.commitIndex)
    requires P'.storage == Q.storage.(raftState := P'.storage.raftState)
    requires if P'.logs == Q.logs then P'.storage == Q.storage else P'.storage.raftState == Some(Hard(P'))
    ensures RepOK(P', n)
    ensures Full(P') == Splice(Full(Q), 0, a.prevLogIndex + 1, a.entries)
  {
    SpliceOffset(Stem(Q), Q.logs, a.prevLogIndex + 1, a.entries);
    assert Hard(P') == Hard(Q) || P'.storage.raftState == Some(Hard(P'));
  }

  /** The request continues a prefix that F shares with its leader. */
  ghost predicate Continues(F: Log, a: AppendArgs, h: History) {
    && AppendOK(a, h)
    && a.prevLogIndex + 1 <= |F| && F[..a.prevLogIndex + 1] == h.leaders[a.term].log[..a.prevLogIndex + 1]
  }

  /** The log after the scan. */
  lemma SplicedLog(F: Log, a: AppendArgs, h: History)
    requires LeaderLogs(h.leaders) && Chain(F, h.leaders) && TermsBelow(F, a.term) && Continues(F, a, h)
    ensures var r, e := Splice(F, 0, a.prevLogIndex + 1, a.entries), a.prevLogIndex + |a.entries| + 1;
            && Chain(r, h.leaders) && TermsBelow(r, a.term)
            && e <= |r| && r[..e] == h.leaders[a.term].log[..e]
            && Keeps(F, r, a.term, h.leaders)
  {
    var G, e := h.leaders[a.term].log, a.prevLogIndex + 1 + |a.entries|;
    var r := Splice(F, 0, a.prevLogIndex + 1, a.entries);
    assert LeaderLog(a.term, h.leaders);
    SpliceKeeps(F, a.prevLogIndex + 1, e, a.term, h.leaders);
    if r != F {
      ChainPrefix(r, G, h.leaders);
    }
  }

  /** Committed entries survive the scan: the conflict branch never cuts one. */
  lemma SplicedCommitted(F: Log, a: AppendArgs, S: Log, n: nat, h: History)
    requires HistoryOK(h, n) && Chain(F, h.leaders) && Continues(F, a, h)
    requires S <= F && Committed(S, a.term, h)
    ensures S <= Splice(F, 0, a.prevLogIndex + 1, a.entries)
  {
    CommittedInLeader(S, a.term, a.term, h, n);
    assert S == F[..|S|];
    SpliceSpares(F, a.prevLogIndex + 1, a.prevLogIndex + 1 + |a.entries|, a.term, |S|, h.leaders);
  }

  /** The commit index after the scan covers committed entries only. */
  lemma SplicedCommit(F: Log, r: Log, a: AppendArgs, oldCommit: nat, commit: nat, h: History)
    requires AppendOK(a, h) && oldCommit < |F| && Committed(F[..oldCommit + 1], a.term, h) && F[..oldCommit + 1] <= r
    requires a.prevLogIndex + |a.entries| + 1 <= |r|
    requires r[..a.prevLogIndex + |a.entries| + 1] == h.leaders[a.term].log[..a.prevLogIndex + |a.entries| + 1]
    requires commit == Max(oldCommit, Min(a.leaderCommit, a.prevLogIndex + |a.entries|))
    ensures commit < |r| && Committed(r[..commit + 1], a.term, h)
  {
    if commit > oldCommit {
      CommitOfLeader(r, a, a.prevLogIndex + |a.entries| + 1, commit, h);
    } else {
      assert r[..commit + 1] == F[..oldCommit + 1];
    }
  }

  /** What the scan makes of log F, whose entries up to oldCommit were committed. */
  ghost predicate GoodSplice(F: Log, r: Log, a: AppendArgs, oldCommit: nat, commit: nat, h: History)
    requires a.term in h.leaders && oldCommit < |F|
  {
    var e := a.prevLogIndex + |a.entries| + 1;
    && Chain(r, h.leaders) && TermsBelow(r, a.term)
    && e <= |r| && e <= |h.leaders[a.term].log| && r[..e] == h.leaders[a.term].log[..e]
    && Keeps(F, r, a.term, h.leaders)
    && F[..oldCommit + 1] <= r
    && commit < |r| && Committed(r[..commit + 1], a.term, h)
  }

  lemma SpliceGood(F: Log, a: AppendArgs, oldCommit: nat, commit: nat, n: nat, h: History)
    requires HistoryOK(h, n) && Chain(F, h.leaders) && TermsBelow(F, a.term) && Continues(F, a, h)
    requires oldCommit < |F| && Committed(F[..oldCommit + 1], a.term, h)
    requires commit == Max(oldCommit, Min(a.leaderCommit, a.prevLogIndex + |a.entries|))
    ensures GoodSplice(F, Splice(F, 0, a.prevLogIndex + 1, a.entries), a, oldCommit, commit, h)
  {
    SplicedLog(F, a, h);
    SplicedCommitted(F, a, F[..oldCommit + 1], n, h);
    SplicedCommit(F, Splice(F, 0, a.prevLogIndex + 1, a.entries), a, oldCommit, commit, h);
  }

  lemma GoodSpliceAppended(Q: Peer, a: AppendArgs, p: nat, n: nat, h: History, P': Peer)
    requires PeerOK(Q, p, n, h) && Q.role.Follower? && AppendOK(a, h) && Q.currentTerm == a.term
    requires P' == Q.(logs := P'.logs, storage := P'.storage, commitIndex := P'.commitIndex)
    requires RepOK(P', n) && Q.commitIndex <= P'.commitIndex
    requires GoodSplice(Full(Q), Full(P'), a, Q.commitIndex, P'.commitIndex, h)
    ensures Appended(Q, P', a, p, n, h)
  {
    RewrittenOK(Q, P', Full(P'), p, n, h);
  }

  lemma EntriesAppended(Q: Peer, a: AppendArgs, p: nat, n: nat, h: History, P': Peer)
    requires HistoryOK(h, n) && PeerOK(Q, p, n, h) && Q.role.Follower? && AppendOK(a, h)
    requires Q.currentTerm == a.term && PrevMatches(Q, a)
    requires P'.logs == Splice(Q.logs, Q.lastIncludedIndex, a.prevLogIndex + 1, a.entries)
    requires P' == Q.(logs := P'.logs, storage := P'.storage, commitIndex := P'.commitIndex)
    requires P'.storage == Q.storage.(raftState := P'.storage.raftState)
    requires if P'.logs == Q.logs then P'.storage == Q.storage else P'.storage.raftState == Some(Hard(P'))
    requires P'.commitIndex == Max(Q.commitIndex, Min(a.leaderCommit, a.prevLogIndex + |a.entries|))
    ensures Appended(Q, P', a, p, n, h)
  {
    PrevShared(Q, a, p, n, h);
    SplicedRep(Q, a, n, P');
    SpliceGood(Full(Q), a, Q.commitIndex, P'.commitIndex, n, h);
    GoodSpliceAppended(Q, a, p, n, h, P');
  }

  /** The handler from the start: step down or stay, check, append, commit. */
  function Settled(P: Peer, term: nat): Peer {
    if term > P.currentTerm then StepDown(P, term)
    else if term == P.currentTerm then P.(role := Follower)
    else P
  }

  lemma SettledOK(P: Peer, term: nat, p: nat, n: nat, h: History)
    requires PeerOK(P, p, n, h)
    ensures PeerOK(Settled(P, term), p, n, h) && PeerStep(P, Settled(P, term), h.leaders)
    ensures Full(Settled(P, term)) == Full(P) && Settled(P, term).commitIndex == P.commitIndex
  {
    if term > P.currentTerm {
      StepDownOK(P, term, p, n, h);
    } else {
      SameLogOK(P, Settled(P, term), p, n, h);
    }
  }

  lemma AppendCases(P: Peer, a: AppendArgs)
    requires |P.logs| > 0
    ensures var Q, r := Settled(P, a.term), HandleAppend(P, a);
            && r.1.success == (a.term >= Q.currentTerm && PrevMatches(Q, a))
            && (!r.1.success ==> r.0 == Q)
            && (r.1.success && a.entries == [] ==>
                  exists commit: nat :: r.0 == Q.(commitIndex := commit) &&
                    (commit == Q.commitIndex || Q.commitIndex < commit <= Min(a.leaderCommit, a.prevLogIndex)))
            && (r.1.success && a.entries != [] ==>
                  && r.0.logs == Splice(Q.logs, Q.lastIncludedIndex, a.prevLogIndex + 1, a.entries)
                  && r.0 == Q.(logs := r.0.logs, storage := r.0.storage, commitIndex := r.0.commitIndex)
                  && r.0.storage == Q.storage.(raftState := r.0.storage.raftState)
                  && r.0.commitIndex == Max(Q.commitIndex, Min(a.leaderCommit, a.prevLogIndex + |a.entries|)))
  {
    var Q, r := Settled(P, a.term), HandleAppend(P, a);
    if r.1.success && a.entries == [] {
      assert r.0 == Q.(commitIndex := r.0.commitIndex);
    }
  }

  lemma AppendStorage(P: Peer, a: AppendArgs)
    requires |P.logs| > 0 && HandleAppend(P, a).1.success && a.entries != []
    ensures var Q, P' := Settled(P, a.term), HandleAppend(P, a).0;
            if P'.logs == Q.logs then P'.storage == Q.storage else P'.storage.raftState == Some(Hard(P'))
  {
  }

  lemma HandleAppendOK(P: Peer, a: AppendArgs, p: nat, n: nat, h: History)
    requires HistoryOK(h, n) && PeerOK(P, p, n, h) && AppendOK(a, h)
    ensures var r, Q := HandleAppend(P, a), Settled(P, a.term);
            && PeerOK(r.0, p, n, h)
            && PeerStep(P, r.0, h.leaders)
            && P.commitIndex <= r.0.commitIndex
            && (r.1.success ==> r.0.currentTerm == a.term && PeerOK(Q, p, n, h) && Appended(Q, r.0, a, p, n, h))
  {
    var Q, P' := Settled(P, a.term), HandleAppend(P, a).0;
    AppendCases(P, a);
    SettledOK(P, a.term, p, n, h);
    if HandleAppend(P, a).1.success {
      assert Q.currentTerm == a.term && Q.role.Follower?;
      if a.entries == [] {
        HeartbeatOK(Q, a, P'.commitIndex, p, n, h);
      } else {
        AppendStorage(P, a);
        EntriesAppended(Q, a, p, n, h, P');
      }
    }
  }

  lemma AckedLive(P': Peer, Q: Peer, a: AppendArgs, p: nat, n: nat, h: History)
    requires LeaderLogs(h.leaders) && AppendOK(a, h) && |Q.logs| > 0 && P'.currentTerm == a.term
    requires Appended(Q, P', a, p, n, h)
    ensures AckOK(AckOf(p, a), h.leaders) && AckLive(AckOf(p, a), P', h.leaders)
  {
    var e, G := a.prevLogIndex + |a.entries| + 1, h.leaders[a.term].log;
    forall i: nat | i < e && Has(G, a.term, i) ensures Holds(Full(P'), a.term, i, P'.currentTerm, h.leaders) {
      assert Full(P')[i] == Full(P')[..e][i] == G[..e][i];
    }
  }

  // ----- Moves that add acknowledgements and commits ---------------------------------

  lemma AckHistory(s: Cluster, h': History, p: nat, acks: set<Ack>, commits: set<Commit>, term: nat)
    requires Inv(s) && p < |s.nodes| && s.nodes[p].peer.currentTerm <= term
    requires h' == s.history.(acks := s.history.acks + acks, commits := s.history.commits + commits)
    requires forall a :: a in acks ==> a.peer == p && a.term == term && AckOK(a, h'.leaders)
    requires forall c :: c in commits ==> CommitOK(h', c, |s.nodes|)
    ensures HistoryStep(s.history, h', p, term) && HistoryOK(h', |s.nodes|)
  {
    assert Grows(s.history.leaders, h'.leaders);
    assert AcksKnown(h') by {
      forall a | a in h'.acks ensures AckOK(a, h'.leaders) {
      }
    }
    HistoryAdvance(s, h', p, term);
  }

  lemma AckMove(s: Cluster, s': Cluster, p: nat, acks: set<Ack>, commits: set<Commit>)
    requires Inv(s) && p < |s.nodes| == |s'.nodes| && s'.nodes == s.nodes[p := s'.nodes[p]]
    requires s'.history == s.history.(acks := s.history.acks + acks, commits := s.history.commits + commits)
    requires s'.delivered == s.delivered && s.net <= s'.net
    requires NodeOK(s'.nodes[p], p, |s.nodes|, s'.history)
    requires |s.nodes[p].peer.logs| > 0 && PeerStep(s.nodes[p].peer, s'.nodes[p].peer, s.history.leaders)
    requires forall a :: a in acks ==>
               && a.peer == p && a.term == s'.nodes[p].peer.currentTerm
               && AckOK(a, s.history.leaders) && AckLive(a, s'.nodes[p].peer, s.history.leaders)
    requires forall c :: c in commits ==> CommitOK(s'.history, c, |s.nodes|)
    requires NodesOK(s') ==> forall m {:trigger MessageOK(m, s')} :: m in s'.net && m !in s.net ==> MessageOK(m, s')
    ensures Inv(s')
  {
    AckHistory(s, s'.history, p, acks, commits, s'.nodes[p].peer.currentTerm);
    assert Moves(s, s', p);
    assert NewOK(s, s', p);
    Advance(s, s', p);
  }

  lemma PeerMoreAcks(P: Peer, p: nat, n: nat, h: History, h': History)
    requires PeerOK(P, p, n, h) && h' == h.(acks := h'.acks) && h.acks <= h'.acks
    ensures PeerOK(P, p, n, h')
  {
    CommittedGrows(Full(P)[..P.commitIndex + 1], P.currentTerm, P.currentTerm, h, h');
  }

  lemma AppendResponseOK(s': Cluster, p: nat, a: AppendArgs, reply: AppendReply, h: History)
    requires p < |s'.nodes| && AppendOK(a, h) && s'.history == h.(acks := s'.history.acks)
    requires reply.success ==> AckOf(p, a) in s'.history.acks
    ensures NodesOK(s') ==> MessageOK(AppendResponse(p, a, reply), s')
  {
    AppendMoreAcks(a, h, s'.history);
  }

  /** A peer that handled entries answers, and its acknowledgement is recorded. */
  lemma AnswerKeepsInv(s: Cluster, p: nat, a: AppendArgs, P': Peer, reply: AppendReply)
    requires Inv(s) && Ready(s, p) && AppendOK(a, s.history)
    requires PeerOK(P', p, |s.nodes|, s.history) && PeerStep(s.nodes[p].peer, P', s.history.leaders)
    requires s.nodes[p].peer.commitIndex <= P'.commitIndex
    requires reply.success ==>
               && P'.currentTerm == a.term
               && AckOK(AckOf(p, a), s.history.leaders) && AckLive(AckOf(p, a), P', s.history.leaders)
    ensures Inv(Answer(s, p, a, P', reply))
  {
    var s', n, h := Answer(s, p, a, P', reply), |s.nodes|, s.history;
    var node := s.nodes[p];
    assert NodeOK(node, p, n, h);
    PeerMoreAcks(P', p, n, h, s'.history);
    NodeKeeps(node, node.(peer := P'), p, n, h, s'.history);
    AppendResponseOK(s', p, a, reply, h);
    AckMove(s, s', p, if reply.success then {AckOf(p, a)} else {}, {});
  }

  lemma GetAppendKeepsInv(s: Cluster, p: nat, m: Message)
    requires Inv(s) && Ready(s, p) && m in s.net && m.AppendRequest?
    ensures Inv(DoGetAppend(s, p, m))
  {
    var n, h, P, a := |s.nodes|, s.history, s.nodes[p].peer, m.append;
    assert NodeOK(s.nodes[p], p, n, h) && MessageOK(m, s);
    HandleAppendOK(P, a, p, n, h);
    var (P', reply) := HandleAppend(P, a);
    if reply.success {
      AckedLive(P', Settled(P, a.term), a, p, n, h);
    }
    AnswerKeepsInv(s, p, a, P', reply);
  }

  lemma AppendMoreAcks(a: AppendArgs, h: History, h': History)
    requires AppendOK(a, h) && h' == h.(acks := h'.acks)
    ensures AppendOK(a, h')
  {
    assert Grows(h.leaders, h'.leaders);
    AppendFrame(a, h, h');
  }

  // ----- Counting acknowledgements ---------------------------------------------------

  lemma CountedQuorum(P: Peer, p: nat, N: nat, n: nat)
    requires |P.matchIndex| == n && p < n && |Replicas(P, p, N)| + 1 > n / 2
    ensures IsQuorum(Replicas(P, p, N) + {p}, n)
  {
  }

  /** A position counted to a majority is backed by acknowledgements of the current term:
      snapshot replies never contribute. */
  lemma CommitBacked(P: Peer, p: nat, N: nat, n: nat, h: History)
    requires PeerOK(P, p, n, h) && P.role.Leader? && p < n && LeaderLogs(h.leaders)
    requires P.commitIndex < N <= LastIndex(P) && Committable(P, p, N)
    ensures var h' := h.(acks := h.acks + {Ack(p, P.currentTerm, N)});
            CommitOK(h', Commit(P.currentTerm, N, Replicas(P, p, N) + {p}), n)
    ensures Has(h.leaders[P.currentTerm].log, P.currentTerm, N)
  {
    var c := Commit(P.currentTerm, N, Replicas(P, p, N) + {p});
    var acks := h.acks + {Ack(p, P.currentTerm, N)};
    TermOfFull(P, N, n);
    LastOfFull(P, n);
    CountedQuorum(P, p, N, n);
    assert LeaderLog(P.currentTerm, h.leaders);
    forall q | q in c.quorum ensures exists a :: a in acks && Backs(a, c, q) {
      if q == p {
        assert Backs(Ack(p, P.currentTerm, N), c, q);
      } else {
        assert P.matchIndex[q] > P.commitIndex;
        var a :| a in h.acks && a.peer == q && a.term == P.currentTerm && a.upto >= P.matchIndex[q];
        assert Backs(a, c, q);
      }
    }
  }

  /** Reply bookkeeping of the leader, before it counts. */
  lemma NotedOK(P: Peer, Q: Peer, p: nat, n: nat, h: History)
    requires PeerOK(P, p, n, h) && Q == P.(matchIndex := Q.matchIndex, nextIndex := Q.nextIndex)
    requires |Q.matchIndex| == |Q.nextIndex| == n
    requires P.role.Leader? ==> MatchOK(Q, p, h) && forall q :: 0 <= q < n ==> Q.nextIndex[q] <= LastIndex(P) + 1
    ensures PeerOK(Q, p, n, h) && Full(Q) == Full(P)
  {
    SameLogOK(P, Q, p, n, h);
  }

  lemma MatchNoted(P: Peer, server: nat, matched: nat, p: nat, h: History)
    requires server < |P.nextIndex| == |P.matchIndex| && MatchOK(P, p, h)
    requires Ack(server, P.currentTerm, matched) in h.acks
    ensures MatchOK(NoteMatch(P, server, matched), p, h)
  {
    var Q := NoteMatch(P, server, matched);
    forall q | 0 <= q < |Q.matchIndex| && q != p && Q.matchIndex[q] > Q.commitIndex
      ensures exists b :: b in h.acks && b.peer == q && b.term == Q.currentTerm && b.upto >= Q.matchIndex[q]
    {
      if q == server && matched >= P.matchIndex[server] {
        assert Ack(server, P.currentTerm, matched) in h.acks;
      } else {
        var b :| b in h.acks && b.peer == q && b.term == P.currentTerm && b.upto >= P.matchIndex[q];
      }
    }
  }

  /** The request lies within the leader's log. */
  predicate Within(a: AppendArgs, ls: Leaders) {
    a.term in ls && a.prevLogIndex + |a.entries| < |ls[a.term].log|
  }

  lemma AckNoted(P: Peer, server: nat, a: AppendArgs, p: nat, n: nat, h: History)
    requires PeerOK(P, p, n, h) && P.role.Leader? && server < n && a.term == P.currentTerm
    requires Within(a, h.leaders) && AckOf(server, a) in h.acks
    ensures var Q := NoteMatch(P, server, a.prevLogIndex + |a.entries|);
            PeerOK(Q, p, n, h) && Full(Q) == Full(P)
  {
    var matched := a.prevLogIndex + |a.entries|;
    LastOfFull(P, n);
    MatchNoted(P, server, matched, p, h);
    NotedOK(P, NoteMatch(P, server, matched), p, n, h);
  }

  ghost predicate CountedFrom(P: Peer, Q: Peer, P': Peer, p: nat, n: nat, h: History)
    requires |P.logs| > 0
  {
    && PeerOK(Q, p, n, h) && Q.role.Leader? && Q.commitIndex == P.commitIndex
    && Q.currentTerm == P.currentTerm && Q.votedFor == P.votedFor && Full(Q) == Full(P)
    && P'.commitIndex > Q.commitIndex && P' == Q.(commitIndex := P'.commitIndex)
    && P'.commitIndex <= LastIndex(Q) && Committable(Q, p, P'.commitIndex)
  }

  lemma BackedOff(P: Peer, server: nat, p: nat, n: nat, h: History, P': Peer)
    requires PeerOK(P, p, n, h) && P.role.Leader? && server < n && P.nextIndex[server] > 0
    requires P' == P.(nextIndex := P.nextIndex[server := P.nextIndex[server] - 1])
    ensures PeerOK(P', p, n, h) && PeerStep(P, P', h.leaders)
  {
    NotedOK(P, P', p, n, h);
    KeepsPrefix(Full(P), Full(P'), P.currentTerm, h.leaders);
  }

  predicate Accepted(P: Peer, a: AppendArgs, reply: AppendReply) {
    reply.term <= P.currentTerm && P.role.Leader? && a.term == P.currentTerm && reply.success
  }

  /** A reply that is not an acknowledgement to the current leader. */
  lemma RefusalOK(P: Peer, p: nat, server: nat, a: AppendArgs, reply: AppendReply, n: nat, h: History)
    requires PeerOK(P, p, n, h) && server < n && !Accepted(P, a, reply)
    ensures var P' := OnAppendReply(P, p, server, a, reply);
            PeerOK(P', p, n, h) && PeerStep(P, P', h.leaders) && P'.commitIndex == P.commitIndex
  {
    if reply.term > P.currentTerm {
      StepDownOK(P, reply.term, p, n, h);
    } else if P.role.Leader? && a.term == P.currentTerm && P.nextIndex[server] > P.lastIncludedIndex {
      BackedOff(P, server, p, n, h, OnAppendReply(P, p, server, a, reply));
    } else {
      StayPut(P, h.leaders);
    }
  }

  lemma CountedPeerOK(Q: Peer, N: nat, p: nat, n: nat, h: History, h': History)
    requires PeerOK(Q, p, n, h) && Q.role.Leader? && Q.commitIndex < N <= LastIndex(Q)
    requires h'.leaders == h.leaders && h.acks <= h'.acks
    requires exists c :: c in h'.commits && c.term == Q.currentTerm && c.index == N
    ensures PeerOK(Q.(commitIndex := N), p, n, h')
  {
    var P' := Q.(commitIndex := N);
    assert Full(P') == Full(Q);
    LastOfFull(Q, n);
    var c :| c in h'.commits && c.term == Q.currentTerm && c.index == N;
    assert Covers(c, Full(Q)[..N + 1], h'.leaders);
  }

  lemma CountKeepsAll(s: Cluster, p: nat, Q: Peer, P': Peer)
    requires Inv(s) && Ready(s, p) && CountedFrom(s.nodes[p].peer, Q, P', p, |s.nodes|, s.history)
    ensures Inv(Counted(s, p, P'))
  {
    var s', n, h, N := Counted(s, p, P'), |s.nodes|, s.history, P'.commitIndex;
    var node, node', P := s.nodes[p], s'.nodes[p], s.nodes[p].peer;
    var ack, c := Ack(p, P'.currentTerm, N), Commit(P'.currentTerm, N, Replicas(P', p, N) + {p});
    assert NodeOK(node, p, n, h);
    assert Replicas(P', p, N) == Replicas(Q, p, N);
    CommitBacked(Q, p, N, n, h);
    assert CommitOK(s'.history, c, n) by {
      CommitFrame(c, h.(acks := h.acks + {ack}), s'.history, n);
    }
    CountedPeerOK(Q, N, p, n, h, s'.history);
    NodeKeeps(node, node', p, n, h, s'.history);
    assert Full(P') == Full(Q) == Full(P);
    KeepsPrefix(Full(P), Full(P'), P'.currentTerm, h.leaders);
    OwnAckLive(P', ack, h.leaders);
    AckMove(s, s', p, {ack}, {c});
  }

  lemma OwnAckLive(P: Peer, a: Ack, ls: Leaders)
    requires |P.logs| > 0 && a.term == P.currentTerm && a.term in ls && Full(P) == ls[a.term].log && a.upto < |Full(P)|
    ensures AckOK(a, ls) && AckLive(a, P, ls)
  {
  }

  /** The leader notes an acknowledgement and counts. */
  lemma AcceptanceKeepsInv(s: Cluster, p: nat, server: nat, a: AppendArgs, P': Peer)
    requires Inv(s) && Ready(s, p) && server < |s.nodes| == |s.nodes[p].peer.nextIndex| == |s.nodes[p].peer.matchIndex|
    requires s.nodes[p].peer.role.Leader? && a.term == s.nodes[p].peer.currentTerm
    requires Within(a, s.history.leaders) && AckOf(server, a) in s.history.acks
    requires P' == AdvanceCommit(NoteMatch(s.nodes[p].peer, server, a.prevLogIndex + |a.entries|), p)
    ensures Inv(Counted(s, p, P'))
  {
    var P, n, h := s.nodes[p].peer, |s.nodes|, s.history;
    var Q := NoteMatch(P, server, a.prevLogIndex + |a.entries|);
    assert NodeOK(s.nodes[p], p, n, h);
    AckNoted(P, server, a, p, n, h);
    if P'.commitIndex > Q.commitIndex {
      CountKeepsAll(s, p, Q, P');
    } else {
      assert P' == Q;
      KeepsPrefix(Full(P), Full(Q), P.currentTerm, h.leaders);
      QuietCount(s, p, P');
    }
  }

  lemma ReplyKeepsInv(s: Cluster, p: nat, m: Message, P': Peer)
    requires Inv(s) && Ready(s, p) && m in s.net && m.AppendResponse?
    requires m.from < |s.nodes[p].peer.nextIndex| == |s.nodes[p].peer.matchIndex|
    requires P' == OnAppendReply(s.nodes[p].peer, p, m.from, m.append, m.appendReply)
    ensures Inv(Counted(s, p, P'))
  {
    var P, n, h := s.nodes[p].peer, |s.nodes|, s.history;
    assert NodeOK(s.nodes[p], p, n, h) && MessageOK(m, s);
    if Accepted(P, m.append, m.appendReply) {
      AcceptanceKeepsInv(s, p, m.from, m.append, P');
    } else {
      RefusalOK(P, p, m.from, m.append, m.appendReply, n, h);
      QuietCount(s, p, P');
    }
  }

  lemma GetAppendReplyKeepsInv(s: Cluster, p: nat, m: Message)
    requires Inv(s) && Ready(s, p) && m in s.net && m.AppendResponse?
    requires m.from < |s.nodes[p].peer.nextIndex| == |s.nodes[p].peer.matchIndex|
    ensures Inv(DoGetAppendReply(s, p, m))
  {
    ReplyKeepsInv(s, p, m, OnAppendReply(s.nodes[p].peer, p, m.from, m.append, m.appendReply));
  }

  lemma QuietCount(s: Cluster, p: nat, P': Peer)
    requires Inv(s) && Ready(s, p) && PeerOK(P', p, |s.nodes|, s.history)
    requires PeerStep(s.nodes[p].peer, P', s.history.leaders) && P'.commitIndex == s.nodes[p].peer.commitIndex
    ensures Inv(Counted(s, p, P'))
  {
    var s', n, h, node := Counted(s, p, P'), |s.nodes|, s.history, s.nodes[p];
    assert NodeOK(node, p, n, h);
    NodeKeeps(node, node.(peer := P'), p, n, h, h);
    assert s'.net == s.net;
    QuietMove(s, s', p, s'.nodes[p]);
  }
}
