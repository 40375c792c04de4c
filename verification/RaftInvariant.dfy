/**
 The invariant of the cluster, and how it survives when one peer moves: `Advance` reduces
 "the whole state is still fine" to facts about the moved peer and the new records.
 */
module RaftInvariant {
  import opened RaftPeer
  import opened RaftHistory
  import opened RaftCluster

  // ----- One peer --------------------------------------------------------------------

  /** The stored snapshot belongs to the base of the log, and a restart at this point
      would bring back term, vote, base and log as they are in memory. */
  predicate RepOK(P: Peer, n: nat) {
    && |P.logs| > 0
    && P.logs[0].term == P.lastIncludedTerm
    && |Stem(P)| == P.lastIncludedIndex + 1
    && Last(Stem(P)).term == P.lastIncludedTerm
    && Hard(Boot(P.storage, n)) == Hard(P)
    && |P.nextIndex| == |P.matchIndex| == n
  }

  /** The order of a peer's four log positions. */
  predicate OffsetsOK(P: Peer) {
    P.lastIncludedIndex <= P.lastApplied <= P.commitIndex <= LastIndex(P)
  }

  /** A counted position above the commit index is backed by an acknowledgement of the
      current term. */
  ghost predicate MatchOK(P: Peer, p: nat, h: History) {
    forall q :: 0 <= q < |P.matchIndex| && q != p && P.matchIndex[q] > P.commitIndex ==>
      exists a :: a in h.acks && a.peer == q && a.term == P.currentTerm && a.upto >= P.matchIndex[q]
  }

  ghost predicate RoleOK(P: Peer, p: nat, h: History)
    requires |P.logs| > 0
  {
    match P.role
    case Leader =>
      && P.currentTerm in h.leaders
      && h.leaders[P.currentTerm].who == p
      && Full(P) == h.leaders[P.currentTerm].log
      && MatchOK(P, p, h)
      && (forall q :: 0 <= q < |P.nextIndex| ==> P.nextIndex[q] <= LastIndex(P) + 1)
    case Candidate => P.currentTerm >= 1 && (P.currentTerm in h.leaders ==> h.leaders[P.currentTerm].who != p)
    case Follower => true
  }

  ghost predicate PeerOK(P: Peer, p: nat, n: nat, h: History) {
    && RepOK(P, n)
    && OffsetsOK(P)
    && Chain(Full(P), h.leaders)
    && TermsBelow(Full(P), P.currentTerm)
    && P.commitIndex < |Full(P)|
    && Committed(Full(P)[..P.commitIndex + 1], P.currentTerm, h)
    && RoleOK(P, p, h)
  }

  /** A snapshot in flight describes committed entries. */
  ghost predicate SnapOK(a: SnapshotArgs, b: int, h: History) {
    a.lastIncludedIndex > 0 ==>
      && |a.data| == a.lastIncludedIndex + 1
      && Last(a.data).term == a.lastIncludedTerm
      && Committed(a.data, b, h)
  }

  predicate Voted(h: History, term: nat, voter: nat, candidate: nat) {
    exists g :: g in h.grants && g.term == term && g.voter == voter && g.candidate == candidate
  }

  ghost predicate TallyOK(tally: Tally, term: nat, p: nat, n: nat, h: History) {
    forall v :: v in tally.granted || v in tally.counted ==> v < n && Voted(h, term, v, p)
  }

  ghost predicate NodeOK(node: Node, p: nat, n: nat, h: History) {
    && PeerOK(node.peer, p, n, h)
    && (forall a {:trigger SnapOK(a, node.peer.currentTerm, h)} ::
          a in node.offered ==> SnapOK(a, node.peer.currentTerm, h))
    && (node.sending.Some? ==> node.sending.value <= node.peer.commitIndex)
    && (forall U :: U in node.elections ==>
          U <= node.peer.currentTerm && TallyOK(node.elections[U], U, p, n, h))
  }

  // ----- Records against the peers they speak of -------------------------------------

  /** While C is still the candidate of U it holds what `log` held. */
  ghost predicate CandidateKeeps(U: nat, log: Log, C: Peer, ls: Leaders)
    requires |C.logs| > 0
  {
    C.role.Candidate? && C.currentTerm == U ==> Keeps(log, Full(C), U, ls)
  }

  ghost predicate GrantOK(g: Grant, V: Peer, C: Peer, h: History)
    requires |C.logs| > 0
    requires AcksKnown(h)
  {
    && (g.term < V.currentTerm || (g.term == V.currentTerm && V.votedFor == g.candidate))
    && g.term <= C.currentTerm
    && Chain(g.voterLog, h.leaders) && Chain(g.candidateLog, h.leaders)
    && AtLeast(g.candidateLog, g.voterLog)
    && AcksHeld(h, g.voter, g.term, g.voterLog, g.term)
    && CandidateKeeps(g.term, g.candidateLog, C, h.leaders)
    && (C.role.Candidate? && C.currentTerm == g.term ==> TermsBelow(g.candidateLog, g.term))
  }

  ghost predicate AckLive(a: Ack, P: Peer, ls: Leaders)
    requires |P.logs| > 0 && AckOK(a, ls)
  {
    a.term <= P.currentTerm && AckHeld(a, Full(P), P.currentTerm, ls)
  }

  ghost predicate AppendOK(a: AppendArgs, h: History) {
    && a.term in h.leaders
    && var G := h.leaders[a.term].log;
       && a.prevLogIndex + |a.entries| < |G|
       && a.entries == G[a.prevLogIndex + 1..a.prevLogIndex + 1 + |a.entries|]
       && a.prevLogTerm == G[a.prevLogIndex].term
       && a.leaderCommit < |G|
       && Committed(G[..a.leaderCommit + 1], a.term, h)
  }

  ghost predicate VoteRequestOK(m: Message, C: Peer, h: History)
    requires m.VoteRequest? && |C.logs| > 0
  {
    && m.to != m.vote.candidate
    && m.vote.term <= C.currentTerm
    && Chain(m.log, h.leaders)
    && m.vote.lastLogIndex == |m.log| - 1 && m.vote.lastLogTerm == Last(m.log).term
    && CandidateKeeps(m.vote.term, m.log, C, h.leaders)
    && (C.role.Candidate? && C.currentTerm == m.vote.term ==> TermsBelow(m.log, m.vote.term))
  }

  ghost predicate MessageOK(m: Message, s: Cluster)
    requires NodesOK(s)
  {
    var n, h := |s.nodes|, s.history;
    match m
    case VoteRequest(to, vote, log) => 
      && vote.candidate < n && NodeOK(s.nodes[vote.candidate], vote.candidate, n, h)
      && VoteRequestOK(m, s.nodes[vote.candidate].peer, h)
    case VoteResponse(from, vote, reply) => from < n && (reply.granted ==> Voted(h, vote.term, from, vote.candidate))
    case AppendRequest(to, append) => AppendOK(append, h)
    case AppendResponse(from, append, reply) =>
      && from < n && AppendOK(append, h)
      && (reply.success ==> AckOf(from, append) in h.acks)
    case SnapshotRequest(to, snapshot) => SnapOK(snapshot, snapshot.term, h)
    case SnapshotResponse(from, snapshot, term) => true
  }

  predicate Justifies(c: Commit, msg: ApplyMsg, ls: Leaders) {
    && msg.index <= c.index && c.term in ls && msg.index < |ls[c.term].log|
    && ls[c.term].log[msg.index] == Entry(msg.command, msg.term)
  }

  /** A delivered command is a committed entry. */
  predicate DeliveryOK(d: Delivery, h: History) {
    d.msg.index > 0 && exists c :: c in h.commits && Justifies(c, d.msg, h.leaders)
  }

  // ----- The invariant ---------------------------------------------------------------

  ghost predicate NodesOK(s: Cluster) {
    forall q {:trigger NodeOK(s.nodes[q], q, |s.nodes|, s.history)} ::
      0 <= q < |s.nodes| ==> NodeOK(s.nodes[q], q, |s.nodes|, s.history)
  }

  ghost predicate GrantIn(s: Cluster, g: Grant)
    requires NodesOK(s) && AcksKnown(s.history)
  {
    && g.voter < |s.nodes| && g.candidate < |s.nodes|
    && NodeOK(s.nodes[g.candidate], g.candidate, |s.nodes|, s.history)
    && GrantOK(g, s.nodes[g.voter].peer, s.nodes[g.candidate].peer, s.history)
  }

  ghost predicate GrantsOK(s: Cluster)
    requires NodesOK(s)
    requires AcksKnown(s.history)
  {
    forall g {:trigger GrantIn(s, g)} :: g in s.history.grants ==> GrantIn(s, g)
  }

  ghost predicate AckIn(s: Cluster, a: Ack)
    requires NodesOK(s)
  {
    && AckOK(a, s.history.leaders)
    && a.peer < |s.nodes|
    && NodeOK(s.nodes[a.peer], a.peer, |s.nodes|, s.history)
    && AckLive(a, s.nodes[a.peer].peer, s.history.leaders)
  }

  ghost predicate AcksOK(s: Cluster)
    requires NodesOK(s)
  {
    forall a {:trigger AckIn(s, a)} :: a in s.history.acks ==> AckIn(s, a)
  }

  predicate LeaderIn(s: Cluster, U: nat)
    requires U in s.history.leaders
  {
    var who := s.history.leaders[U].who;
    who < |s.nodes| && U <= s.nodes[who].peer.currentTerm
  }

  predicate LeadersKnown(s: Cluster) {
    forall U {:trigger LeaderIn(s, U)} :: U in s.history.leaders ==> LeaderIn(s, U)
  }

  /** A peer votes for at most one candidate in a term. */
  predicate OneVote(grants: set<Grant>) {
    forall g, w :: g in grants && w in grants && g.term == w.term && g.voter == w.voter ==> g.candidate == w.candidate
  }

  ghost predicate Inv(s: Cluster) {
    && HistoryOK(s.history, |s.nodes|)
    && OneVote(s.history.grants)
    && NodesOK(s)
    && AcksOK(s)
    && GrantsOK(s)
    && LeadersKnown(s)
    && (forall m {:trigger MessageOK(m, s)} :: m in s.net ==> MessageOK(m, s))
    && (forall d {:trigger DeliveryOK(d, s.history)} :: d in s.delivered ==> DeliveryOK(d, s.history))
  }

  // ----- How a peer may move ---------------------------------------------------------

  ghost predicate PeerStep(P: Peer, P': Peer, ls: Leaders)
    requires |P.logs| > 0 && |P'.logs| > 0
  {
    && P.currentTerm <= P'.currentTerm
    && (P.currentTerm == P'.currentTerm ==> P.votedFor == NOBODY || P'.votedFor == P.votedFor)
    && (P.currentTerm == P'.currentTerm && P'.role.Candidate? ==> P.role.Candidate?)
    && Keeps(Full(P), Full(P'), P'.currentTerm, ls)
  }

  /** History only grows; what is new is about the moved peer p. */
  predicate HistoryStep(h: History, h': History, p: nat, term: nat) {
    && Grows(h.leaders, h'.leaders)
    && (forall T :: T in h'.leaders && h'.leaders[T].who != p ==> T in h.leaders && h'.leaders[T] == h.leaders[T])
    && h.acks <= h'.acks && h.grants <= h'.grants && h.commits <= h'.commits
    && (forall a :: a in h'.acks && a !in h.acks ==> a.peer == p && a.term == term)
  }

  lemma CommittedGrows(S: Log, b: int, b': int, h: History, h': History)
    requires Committed(S, b, h) && b <= b' && h.commits <= h'.commits && Grows(h.leaders, h'.leaders)
    ensures Committed(S, b', h')
  {
    if !(S <= [PLACEHOLDER]) {
      var c :| c in h.commits && c.term <= b && Covers(c, S, h.leaders);
      assert LeaderGrows(c.term, h.leaders, h'.leaders);
      assert Covers(c, S, h'.leaders);
    }
  }

  lemma PeerFrame(P: Peer, q: nat, n: nat, h: History, h': History, p: nat, term: nat)
    requires PeerOK(P, q, n, h) && HistoryStep(h, h', p, term) && q != p
    ensures PeerOK(P, q, n, h')
  {
    ChainGrows(Full(P), h.leaders, h'.leaders);
    CommittedGrows(Full(P)[..P.commitIndex + 1], P.currentTerm, P.currentTerm, h, h');
    assert P.role.Leader? ==> LeaderGrows(P.currentTerm, h.leaders, h'.leaders);
  }

  lemma NodeFrame(node: Node, q: nat, n: nat, h: History, h': History, p: nat, term: nat)
    requires NodeOK(node, q, n, h) && HistoryStep(h, h', p, term) && q != p
    ensures NodeOK(node, q, n, h')
  {
    PeerFrame(node.peer, q, n, h, h', p, term);
    OfferedFrame(node.offered, node.peer.currentTerm, node.peer.currentTerm, h, h');
    forall U | U in node.elections ensures TallyOK(node.elections[U], U, q, n, h') {
      TallyFrame(node.elections[U], U, q, n, h, h');
    }
  }

  lemma OfferedFrame(offered: set<SnapshotArgs>, b: int, b': int, h: History, h': History)
    requires forall a :: a in offered ==> SnapOK(a, b, h)
    requires b <= b' && h.commits <= h'.commits && Grows(h.leaders, h'.leaders)
    ensures forall a :: a in offered ==> SnapOK(a, b', h')
  {
    forall a | a in offered && a.lastIncludedIndex > 0 ensures SnapOK(a, b', h') {
      CommittedGrows(a.data, b, b', h, h');
    }
  }

  lemma TallyFrame(tally: Tally, U: nat, q: nat, n: nat, h: History, h': History)
    requires TallyOK(tally, U, q, n, h) && h.grants <= h'.grants
    ensures TallyOK(tally, U, q, n, h')
  {
    forall v | v in tally.granted || v in tally.counted ensures Voted(h', U, v, q) {
      assert Voted(h, U, v, q);
    }
  }

  lemma AckHeldFrame(a: Ack, L: Log, L': Log, b: int, b': int, ls: Leaders, ls': Leaders)
    requires AckOK(a, ls) && LeaderLogs(ls) && AckHeld(a, L, b, ls) && Grows(ls, ls') && Keeps(L, L', b', ls') && b <= b'
    ensures AckOK(a, ls') && AckHeld(a, L', b', ls')
  {
    assert LeaderGrows(a.term, ls, ls') && LeaderLog(a.term, ls);
    forall i: nat | i <= a.upto && Has(ls'[a.term].log, a.term, i) ensures Holds(L', a.term, i, b', ls') {
      assert Has(ls[a.term].log, a.term, i);
      HoldsGrows(L, a.term, i, b, ls, ls');
      HoldsKept(L, L', a.term, i, b, b', ls');
    }
  }

  lemma AcksHeldFrame(v: nat, U: nat, L: Log, b: int, h: History, h': History, p: nat, term: nat)
    requires AcksKnown(h)
    requires AcksKnown(h')
    requires LeaderLogs(h.leaders) && AcksHeld(h, v, U, L, b) && HistoryStep(h, h', p, term)
    requires v == p ==> U <= term
    ensures AcksHeld(h', v, U, L, b)
  {
    forall a | a in h'.acks && a.peer == v && a.term < U ensures AckHeld(a, L, b, h'.leaders) {
      assert a in h.acks;
      KeepsPrefix(L, L, b, h'.leaders);
      AckHeldFrame(a, L, L, b, b, h.leaders, h'.leaders);
    }
  }

  lemma CandidateFrame(U: nat, log: Log, C: Peer, C': Peer, ls: Leaders, ls': Leaders)
    requires |C.logs| > 0 && |C'.logs| > 0 && U <= C.currentTerm
    requires CandidateKeeps(U, log, C, ls) && Grows(ls, ls') && PeerStep(C, C', ls')
    ensures CandidateKeeps(U, log, C', ls')
    ensures C'.role.Candidate? && C'.currentTerm == U ==> C.role.Candidate? && C.currentTerm == U
  {
    if C'.role.Candidate? && C'.currentTerm == U {
      KeepsGrows(log, Full(C), U, ls, ls');
      KeepsTrans(log, Full(C), Full(C'), U, U, ls');
    }
  }

  lemma StayPut(P: Peer, ls: Leaders)
    requires |P.logs| > 0
    ensures PeerStep(P, P, ls)
  {
    KeepsPrefix(Full(P), Full(P), P.currentTerm, ls);
  }

  lemma GrantFrame(g: Grant, V: Peer, V': Peer, C: Peer, C': Peer, h: History, h': History, p: nat, term: nat)
    requires |V.logs| > 0 && |V'.logs| > 0 && |C.logs| > 0 && |C'.logs| > 0
    requires AcksKnown(h)
    requires AcksKnown(h')
    requires LeaderLogs(h.leaders) && GrantOK(g, V, C, h) && HistoryStep(h, h', p, term)
    requires g.voter == p ==> V.currentTerm <= term
    requires PeerStep(V, V', h'.leaders) && PeerStep(C, C', h'.leaders)
    ensures GrantOK(g, V', C', h')
  {
    ChainGrows(g.voterLog, h.leaders, h'.leaders);
    ChainGrows(g.candidateLog, h.leaders, h'.leaders);
    AcksHeldFrame(g.voter, g.term, g.voterLog, g.term, h, h', p, term);
    CandidateFrame(g.term, g.candidateLog, C, C', h.leaders, h'.leaders);
  }

  lemma AppendFrame(a: AppendArgs, h: History, h': History)
    requires AppendOK(a, h) && h.commits <= h'.commits && Grows(h.leaders, h'.leaders)
    ensures AppendOK(a, h')
  {
    assert LeaderGrows(a.term, h.leaders, h'.leaders);
    var G, G' := h.leaders[a.term].log, h'.leaders[a.term].log;
    var e := a.prevLogIndex + 1 + |a.entries|;
    assert G[..e] == G'[..e];
    assert G[a.prevLogIndex + 1..e] == G[..e][a.prevLogIndex + 1..];
    assert G'[a.prevLogIndex + 1..e] == G'[..e][a.prevLogIndex + 1..];
    assert G[..a.leaderCommit + 1] == G'[..a.leaderCommit + 1];
    CommittedGrows(G[..a.leaderCommit + 1], a.term, a.term, h, h');
  }

  // ----- One peer moves --------------------------------------------------------------

  /** s' differs from s in peer p, in new messages and deliveries, and in history about p. */
  ghost predicate Moves(s: Cluster, s': Cluster, p: nat) {
    && p < |s.nodes| == |s'.nodes|
    && (forall q :: 0 <= q < |s.nodes| && q != p ==> s'.nodes[q] == s.nodes[q])
    && s.net <= s'.net && s.delivered <= s'.delivered
    && HistoryStep(s.history, s'.history, p, s'.nodes[p].peer.currentTerm)
    && |s.nodes[p].peer.logs| > 0 && |s'.nodes[p].peer.logs| > 0
    && PeerStep(s.nodes[p].peer, s'.nodes[p].peer, s'.history.leaders)
  }

  /** What has to be shown of a move. */
  ghost predicate NewOK(s: Cluster, s': Cluster, p: nat)
    requires Moves(s, s', p)
  {
    && HistoryOK(s'.history, |s'.nodes|)
    && OneVote(s'.history.grants)
    && NodeOK(s'.nodes[p], p, |s'.nodes|, s'.history)
    && (forall a {:trigger AckLive(a, s'.nodes[p].peer, s'.history.leaders)} ::
          a in s'.history.acks && a !in s.history.acks ==>
            AckOK(a, s'.history.leaders) && AckLive(a, s'.nodes[p].peer, s'.history.leaders))
    && (forall U :: U in s'.history.leaders && U !in s.history.leaders ==> U <= s'.nodes[p].peer.currentTerm)
    && (forall d {:trigger DeliveryOK(d, s'.history)} ::
          d in s'.delivered && d !in s.delivered ==> DeliveryOK(d, s'.history))
  }

  ghost predicate NewGrantsOK(s: Cluster, s': Cluster)
    requires NodesOK(s')
    requires AcksKnown(s'.history)
  {
    forall g {:trigger GrantIn(s', g)} ::
      g in s'.history.grants && g !in s.history.grants ==> GrantIn(s', g)
  }

  lemma AdvanceNodes(s: Cluster, s': Cluster, p: nat)
    requires Inv(s) && Moves(s, s', p) && NewOK(s, s', p)
    ensures NodesOK(s')
  {
    forall q | 0 <= q < |s'.nodes| ensures NodeOK(s'.nodes[q], q, |s'.nodes|, s'.history) {
      if q != p {
        NodeFrame(s.nodes[q], q, |s.nodes|, s.history, s'.history, p, s'.nodes[p].peer.currentTerm);
      }
    }
  }

  lemma PeersStep(s: Cluster, s': Cluster, p: nat, q: nat)
    requires NodesOK(s) && Moves(s, s', p) && NodesOK(s') && q < |s.nodes|
    ensures |s.nodes[q].peer.logs| > 0 && |s'.nodes[q].peer.logs| > 0
    ensures PeerStep(s.nodes[q].peer, s'.nodes[q].peer, s'.history.leaders)
  {
    if q != p {
      assert NodeOK(s.nodes[q], q, |s.nodes|, s.history);
      StayPut(s.nodes[q].peer, s'.history.leaders);
    }
  }

  lemma AdvanceAcks(s: Cluster, s': Cluster, p: nat)
    requires Inv(s) && Moves(s, s', p) && NewOK(s, s', p) && NodesOK(s')
    ensures AcksOK(s')
  {
    forall a | a in s'.history.acks
      ensures AckIn(s', a)
    {
      assert a in s.history.acks ==> AckIn(s, a);
      assert AckOK(a, s'.history.leaders);
      assert NodeOK(s'.nodes[a.peer], a.peer, |s'.nodes|, s'.history);
      if a in s.history.acks {
        var P, P' := s.nodes[a.peer].peer, s'.nodes[a.peer].peer;
        PeersStep(s, s', p, a.peer);
        AckHeldFrame(a, Full(P), Full(P'), P.currentTerm, P'.currentTerm, s.history.leaders, s'.history.leaders);
      }
    }
  }

  lemma AdvanceGrants(s: Cluster, s': Cluster, p: nat)
    requires Inv(s) && Moves(s, s', p) && NewOK(s, s', p) && NodesOK(s') && AcksOK(s') && NewGrantsOK(s, s')
    ensures GrantsOK(s')
  {
    forall g | g in s'.history.grants
      ensures GrantIn(s', g)
    {
      if g in s.history.grants {
        assert GrantIn(s, g);
        assert NodeOK(s.nodes[g.voter], g.voter, |s.nodes|, s.history);
        assert NodeOK(s'.nodes[g.voter], g.voter, |s'.nodes|, s'.history);
        assert NodeOK(s'.nodes[g.candidate], g.candidate, |s'.nodes|, s'.history);
        PeersStep(s, s', p, g.voter);
        PeersStep(s, s', p, g.candidate);
        GrantFrame(g, s.nodes[g.voter].peer, s'.nodes[g.voter].peer,
                   s.nodes[g.candidate].peer, s'.nodes[g.candidate].peer,
                   s.history, s'.history, p, s'.nodes[p].peer.currentTerm);
      }
    }
  }

  lemma AdvanceMessage(s: Cluster, s': Cluster, p: nat, m: Message)
    requires Inv(s) && Moves(s, s', p) && NodesOK(s') && m in s.net
    ensures MessageOK(m, s')
  {
    var h, h' := s.history, s'.history;
    assert MessageOK(m, s);
    match m {
      case VoteRequest(to, vote, log) =>
        PeersStep(s, s', p, vote.candidate);
        ChainGrows(log, h.leaders, h'.leaders);
        CandidateFrame(vote.term, log, s.nodes[vote.candidate].peer, s'.nodes[vote.candidate].peer, h.leaders, h'.leaders);
      case VoteResponse(from, vote, reply) =>
      case AppendRequest(to, append) =>
        AppendFrame(append, h, h');
      case AppendResponse(from, append, reply) =>
        AppendFrame(append, h, h');
      case SnapshotRequest(to, snapshot) =>
        OfferedFrame({snapshot}, snapshot.term, snapshot.term, h, h');
      case SnapshotResponse(from, snapshot, term) =>
    }
  }

  lemma AdvanceDeliveries(s: Cluster, s': Cluster, p: nat)
    requires Inv(s) && Moves(s, s', p) && NewOK(s, s', p)
    ensures forall d :: d in s'.delivered ==> DeliveryOK(d, s'.history)
  {
    forall d | d in s'.delivered ensures DeliveryOK(d, s'.history) {
      if d in s.delivered {
        assert DeliveryOK(d, s.history);
        var c :| c in s.history.commits && Justifies(c, d.msg, s.history.leaders);
        assert LeaderGrows(c.term, s.history.leaders, s'.history.leaders);
        assert Justifies(c, d.msg, s'.history.leaders);
      }
    }
  }

  lemma AdvanceLeaders(s: Cluster, s': Cluster, p: nat)
    requires Inv(s) && Moves(s, s', p) && NewOK(s, s', p)
    ensures LeadersKnown(s')
  {
    forall U | U in s'.history.leaders
      ensures LeaderIn(s', U)
    {
      if U in s.history.leaders {
        assert LeaderIn(s, U);
        assert LeaderGrows(U, s.history.leaders, s'.history.leaders);
      }
    }
  }

  /** The whole state is fine after a move whose new parts are fine. */
  lemma Advance(s: Cluster, s': Cluster, p: nat)
    requires Inv(s) && Moves(s, s', p) && NewOK(s, s', p)
    requires NodesOK(s') ==> AcksOK(s') ==>
               NewGrantsOK(s, s') && forall m {:trigger MessageOK(m, s')} :: m in s'.net && m !in s.net ==> MessageOK(m, s')
    ensures Inv(s')
  {
    AdvanceNodes(s, s', p);
    AdvanceAcks(s, s', p);
    AdvanceGrants(s, s', p);
    AdvanceLeaders(s, s', p);
    AdvanceDeliveries(s, s', p);
    forall m | m in s'.net ensures MessageOK(m, s') {
      if m in s.net {
        AdvanceMessage(s, s', p, m);
      }
    }
  }
}
