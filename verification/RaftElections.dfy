/**
 The actions of leader election keep the invariant: one lemma an action, each about the
 moved peer and the records the action adds.
 */
module RaftElections {
  import opened RaftPeer
  import opened RaftHistory
  import opened RaftCluster
  import opened RaftInvariant

  // ----- Growing the history ---------------------------------------------------------

  lemma WonFrame(s: Cluster, h': History, p: nat, term: nat, U: nat, g: Grant)
    requires Inv(s) && p < |s.nodes| && HistoryStep(s.history, h', p, term) && s.nodes[p].peer.currentTerm <= term
    requires AcksKnown(h')
    requires U in s.history.leaders && WonBy(s.history, U, g)
    ensures U in h'.leaders && WonBy(h', U, g)
  {
    var h := s.history;
    assert LeaderGrows(U, h.leaders, h'.leaders);
    ChainGrows(g.voterLog, h.leaders, h'.leaders);
    ChainGrows(g.candidateLog, h.leaders, h'.leaders);
    KeepsGrows(g.candidateLog, h.leaders[U].elected, U - 1, h.leaders, h'.leaders);
    assert GrantIn(s, g);
    AcksHeldFrame(g.voter, U, g.voterLog, U - 1, h, h', p, term);
  }

  lemma CommitFrame(c: Commit, h: History, h': History, n: nat)
    requires CommitOK(h, c, n) && Grows(h.leaders, h'.leaders) && h.acks <= h'.acks
    ensures CommitOK(h', c, n)
  {
    assert LeaderGrows(c.term, h.leaders, h'.leaders);
    forall q | q in c.quorum ensures exists a :: a in h'.acks && Backs(a, c, q) {
      var a :| a in h.acks && Backs(a, c, q);
      assert a in h'.acks;
    }
  }

  lemma HistoryAdvance(s: Cluster, h': History, p: nat, term: nat)
    requires Inv(s) && p < |s.nodes| && HistoryStep(s.history, h', p, term) && s.nodes[p].peer.currentTerm <= term
    requires LeaderLogs(h'.leaders)
    requires AcksKnown(h')
    requires forall U {:trigger LeaderOK(h', U, |s.nodes|)} ::
               U in h'.leaders && U !in s.history.leaders ==> LeaderOK(h', U, |s.nodes|)
    requires forall c {:trigger CommitOK(h', c, |s.nodes|)} ::
               c in h'.commits && c !in s.history.commits ==> CommitOK(h', c, |s.nodes|)
    ensures HistoryOK(h', |s.nodes|)
  {
    var h, n := s.history, |s.nodes|;
    forall U | U in h'.leaders ensures LeaderOK(h', U, n) {
      if U in h.leaders {
        assert LeaderOK(h, U, n) && LeaderGrows(U, h.leaders, h'.leaders);
        forall v | v in h'.leaders[U].quorum ensures exists g: Grant :: g.voter == v && WonBy(h', U, g) {
          var g: Grant :| g.voter == v && WonBy(h, U, g);
          WonFrame(s, h', p, term, U, g);
        }
      }
    }
    forall c | c in h'.commits ensures CommitOK(h', c, n) {
      if c in h.commits {
        CommitFrame(c, h, h', n);
      }
    }
  }

  // ----- Peers whose log does not change ---------------------------------------------

  predicate SameLog(P: Peer, P': Peer) {
    && P'.logs == P.logs && P'.storage.snapshot == P.storage.snapshot
    && P'.lastIncludedIndex == P.lastIncludedIndex && P'.lastIncludedTerm == P.lastIncludedTerm
    && P'.commitIndex == P.commitIndex
  }

  lemma SameLogOK(P: Peer, P': Peer, p: nat, n: nat, h: History)
    requires PeerOK(P, p, n, h) && SameLog(P, P') && RepOK(P', n) && OffsetsOK(P')
    requires P.currentTerm <= P'.currentTerm && RoleOK(P', p, h)
    ensures PeerOK(P', p, n, h)
    ensures Keeps(Full(P), Full(P'), P'.currentTerm, h.leaders)
  {
    assert Full(P') == Full(P);
    KeepsPrefix(Full(P), Full(P'), P'.currentTerm, h.leaders);
    CommittedGrows(Full(P)[..P.commitIndex + 1], P.currentTerm, P'.currentTerm, h, h);
  }

  lemma NodeKeeps(node: Node, node': Node, p: nat, n: nat, h: History, h': History)
    requires NodeOK(node, p, n, h) && PeerOK(node'.peer, p, n, h')
    requires h.commits <= h'.commits && h.grants <= h'.grants && Grows(h.leaders, h'.leaders)
    requires node.peer.currentTerm <= node'.peer.currentTerm && node.peer.commitIndex <= node'.peer.commitIndex
    requires node'.offered <= node.offered
    requires node'.sending == node.sending && node'.elections == node.elections
    ensures NodeOK(node', p, n, h')
  {
    OfferedFrame(node.offered, node.peer.currentTerm, node'.peer.currentTerm, h, h');
    forall U | U in node'.elections ensures TallyOK(node'.elections[U], U, p, n, h') {
      TallyFrame(node.elections[U], U, p, n, h, h');
    }
  }

  /** Only peer p changes, without history, messages or deliveries. */
  lemma QuietMove(s: Cluster, s': Cluster, p: nat, node: Node)
    requires Inv(s) && p < |s.nodes|
    requires s' == s.(nodes := s.nodes[p := node])
    requires NodeOK(node, p, |s.nodes|, s.history)
    requires NodeOK(s.nodes[p], p, |s.nodes|, s.history) ==> PeerStep(s.nodes[p].peer, node.peer, s.history.leaders)
    ensures Inv(s')
  {
    assert NodeOK(s.nodes[p], p, |s.nodes|, s.history);
    Advance(s, s', p);
  }

  /** Nothing changes but messages. */
  lemma SendMove(s: Cluster, s': Cluster, p: nat, m: Message)
    requires Inv(s) && p < |s.nodes|
    requires s' == s.(net := s.net + {m})
    requires NodesOK(s) && MessageOK(m, s)
    ensures Inv(s')
  {
    assert NodeOK(s.nodes[p], p, |s.nodes|, s.history);
    StayPut(s.nodes[p].peer, s.history.leaders);
    Advance(s, s', p);
  }

  // ----- Elections -------------------------------------------------------------------

  /** What a peer acknowledged is held by its log. */
  lemma OwnAcksHeld(s: Cluster, p: nat, U: nat, b: int)
    requires Inv(s) && p < |s.nodes| && s.nodes[p].peer.currentTerm <= b
    ensures |s.nodes[p].peer.logs| > 0
    ensures AcksHeld(s.history, p, U, Full(s.nodes[p].peer), b)
  {
    var h, P := s.history, s.nodes[p].peer;
    assert NodeOK(s.nodes[p], p, |s.nodes|, h);
    KeepsPrefix(Full(P), Full(P), b, h.leaders);
    forall a | a in h.acks && a.peer == p && a.term < U ensures AckHeld(a, Full(P), b, h.leaders) {
      assert AckIn(s, a);
      AckHeldFrame(a, Full(P), Full(P), P.currentTerm, b, h.leaders, h.leaders);
    }
  }

  lemma TimeoutKeepsInv(s: Cluster, p: nat)
    requires Inv(s) && Ready(s, p)
    ensures Inv(DoTimeout(s, p))
  {
    var s', n, h := DoTimeout(s, p), |s.nodes|, s.history;
    var node, node', h' := s.nodes[p], s'.nodes[p], s'.history;
    var P, P' := node.peer, node'.peer;
    assert NodeOK(node, p, n, h);
    assert P'.currentTerm in h.leaders ==> LeaderIn(s, P'.currentTerm);
    SameLogOK(P, P', p, n, h);
    var g := Grant(P'.currentTerm, p, p, Full(P), Full(P));
    OneMoreVote(s, g, P');
    assert PeerOK(P', p, n, h');
    assert NodeOK(node', p, n, h') by {
      OfferedFrame(node.offered, P.currentTerm, P'.currentTerm, h, h');
      forall U | U in node'.elections ensures TallyOK(node'.elections[U], U, p, n, h') {
        if U == P'.currentTerm {
          assert g in h'.grants;
        } else {
          TallyFrame(node.elections[U], U, p, n, h, h');
        }
      }
    }
    assert GrantOK(g, P', P', h') by {
      OwnAcksHeld(s, p, g.term, g.term);
      KeepsPrefix(Full(P), Full(P'), g.term, h.leaders);
    }
    VoteMove(s, s', p, {g});
  }

  lemma AskVoteKeepsInv(s: Cluster, p: nat, term: nat, to: nat)
    requires Inv(s) && Ready(s, p) && term in s.nodes[p].elections && to != p
    ensures Inv(DoAskVote(s, p, term, to))
  {
    var s', P := DoAskVote(s, p, term, to), s.nodes[p].peer;
    assert NodeOK(s.nodes[p], p, |s.nodes|, s.history);
    var m := VoteRequest(to, MakeVoteArgs(P, p, term), Full(P));
    LastOfFull(P, |s.nodes|);
    KeepsPrefix(Full(P), Full(P), term, s.history.leaders);
    assert MessageOK(m, s);
    assert s'.nodes == s.nodes;
    SendMove(s, s', p, m);
  }

  /** Position and term of the last entry, read through the base offset. */
  lemma LastOfFull(P: Peer, n: nat)
    requires RepOK(P, n)
    ensures LastIndex(P) == |Full(P)| - 1
    ensures TermAt(P, LastIndex(P)) == Last(Full(P)).term
  {
    TermOfFull(P, LastIndex(P), n);
  }

  lemma TermOfFull(P: Peer, i: nat, n: nat)
    requires RepOK(P, n) && P.lastIncludedIndex <= i <= LastIndex(P)
    ensures i < |Full(P)| && TermAt(P, i) == Full(P)[i].term
  {
    if i > P.lastIncludedIndex {
      assert Full(P)[i] == P.logs[i - P.lastIncludedIndex];
    }
  }

  lemma StepDownOK(P: Peer, term: nat, p: nat, n: nat, h: History)
    requires PeerOK(P, p, n, h) && P.currentTerm < term
    ensures PeerOK(StepDown(P, term), p, n, h)
    ensures PeerStep(P, StepDown(P, term), h.leaders)
    ensures Full(StepDown(P, term)) == Full(P)
  {
    SameLogOK(P, StepDown(P, term), p, n, h);
  }

  lemma RevoteOK(P: Peer, candidate: nat, p: nat, n: nat, h: History)
    requires PeerOK(P, p, n, h)
    ensures PeerOK(Persist(P.(votedFor := candidate)), p, n, h)
    ensures Full(Persist(P.(votedFor := candidate))) == Full(P)
  {
    SameLogOK(P, Persist(P.(votedFor := candidate)), p, n, h);
  }

  lemma GrantedVote(P: Peer, a: VoteArgs)
    requires HandleVote(P, a).1.granted
    ensures var P' := HandleVote(P, a).0;
            && P'.currentTerm == a.term >= P.currentTerm && P'.votedFor == a.candidate && UpToDate(P, a)
            && (P.currentTerm == a.term ==> P.votedFor == NOBODY || P.votedFor == a.candidate)
  {
  }

  lemma HandleVoteOK(P: Peer, a: VoteArgs, p: nat, n: nat, h: History)
    requires PeerOK(P, p, n, h)
    ensures var r := HandleVote(P, a);
            PeerOK(r.0, p, n, h) && PeerStep(P, r.0, h.leaders) && SameLog(P, r.0)
  {
    var r := HandleVote(P, a);
    if a.term > P.currentTerm {
      var q := StepDown(P, a.term);
      StepDownOK(P, a.term, p, n, h);
      RevoteOK(q, a.candidate, p, n, h);
      assert r.0 == q || r.0 == Persist(q.(votedFor := a.candidate));
    } else if a.term == P.currentTerm {
      RevoteOK(P, a.candidate, p, n, h);
      assert r.0 == P || r.0 == Persist(P.(votedFor := a.candidate));
    }
    KeepsPrefix(Full(P), Full(r.0), r.0.currentTerm, h.leaders);
  }

  lemma NewGrantOK(s: Cluster, p: nat, m: Message, h': History)
    requires Inv(s) && p < |s.nodes| && m in s.net && m.VoteRequest? && m.to == p
    requires |s.nodes[p].peer.logs| > 0 && HandleVote(s.nodes[p].peer, m.vote).1.granted
    requires h' == s.history.(grants := h'.grants)
    ensures m.vote.candidate < |s.nodes| && m.vote.candidate != p
    ensures |s.nodes[m.vote.candidate].peer.logs| > 0
    ensures GrantOK(Grant(m.vote.term, p, m.vote.candidate, Full(s.nodes[p].peer), m.log),
                    HandleVote(s.nodes[p].peer, m.vote).0, s.nodes[m.vote.candidate].peer, h')
  {
    var P, h, n := s.nodes[p].peer, s.history, |s.nodes|;
    assert MessageOK(m, s) && NodeOK(s.nodes[p], p, n, h);
    GrantedVote(P, m.vote);
    LastOfFull(P, n);
    OwnAcksHeld(s, p, m.vote.term, m.vote.term);
    var g := Grant(m.vote.term, p, m.vote.candidate, Full(P), m.log);
    assert AcksHeld(h', g.voter, g.term, g.voterLog, g.term) by {
      assert AcksHeld(h, g.voter, g.term, g.voterLog, g.term);
    }
  }

  lemma OneMoreVote(s: Cluster, g: Grant, V': Peer)
    requires Inv(s) && g.voter < |s.nodes| && V'.currentTerm == g.term >= s.nodes[g.voter].peer.currentTerm
    requires s.nodes[g.voter].peer.currentTerm == g.term ==>
               s.nodes[g.voter].peer.votedFor == NOBODY || s.nodes[g.voter].peer.votedFor == g.candidate
    ensures OneVote(s.history.grants + {g})
  {
    forall w | w in s.history.grants && w.term == g.term && w.voter == g.voter ensures w.candidate == g.candidate {
      assert GrantIn(s, w);
    }
  }

  lemma VoteHistory(s: Cluster, h': History, p: nat, votes: set<Grant>, term: nat)
    requires Inv(s) && p < |s.nodes| && s.nodes[p].peer.currentTerm <= term
    requires h' == s.history.(grants := s.history.grants + votes)
    ensures HistoryStep(s.history, h', p, term) && HistoryOK(h', |s.nodes|)
  {
    HistoryAdvance(s, h', p, term);
  }

  /** A move that adds votes and messages. */
  lemma VoteMove(s: Cluster, s': Cluster, p: nat, votes: set<Grant>)
    requires Inv(s) && p < |s.nodes| == |s'.nodes| && s'.nodes == s.nodes[p := s'.nodes[p]]
    requires s'.history == s.history.(grants := s.history.grants + votes) && s'.delivered == s.delivered
    requires NodeOK(s'.nodes[p], p, |s.nodes|, s'.history)
    requires |s.nodes[p].peer.logs| > 0 && PeerStep(s.nodes[p].peer, s'.nodes[p].peer, s.history.leaders)
    requires OneVote(s'.history.grants)
    requires s.net <= s'.net
    requires NodesOK(s') ==> AcksOK(s') ==>
               NewGrantsOK(s, s') && forall m {:trigger MessageOK(m, s')} :: m in s'.net && m !in s.net ==> MessageOK(m, s')
    ensures Inv(s')
  {
    VoteHistory(s, s'.history, p, votes, s'.nodes[p].peer.currentTerm);
    assert Moves(s, s', p);
    assert NewOK(s, s', p);
    Advance(s, s', p);
  }

  lemma VotedNodeOK(node: Node, a: VoteArgs, p: nat, n: nat, h: History, h': History)
    requires NodeOK(node, p, n, h) && h' == h.(grants := h'.grants) && h.grants <= h'.grants
    ensures NodeOK(node.(peer := HandleVote(node.peer, a).0), p, n, h')
    ensures PeerStep(node.peer, HandleVote(node.peer, a).0, h.leaders)
  {
    HandleVoteOK(node.peer, a, p, n, h);
    assert PeerOK(HandleVote(node.peer, a).0, p, n, h');
    NodeKeeps(node, node.(peer := HandleVote(node.peer, a).0), p, n, h, h');
  }

  lemma GetVoteRequestKeepsInv(s: Cluster, p: nat, m: Message)
    requires Inv(s) && Ready(s, p) && m in s.net && m.VoteRequest? && m.to == p
    ensures Inv(DoGetVoteRequest(s, p, m))
  {
    var s', n, h := DoGetVoteRequest(s, p, m), |s.nodes|, s.history;
    var node, P := s.nodes[p], s.nodes[p].peer;
    var g := Grant(m.vote.term, p, m.vote.candidate, Full(P), m.log);
    assert NodeOK(node, p, n, h);
    VotedNodeOK(node, m.vote, p, n, h, s'.history);
    if HandleVote(P, m.vote).1.granted {
      GrantedVote(P, m.vote);
      NewGrantOK(s, p, m, s'.history);
      OneMoreVote(s, g, s'.nodes[p].peer);
      VoteMove(s, s', p, {g});
    } else {
      VoteMove(s, s', p, {});
    }
  }

  lemma OnVoteReplyOK(P: Peer, reply: VoteReply, p: nat, n: nat, h: History)
    requires PeerOK(P, p, n, h)
    ensures PeerOK(OnVoteReply(P, reply).0, p, n, h) && PeerStep(P, OnVoteReply(P, reply).0, h.leaders)
  {
    if reply.term > P.currentTerm {
      StepDownOK(P, reply.term, p, n, h);
    } else {
      StayPut(P, h.leaders);
    }
  }

  lemma TalliedNodeOK(node: Node, m: Message, p: nat, n: nat, h: History, node': Node)
    requires NodeOK(node, p, n, h) && m.VoteResponse? && m.vote.term in node.elections
    requires m.from < n && (m.voteReply.granted ==> Voted(h, m.vote.term, m.from, p))
    requires node'.peer == OnVoteReply(node.peer, m.voteReply).0
    requires node' == node.(peer := node'.peer, elections := node'.elections)
    requires node'.elections == node.elections ||
             (m.voteReply.granted &&
              node'.elections == node.elections[m.vote.term :=
                node.elections[m.vote.term].(granted := node.elections[m.vote.term].granted + {m.from})])
    ensures NodeOK(node', p, n, h) && PeerStep(node.peer, node'.peer, h.leaders)
  {
    OnVoteReplyOK(node.peer, m.voteReply, p, n, h);
    OfferedFrame(node.offered, node.peer.currentTerm, node'.peer.currentTerm, h, h);
    forall U | U in node'.elections ensures TallyOK(node'.elections[U], U, p, n, h) {
      assert TallyOK(node.elections[U], U, p, n, h);
    }
  }

  lemma GetVoteReplyKeepsInv(s: Cluster, p: nat, m: Message)
    requires Inv(s) && Ready(s, p) && m in s.net && m.VoteResponse?
    requires m.vote.candidate == p && m.vote.term in s.nodes[p].elections
    ensures Inv(DoGetVoteReply(s, p, m))
  {
    var s', n, h := DoGetVoteReply(s, p, m), |s.nodes|, s.history;
    assert NodeOK(s.nodes[p], p, n, h) && MessageOK(m, s);
    TalliedNodeOK(s.nodes[p], m, p, n, h, s'.nodes[p]);
    assert s'.net == s.net;
    QuietMove(s, s', p, s'.nodes[p]);
  }

  lemma CountKeepsInv(s: Cluster, p: nat, term: nat, voter: nat)
    requires Inv(s) && Ready(s, p) && term in s.nodes[p].elections && voter in s.nodes[p].elections[term].granted
    ensures Inv(DoCount(s, p, term, voter))
  {
    var s', n, h := DoCount(s, p, term, voter), |s.nodes|, s.history;
    var node := s.nodes[p];
    var tally := node.elections[term];
    var counted := tally.counted + {voter};
    assert NodeOK(node, p, n, h);
    if Wins(node, term, counted, n) && LastIndex(node.peer) >= 0 {
      WinKeepsInv(s, p, term, voter);
    } else {
      StayPut(node.peer, h.leaders);
      CountedOK(tally, term, p, n, h, voter, s'.nodes[p].elections[term]);
      assert s'.net == s.net;
      QuietMove(s, s', p, s'.nodes[p]);
    }
  }

  lemma CountedOK(tally: Tally, term: nat, p: nat, n: nat, h: History, voter: nat, tally': Tally)
    requires TallyOK(tally, term, p, n, h) && voter in tally.granted
    requires tally'.granted == tally.granted - {voter} && tally'.counted == tally.counted + {voter}
    ensures TallyOK(tally', term, p, n, h)
  {
    forall v | v in tally'.granted || v in tally'.counted ensures v < n && Voted(h, term, v, p) {
      assert v in tally.granted || v in tally.counted;
    }
  }

  /** Election safety, section 5.2 of the extended Raft paper: a majority that voted for p
      in U makes p the leader of U if U has one. */
  lemma SameWinner(s: Cluster, p: nat, U: nat, counted: set<nat>)
    requires Inv(s) && U in s.history.leaders && IsQuorum(counted, |s.nodes|)
    requires forall v :: v in counted ==> Voted(s.history, U, v, p)
    ensures s.history.leaders[U].who == p
  {
    var h, n := s.history, |s.nodes|;
    assert LeaderOK(h, U, n);
    var v := QuorumsMeet(counted, h.leaders[U].quorum, n);
    var g :| g in h.grants && g.term == U && g.voter == v && g.candidate == p;
    var w: Grant :| w.voter == v && WonBy(h, U, w);
  }

  lemma TermStillOpen(s: Cluster, p: nat, U: nat, counted: set<nat>)
    requires Inv(s) && p < |s.nodes| && IsQuorum(counted, |s.nodes|)
    requires forall v :: v in counted ==> Voted(s.history, U, v, p)
    requires s.nodes[p].peer.role.Candidate? && s.nodes[p].peer.currentTerm == U
    ensures U !in s.history.leaders
  {
    assert NodeOK(s.nodes[p], p, |s.nodes|, s.history);
    if U in s.history.leaders {
      SameWinner(s, p, U, counted);
    }
  }

  lemma WinnerGrant(s: Cluster, h': History, p: nat, U: nat, g: Grant)
    requires Inv(s) && p < |s.nodes| && g in s.history.grants && g.term == U && g.candidate == p
    requires s.nodes[p].peer.role.Candidate? && s.nodes[p].peer.currentTerm == U
    requires |s.nodes[p].peer.logs| > 0
    requires U !in s.history.leaders && HistoryStep(s.history, h', p, U) && h'.acks == s.history.acks
    requires U in h'.leaders && h'.leaders[U].who == p && h'.leaders[U].elected == Full(s.nodes[p].peer)
    requires AcksKnown(h')
    ensures WonBy(h', U, g)
  {
    var h, P := s.history, s.nodes[p].peer;
    assert GrantIn(s, g);
    ChainGrows(g.voterLog, h.leaders, h'.leaders);
    ChainGrows(g.candidateLog, h.leaders, h'.leaders);
    KeepsOpen(g.candidateLog, Full(P), U, h.leaders);
    KeepsGrows(g.candidateLog, Full(P), U - 1, h.leaders, h'.leaders);
    OpenTerms(g.candidateLog, U, h.leaders);
    forall a | a in h.acks && a.peer == g.voter && a.term < U ensures AckHeld(a, g.voterLog, U - 1, h.leaders) {
      assert AckHeld(a, g.voterLog, U, h.leaders);
      forall i: nat | i <= a.upto && Has(h.leaders[a.term].log, a.term, i)
        ensures Holds(g.voterLog, a.term, i, U - 1, h.leaders)
      {
        HoldsOpen(g.voterLog, a.term, i, U, h.leaders);
      }
    }
    assert AcksHeld(h, g.voter, U, g.voterLog, U - 1);
    AcksHeldFrame(g.voter, U, g.voterLog, U - 1, h, h', p, U);
  }

  /** A term without a leader refutes nothing and wrote nothing. */
  lemma HoldsOpen(L: Log, T: nat, i: nat, U: nat, ls: Leaders)
    requires U !in ls && Holds(L, T, i, U, ls)
    ensures Holds(L, T, i, U - 1, ls)
  {
    if !Has(L, T, i) {
      var W: nat :| T < W <= U && Lacks(ls, W, T, i);
      assert W <= U - 1;
    }
  }

  lemma KeepsOpen(C: Log, L: Log, U: nat, ls: Leaders)
    requires U !in ls && Keeps(C, L, U, ls)
    ensures Keeps(C, L, U - 1, ls)
  {
    forall T: nat, i: nat | T >= 1 && Has(C, T, i) ensures Holds(L, T, i, U - 1, ls) {
      HoldsOpen(L, T, i, U, ls);
    }
  }

  lemma OpenTerms(L: Log, U: nat, ls: Leaders)
    requires U !in ls && U > 0 && Chain(L, ls) && TermsBelow(L, U)
    ensures TermsBelow(L, U - 1)
  {
    forall k | 0 <= k < |L| ensures L[k].term <= U - 1 {
      if k > 0 {
        assert Linked(L, k, ls);
      }
    }
  }

  /** The history after p won U with its present log. */
  lemma WonHistory(s: Cluster, h': History, p: nat, U: nat, counted: set<nat>)
    requires Inv(s) && Ready(s, p) && IsQuorum(counted, |s.nodes|)
    requires forall v :: v in counted ==> Voted(s.history, U, v, p)
    requires s.nodes[p].peer.role.Candidate? && s.nodes[p].peer.currentTerm == U
    requires h' == s.history.(leaders := s.history.leaders[U :=
                     LeaderRec(p, Full(s.nodes[p].peer), Full(s.nodes[p].peer), counted)])
    ensures HistoryStep(s.history, h', p, U) && HistoryOK(h', |s.nodes|)
  {
    var h, P, n := s.history, s.nodes[p].peer, |s.nodes|;
    assert NodeOK(s.nodes[p], p, n, h);
    TermStillOpen(s, p, U, counted);
    OpenTerms(Full(P), U, h.leaders);
    assert HistoryStep(h, h', p, U);
    LeaderLogsNew(h.leaders, U, h'.leaders[U]);
    AcksGrow(h.acks, h.leaders, h'.leaders);
    forall v | v in counted ensures exists g: Grant :: g.voter == v && WonBy(h', U, g) {
      var g :| g in h.grants && g.term == U && g.voter == v && g.candidate == p;
      WinnerGrant(s, h', p, U, g);
    }
    assert LeaderOK(h', U, n);
    HistoryAdvance(s, h', p, U);
  }

  lemma WonNodeOK(node: Node, p: nat, n: nat, U: nat, voter: nat, h: History, h': History, node': Node)
    requires NodeOK(node, p, n, h) && U in node.elections && voter in node.elections[U].granted
    requires node'.offered == node.offered && node'.sending == node.sending
    requires node'.peer.currentTerm == node.peer.currentTerm && node'.peer.commitIndex == node.peer.commitIndex
    requires U in node'.elections && node'.elections == node.elections[U := node'.elections[U]]
    requires node'.elections[U].granted == node.elections[U].granted - {voter}
    requires node'.elections[U].counted == node.elections[U].counted + {voter}
    requires PeerOK(node'.peer, p, n, h') && h'.grants == h.grants && h'.commits == h.commits && Grows(h.leaders, h'.leaders)
    ensures NodeOK(node', p, n, h')
  {
    OfferedFrame(node.offered, node.peer.currentTerm, node.peer.currentTerm, h, h');
    forall T | T in node'.elections ensures TallyOK(node'.elections[T], T, p, n, h') {
      assert TallyOK(node.elections[T], T, p, n, h);
      if T == U {
        CountedOK(node.elections[U], U, p, n, h, voter, node'.elections[U]);
      }
      TallyFrame(node'.elections[T], T, p, n, h, h');
    }
  }

  lemma WinKeepsInv(s: Cluster, p: nat, U: nat, voter: nat)
    requires Inv(s) && Ready(s, p) && U in s.nodes[p].elections && voter in s.nodes[p].elections[U].granted
    requires Wins(s.nodes[p], U, s.nodes[p].elections[U].counted + {voter}, |s.nodes|) && LastIndex(s.nodes[p].peer) >= 0
    ensures Inv(DoCount(s, p, U, voter))
  {
    var s', n, h := DoCount(s, p, U, voter), |s.nodes|, s.history;
    var node, P, h' := s.nodes[p], s.nodes[p].peer, s'.history;
    var counted := node.elections[U].counted + {voter};
    assert NodeOK(node, p, n, h);
    CountedVoted(node.elections[U], U, p, n, h, voter);
    WonHistory(s, h', p, U, counted);
    PromotedOK(P, p, n, h, h');
    WonNodeOK(node, p, n, U, voter, h, h', s'.nodes[p]);
    assert Full(s'.nodes[p].peer) == Full(P);
    KeepsPrefix(Full(P), Full(P), U, h'.leaders);
    assert Moves(s, s', p);
    assert NewOK(s, s', p);
    Advance(s, s', p);
  }

  lemma CountedVoted(tally: Tally, U: nat, p: nat, n: nat, h: History, voter: nat)
    requires TallyOK(tally, U, p, n, h) && voter in tally.granted
    ensures forall v :: v in tally.counted + {voter} ==> v < n && Voted(h, U, v, p)
  {
    assert forall v :: v in tally.counted + {voter} ==> v in tally.granted || v in tally.counted;
  }

  lemma AcksGrow(acks: set<Ack>, ls: Leaders, ls': Leaders)
    requires Grows(ls, ls') && forall a :: a in acks ==> AckOK(a, ls)
    ensures forall a :: a in acks ==> AckOK(a, ls')
  {
    forall a | a in acks ensures AckOK(a, ls') {
      assert LeaderGrows(a.term, ls, ls');
    }
  }

  lemma LeaderLogsNew(ls: Leaders, U: nat, rec: LeaderRec)
    requires LeaderLogs(ls) && U !in ls && U > 0
    requires rec.elected == rec.log && Chain(rec.log, ls) && TermsBelow(rec.log, U - 1)
    ensures LeaderLogs(ls[U := rec])
  {
    var ls' := ls[U := rec];
    ChainGrows(rec.log, ls, ls');
    forall T | T in ls' ensures LeaderLog(T, ls') {
      if T != U {
        assert LeaderLog(T, ls);
        ChainGrows(ls[T].log, ls, ls');
      }
    }
  }

  lemma PromotedOK(P: Peer, p: nat, n: nat, h: History, h': History)
    requires PeerOK(P, p, n, h) && LastIndex(P) >= 0 && Grows(h.leaders, h'.leaders) && h.commits <= h'.commits
    requires P.currentTerm in h'.leaders && h'.leaders[P.currentTerm].who == p && h'.leaders[P.currentTerm].log == Full(P)
    ensures PeerOK(Promote(P, p, n), p, n, h')
  {
    var P' := Promote(P, p, n);
    assert Full(P') == Full(P);
    ChainGrows(Full(P), h.leaders, h'.leaders);
    CommittedGrows(Full(P)[..P.commitIndex + 1], P.currentTerm, P.currentTerm, h, h');
  }
}
