/**
 What each section of a peer does, said about whole logs: the rules of figure 2 of the
 extended Raft paper, for a log that is never compacted.  In every reachable state the
 peers, which hold a snapshot and the entries behind it, behave exactly so; where the base
 of the log shows (a request that reaches behind it), the rule says how.
 */
module RaftRules {
  import opened RaftPeer
  import opened RaftHistory
  import opened RaftCluster
  import opened RaftInvariant
  import opened RaftElections
  import opened RaftReplication
  import opened RaftSnapshots
  import opened RaftSafety

  ghost predicate EndsIn(run: seq<Cluster>, actions: seq<Action>, n: nat, s: Cluster) {
    IsRun(run, actions, n) && run[|actions|] == s
  }

  /** s is a state of some run of n peers. */
  ghost predicate Reachable(s: Cluster, n: nat) {
    exists run, actions :: EndsIn(run, actions, n, s)
  }

  lemma ReachableInv(s: Cluster, n: nat)
    requires Reachable(s, n)
    ensures Inv(s) && |s.nodes| == n
  {
    var run, actions :| EndsIn(run, actions, n, s);
    RunInv(run, actions, n, |actions|);
  }

  lemma ReachableNode(s: Cluster, n: nat, p: nat)
    requires Reachable(s, n) && p < |s.nodes|
    ensures Inv(s) && |s.nodes| == n && NodeOK(s.nodes[p], p, n, s.history)
    ensures LastIndex(s.nodes[p].peer) == |Full(s.nodes[p].peer)| - 1
  {
    ReachableInv(s, n);
    assert NodeOK(s.nodes[p], p, n, s.history);
    LastOfFull(s.nodes[p].peer, n);
  }

  lemma ReachStep(s: Cluster, n: nat, a: Action)
    requires Reachable(s, n) && Enabled(s, a)
    ensures Reachable(Do(s, a), n)
  {
    var run, actions :| EndsIn(run, actions, n, s);
    var run', actions' := run + [Do(s, a)], actions + [a];
    forall k | 0 <= k < |actions'| ensures StepAt(run', actions', k) {
      assert k < |actions| ==> StepAt(run, actions, k);
    }
    assert EndsIn(run', actions', n, Do(s, a));
  }

  // ----- Elections -------------------------------------------------------------------

  /** An election: the next term, a vote for oneself, and the whole log stays. */
  lemma TimeoutRule(s: Cluster, n: nat, p: nat)
    requires Reachable(s, n) && p < |s.nodes|
    ensures Enabled(s, Timeout(p))
    ensures var node, node' := s.nodes[p], Do(s, Timeout(p)).nodes[p];
            var P, P' := node.peer, node'.peer;
            && |P.logs| > 0 && |P'.logs| > 0 && Full(P') == Full(P)
            && P'.role.Candidate? && P'.currentTerm == P.currentTerm + 1 && P'.votedFor == p
            && P'.currentTerm in node'.elections && node'.elections[P'.currentTerm] == Tally({}, {p}, false)
  {
    ReachableNode(s, n, p);
    WellFormedNow(s, n);
  }

  lemma WellFormedNow(s: Cluster, n: nat)
    requires Reachable(s, n)
    ensures WellFormed(s)
  {
    ReachableInv(s, n);
    forall q | 0 <= q < |s.nodes|
      ensures |s.nodes[q].peer.logs| > 0 && |s.nodes[q].peer.nextIndex| == |s.nodes[q].peer.matchIndex| == |s.nodes|
    {
      assert NodeOK(s.nodes[q], q, n, s.history);
    }
  }

  /** A request for votes names the end of the whole log as it is now. */
  lemma AskVoteRule(s: Cluster, n: nat, p: nat, term: nat, to: nat)
    requires Reachable(s, n) && Enabled(s, AskVote(p, term, to))
    ensures var P := s.nodes[p].peer;
            && |P.logs| > 0
            && Do(s, AskVote(p, term, to)).net ==
               s.net + {VoteRequest(to, VoteArgs(term, p, |Full(P)| - 1, Last(Full(P)).term), Full(P))}
  {
    ReachableNode(s, n, p);
  }

  /** A vote is due for a request that is not of an earlier term, if there is no vote for
      another candidate in its term and the candidate's log is not behind: it ends in a later
      term, or in the same term and is no shorter. */
  ghost predicate Due(P: Peer, vote: VoteArgs, log: Log)
    requires |P.logs| > 0 && |log| > 0
  {
    var own := Full(P);
    && vote.term >= P.currentTerm
    && (vote.term == P.currentTerm ==> P.votedFor == NOBODY || P.votedFor == vote.candidate)
    && |own| > 0
    && (log[|log| - 1].term > own[|own| - 1].term || (log[|log| - 1].term == own[|own| - 1].term && |log| >= |own|))
  }

  /** The voter after the request. */
  ghost predicate VotedOn(P: Peer, P': Peer, vote: VoteArgs, log: Log)
    requires |P.logs| > 0 && |P'.logs| > 0 && |log| > 0
  {
    && Full(P') == Full(P) && P'.currentTerm == Max(P.currentTerm, vote.term)
    && P'.votedFor == (if Due(P, vote, log) then vote.candidate
                       else if vote.term > P.currentTerm then NOBODY else P.votedFor)
    && P'.role == (if vote.term > P.currentTerm then Follower else P.role)
  }

  lemma DueIff(P: Peer, vote: VoteArgs, log: Log, n: nat)
    requires RepOK(P, n) && |log| > 0 && vote.lastLogIndex == |log| - 1 && vote.lastLogTerm == log[|log| - 1].term
    ensures HandleVote(P, vote).1 == VoteReply(P.currentTerm, Due(P, vote, log))
  {
    LastOfFull(P, n);
    assert UpToDate(StepDown(P, vote.term), vote) == UpToDate(P, vote);
  }

  lemma VoteIs(P: Peer, vote: VoteArgs, log: Log, n: nat)
    requires RepOK(P, n) && |log| > 0 && vote.lastLogIndex == |log| - 1 && vote.lastLogTerm == log[|log| - 1].term
    ensures |HandleVote(P, vote).0.logs| > 0 && VotedOn(P, HandleVote(P, vote).0, vote, log)
  {
    DueIff(P, vote, log, n);
  }

  /** The vote rule: the reply grants the vote exactly if it is due. */
  lemma VoteRule(s: Cluster, n: nat, p: nat, m: Message)
    requires Reachable(s, n) && Enabled(s, GetVoteRequest(p, m))
    ensures var P, s' := s.nodes[p].peer, Do(s, GetVoteRequest(p, m));
            && |P.logs| > 0 && |m.log| > 0 && |s'.nodes[p].peer.logs| > 0
            && s'.net == s.net + {VoteResponse(p, m.vote, VoteReply(P.currentTerm, Due(P, m.vote, m.log)))}
            && VotedOn(P, s'.nodes[p].peer, m.vote, m.log)
  {
    ReachableNode(s, n, p);
    assert MessageOK(m, s);
    DueIff(s.nodes[p].peer, m.vote, m.log, n);
    VoteIs(s.nodes[p].peer, m.vote, m.log, n);
  }

  /** A log that extends the voter's is never the reason to refuse. */
  lemma LongerLogSuffices(s: Cluster, n: nat, p: nat, m: Message)
    requires Reachable(s, n) && Enabled(s, GetVoteRequest(p, m))
    requires |s.nodes[p].peer.logs| > 0 && Full(s.nodes[p].peer) <= m.log
    ensures |m.log| > 0
    ensures var P := s.nodes[p].peer;
            Due(P, m.vote, m.log) <==>
            && m.vote.term >= P.currentTerm
            && (m.vote.term == P.currentTerm ==> P.votedFor == NOBODY || P.votedFor == m.vote.candidate)
  {
    ReachableNode(s, n, p);
    RequestLog(s, m);
    ExtendingIsDue(s.nodes[p].peer, m.vote, m.log, s.history.leaders);
  }

  lemma RequestLog(s: Cluster, m: Message)
    requires Inv(s) && m in s.net && m.VoteRequest?
    ensures Chain(m.log, s.history.leaders) && LeaderLogs(s.history.leaders)
  {
    assert MessageOK(m, s);
  }

  lemma ExtendingIsDue(P: Peer, vote: VoteArgs, log: Log, ls: Leaders)
    requires |P.logs| > 0 && |Full(P)| > 0 && Full(P) <= log && Chain(log, ls) && LeaderLogs(ls)
    ensures Due(P, vote, log) <==>
            && vote.term >= P.currentTerm
            && (vote.term == P.currentTerm ==> P.votedFor == NOBODY || P.votedFor == vote.candidate)
  {
    var own := Full(P);
    assert own[|own| - 1] == log[|own| - 1];
    TermsRise(log, |own| - 1, |log| - 1, ls);
  }

  /** A reply from a later term ends the candidacy; else a granted vote is kept for counting
      while the peer is a candidate. */
  lemma VoteReplyRule(s: Cluster, n: nat, p: nat, m: Message)
    requires Reachable(s, n) && Enabled(s, GetVoteReply(p, m))
    ensures var node, node' := s.nodes[p], Do(s, GetVoteReply(p, m)).nodes[p];
            var P, P', T := node.peer, node'.peer, m.vote.term;
            && |P.logs| > 0 && |P'.logs| > 0 && Full(P') == Full(P)
            && (if m.voteReply.term > P.currentTerm then
                  P'.role.Follower? && P'.currentTerm == m.voteReply.term && P'.votedFor == NOBODY && node'.elections == node.elections
                else
                  && P' == P
                  && node'.elections == (if m.voteReply.granted && P.role.Candidate?
                       then node.elections[T := node.elections[T].(granted := node.elections[T].granted + {m.from})]
                       else node.elections))
  {
    ReachableNode(s, n, p);
  }

  /** A candidate leads once the votes counted in its term, its own with them, are a
      majority; it then expects every follower to lack nothing. */
  lemma CountRule(s: Cluster, n: nat, p: nat, term: nat, voter: nat)
    requires Reachable(s, n) && Enabled(s, Count(p, term, voter))
    ensures var node, node' := s.nodes[p], Do(s, Count(p, term, voter)).nodes[p];
            var P, P', tally := node.peer, node'.peer, node.elections[term];
            && |P.logs| > 0 && |P'.logs| > 0 && Full(P') == Full(P) && P'.currentTerm == P.currentTerm && P'.votedFor == P.votedFor
            && (if P.role.Candidate? && P.currentTerm == term && !tally.finished && 2 * |tally.counted + {voter}| > n then
                  && P'.role.Leader? && |P'.nextIndex| == |P'.matchIndex| == n
                  && (forall q :: 0 <= q < n ==> P'.nextIndex[q] == |Full(P)|)
                  && (forall q :: 0 <= q < n ==> P'.matchIndex[q] == if q == p then |Full(P)| - 1 else P.lastIncludedIndex)
                else P' == P)
            && node'.elections == node.elections[term :=
                 Tally(tally.granted - {voter}, tally.counted + {voter}, tally.finished || 2 * |tally.counted + {voter}| > n)]
  {
    ReachableNode(s, n, p);
  }

  // ----- Replication -----------------------------------------------------------------

  /** A leader's command goes to the end of its log; another peer takes none. */
  lemma StartRule(s: Cluster, n: nat, p: nat, command: Command)
    requires Reachable(s, n) && Enabled(s, ClientStart(p, command))
    ensures var P, P' := s.nodes[p].peer, Do(s, ClientStart(p, command)).nodes[p].peer;
            && |P.logs| > 0 && |P'.logs| > 0 && P'.currentTerm == P.currentTerm && P'.commitIndex == P.commitIndex
            && Full(P') == Full(P) + (if P.role.Leader? then [Entry(command, P.currentTerm)] else [])
            && P'.role == P.role && P'.nextIndex == P.nextIndex && P'.matchIndex == P.matchIndex
  {
    ReachableNode(s, n, p);
    var P := s.nodes[p].peer;
    assert Full(P) + [] == Full(P);
    if P.role.Leader? {
      StartRep(P, command, n);
    }
  }

  /** What a leader has to send to a follower. */
  ghost function ToSend(P: Peer, p: nat, to: nat): Message
    requires |P.logs| > 0 && to < |P.nextIndex| && P.lastIncludedIndex < |Full(P)| && P.commitIndex < |Full(P)|
    requires P.nextIndex[to] <= |Full(P)|
  {
    var L, next := Full(P), P.nextIndex[to];
    if next <= P.lastIncludedIndex then
      SnapshotRequest(to, SnapshotArgs(P.currentTerm, p, P.lastIncludedIndex, L[P.lastIncludedIndex].term, P.storage.snapshot))
    else
      AppendRequest(to, AppendArgs(P.currentTerm, p, next - 1, L[next - 1].term, L[next..], P.commitIndex, L[P.commitIndex].term))
  }

  lemma SendTerms(P: Peer, n: nat)
    requires RepOK(P, n) && OffsetsOK(P)
    ensures P.lastIncludedIndex <= P.commitIndex < |Full(P)| == LastIndex(P) + 1
    ensures Full(P)[P.lastIncludedIndex].term == P.lastIncludedTerm && Full(P)[P.commitIndex].term == TermAt(P, P.commitIndex)
  {
    LastOfFull(P, n);
    TermOfFull(P, P.lastIncludedIndex, n);
    TermOfFull(P, P.commitIndex, n);
  }

  /** The message that carries a request. */
  function Carry(to: nat, r: Request): Message {
    match r
    case SendEntries(append) => AppendRequest(to, append)
    case SendSnapshot(snapshot) => SnapshotRequest(to, snapshot)
  }

  /** The request in terms of the whole log L. */
  lemma RequestIs(P: Peer, p: nat, to: nat, L: Log)
    requires to < |P.nextIndex| && P.lastIncludedIndex < |L| && P.commitIndex < |L|
    requires L[P.lastIncludedIndex].term == P.lastIncludedTerm && L[P.commitIndex].term == TermAt(P, P.commitIndex)
    requires var next := P.nextIndex[to];
             next > P.lastIncludedIndex ==>
               && 0 < next <= |L| && TermAt(P, next - 1) == L[next - 1].term
               && (if next - P.lastIncludedIndex < |P.logs| then P.logs[next - P.lastIncludedIndex..] else []) == L[next..]
    ensures var next := P.nextIndex[to];
            MakeRequest(P, p, to) ==
            if next <= P.lastIncludedIndex then
              SendSnapshot(SnapshotArgs(P.currentTerm, p, P.lastIncludedIndex, L[P.lastIncludedIndex].term, P.storage.snapshot))
            else
              SendEntries(AppendArgs(P.currentTerm, p, next - 1, L[next - 1].term, L[next..], P.commitIndex, L[P.commitIndex].term))
  {
  }

  lemma SendIs(P: Peer, p: nat, to: nat, n: nat)
    requires RepOK(P, n) && OffsetsOK(P) && to < n && P.nextIndex[to] <= LastIndex(P) + 1
    ensures P.lastIncludedIndex < |Full(P)| && P.commitIndex < |Full(P)| && P.nextIndex[to] <= |Full(P)|
    ensures ToSend(P, p, to) == Carry(to, MakeRequest(P, p, to))
  {
    SendTerms(P, n);
    if P.nextIndex[to] > P.lastIncludedIndex {
      SendsEntries(P, P.nextIndex[to], n);
    }
    RequestIs(P, p, to, Full(P));
  }

  lemma SendsEntries(P: Peer, next: nat, n: nat)
    requires RepOK(P, n) && P.lastIncludedIndex < next <= LastIndex(P) + 1
    ensures 0 < next <= |Full(P)| && TermAt(P, next - 1) == Full(P)[next - 1].term
    ensures var start := next - P.lastIncludedIndex; (if start < |P.logs| then P.logs[start..] else []) == Full(P)[next..]
  {
    TermOfFull(P, next - 1, n);
    EntriesOfFull(P, next, n);
  }

  /** A leader sends all its entries from the next index on, with the entry before them and
      its commit index; a follower whose next index is in the snapshot gets the snapshot. */
  lemma ReplicateRule(s: Cluster, n: nat, p: nat, to: nat)
    requires Reachable(s, n) && Enabled(s, Replicate(p, to))
    ensures var P, s' := s.nodes[p].peer, Do(s, Replicate(p, to));
            && P.lastIncludedIndex < |Full(P)| && P.commitIndex < |Full(P)| && P.nextIndex[to] <= |Full(P)|
            && s'.nodes == s.nodes && s'.net == s.net + {ToSend(P, p, to)}
            && (P.lastIncludedIndex > 0 ==> P.storage.snapshot == Full(P)[..P.lastIncludedIndex + 1])
  {
    ReachableNode(s, n, p);
    SendIs(s.nodes[p].peer, p, to, n);
  }

  /** The request is not of an earlier term and the log has the entry before its entries, at
      the base or behind it. */
  ghost predicate Fits(P: Peer, a: AppendArgs)
    requires |P.logs| > 0
  {
    && a.term >= P.currentTerm && P.lastIncludedIndex <= a.prevLogIndex < |Full(P)|
    && Full(P)[a.prevLogIndex].term == a.prevLogTerm
  }

  lemma FitsIff(P: Peer, a: AppendArgs, n: nat)
    requires RepOK(P, n)
    ensures Fits(P, a) <==> a.term >= P.currentTerm && PrevMatches(P, a)
    ensures Fits(P, a) ==> PrevMatches(Settled(P, a.term), a) && a.prevLogIndex <= LastIndex(P)
  {
    LastOfFull(P, n);
    if P.lastIncludedIndex <= a.prevLogIndex < |Full(P)| {
      TermOfFull(P, a.prevLogIndex, n);
    }
  }

  /** The log F once it has the entries from `start` on: unchanged if they are all there, else
      the part before them and the entries, and nothing behind them. */
  function Joined(F: Log, start: nat, entries: Log): Log
    requires start <= |F|
  {
    if F[..start] + entries <= F then F else F[..start] + entries
  }

  lemma {:induction false} SpliceIsJoined(F: Log, G: Log, start: nat, entries: Log, ls: Leaders)
    requires Chain(F, ls) && Chain(G, ls) && 0 < start <= |F| && start + |entries| <= |G|
    requires F[..start] == G[..start] && entries == G[start..start + |entries|]
    ensures Splice(F, 0, start, entries) == Joined(F, start, entries)
    decreases |entries|
  {
    var shared := F[..start] + entries;
    if entries == [] {
      assert shared == F[..start];
    } else if start == |F| {
      assert F[..start] == F;
    } else if F[start].term != entries[0].term {
      assert shared[start] == entries[0];
    } else {
      assert G[start] == entries[0];
      Matching(F, G, start, ls);
      assert F[..start + 1] == F[..start] + [F[start]] && F[start] == entries[0];
      assert entries == [entries[0]] + entries[1..];
      assert F[..start + 1] + entries[1..] == shared;
      SpliceIsJoined(F, G, start + 1, entries[1..], ls);
    }
  }

  lemma SharedWithLeader(P: Peer, a: AppendArgs, p: nat, n: nat, h: History)
    requires HistoryOK(h, n) && PeerOK(P, p, n, h) && AppendOK(a, h) && Fits(P, a)
    ensures Chain(h.leaders[a.term].log, h.leaders) && a.prevLogIndex < |h.leaders[a.term].log|
    ensures Full(P)[..a.prevLogIndex + 1] == h.leaders[a.term].log[..a.prevLogIndex + 1]
  {
    assert LeaderLog(a.term, h.leaders);
    Matching(Full(P), h.leaders[a.term].log, a.prevLogIndex, h.leaders);
  }

  lemma AppendedLog(P: Peer, a: AppendArgs, n: nat)
    requires RepOK(P, n) && Fits(P, a)
    ensures var P' := HandleAppend(P, a).0;
            && |P'.logs| > 0 && a.prevLogIndex + 1 <= |Full(P)|
            && Full(P') == Splice(Full(P), 0, a.prevLogIndex + 1, a.entries)
  {
    FitsIff(P, a, n);
    AppendLog(P, a, n);
    Accepted(P, a, n);
  }

  lemma Accepted(P: Peer, a: AppendArgs, n: nat)
    requires RepOK(P, n) && Fits(P, a)
    ensures HandleAppend(P, a).1 == AppendReply(P.currentTerm, true)
  {
    FitsIff(P, a, n);
  }

  lemma TakenLog(P: Peer, a: AppendArgs, p: nat, n: nat, h: History)
    requires HistoryOK(h, n) && PeerOK(P, p, n, h) && AppendOK(a, h) && Fits(P, a)
    ensures |HandleAppend(P, a).0.logs| > 0 && a.prevLogIndex < |Full(P)|
    ensures Full(HandleAppend(P, a).0) == Joined(Full(P), a.prevLogIndex + 1, a.entries)
  {
    AppendedLog(P, a, n);
    SharedWithLeader(P, a, p, n, h);
    SpliceIsJoined(Full(P), h.leaders[a.term].log, a.prevLogIndex + 1, a.entries, h.leaders);
  }

  lemma NotFitting(P: Peer, a: AppendArgs, n: nat)
    requires RepOK(P, n) && !Fits(P, a)
    ensures var r := HandleAppend(P, a);
            && |r.0.logs| > 0 && Full(r.0) == Full(P) && r.0.commitIndex == P.commitIndex
            && r.1 == AppendReply(P.currentTerm, false)
  {
    FitsIff(P, a, n);
  }

  /** The commit index after a request that fits.  One with entries moves it as far as the
      leader's and the entries go; one without does so only if the term there is the term at
      the leader's commit index. */
  ghost function Commits(P: Peer, a: AppendArgs): nat
    requires |P.logs| > 0 && Fits(P, a)
  {
    var to := Min(a.leaderCommit, a.prevLogIndex + |a.entries|);
    if to <= P.commitIndex then P.commitIndex
    else if a.entries == [] && (to >= |Full(P)| || Full(P)[to].term != a.leaderCommitTerm) then P.commitIndex
    else to
  }

  lemma BeatCommits(P: Peer, a: AppendArgs, n: nat)
    requires RepOK(P, n) && OffsetsOK(P) && Fits(P, a) && a.entries == []
    ensures HandleAppend(P, a).0.commitIndex == Commits(P, a)
  {
    FitsIff(P, a, n);
    var to := Min(a.leaderCommit, a.prevLogIndex);
    if to > P.commitIndex {
      TermOfFull(P, to, n);
      assert TermAt(Settled(P, a.term), to) == TermAt(P, to);
    }
  }

  lemma EntriesCommit(P: Peer, a: AppendArgs, n: nat)
    requires RepOK(P, n) && Fits(P, a) && a.entries != []
    ensures HandleAppend(P, a).0.commitIndex == Commits(P, a)
  {
    FitsIff(P, a, n);
  }

  lemma FittingCommits(P: Peer, a: AppendArgs, n: nat)
    requires RepOK(P, n) && OffsetsOK(P) && Fits(P, a)
    ensures HandleAppend(P, a).0.commitIndex == Commits(P, a) && HandleAppend(P, a).1 == AppendReply(P.currentTerm, true)
  {
    Accepted(P, a, n);
    if a.entries == [] {
      BeatCommits(P, a, n);
    } else {
      EntriesCommit(P, a, n);
    }
  }

  lemma AppendRole(P: Peer, a: AppendArgs)
    requires |P.logs| > 0
    ensures var P' := HandleAppend(P, a).0;
            && P'.currentTerm == Max(P.currentTerm, a.term)
            && P'.role == (if a.term >= P.currentTerm then Follower else P.role)
            && P'.votedFor == (if a.term > P.currentTerm then NOBODY else P.votedFor)
            && P'.lastApplied == P.lastApplied && P'.lastIncludedIndex == P.lastIncludedIndex
  {
  }

  /** The follower after the request: the log takes the entries of one that fits, and the
      commit index moves; an earlier leader changes nothing. */
  ghost predicate AppendedTo(P: Peer, P': Peer, a: AppendArgs)
    requires |P.logs| > 0 && |P'.logs| > 0
  {
    && Full(P') == (if Fits(P, a) then Joined(Full(P), a.prevLogIndex + 1, a.entries) else Full(P))
    && P'.commitIndex == (if Fits(P, a) then Commits(P, a) else P.commitIndex)
    && P'.currentTerm == Max(P.currentTerm, a.term)
    && P'.role == (if a.term >= P.currentTerm then Follower else P.role)
    && P'.votedFor == (if a.term > P.currentTerm then NOBODY else P.votedFor)
    && P'.lastApplied == P.lastApplied && P'.lastIncludedIndex == P.lastIncludedIndex
  }

  lemma AppendIs(P: Peer, a: AppendArgs, p: nat, n: nat, h: History)
    requires HistoryOK(h, n) && PeerOK(P, p, n, h) && AppendOK(a, h)
    ensures var r := HandleAppend(P, a);
            |r.0.logs| > 0 && AppendedTo(P, r.0, a) && r.1 == AppendReply(P.currentTerm, Fits(P, a))
  {
    AppendRole(P, a);
    if Fits(P, a) {
      TakenLog(P, a, p, n, h);
      FittingCommits(P, a, n);
    } else {
      NotFitting(P, a, n);
    }
  }

  /** The append rule: the request is accepted exactly if it fits. */
  lemma AppendRule(s: Cluster, n: nat, p: nat, m: Message)
    requires Reachable(s, n) && Enabled(s, GetAppend(p, m))
    ensures var P, s' := s.nodes[p].peer, Do(s, GetAppend(p, m));
            && |P.logs| > 0 && |s'.nodes[p].peer.logs| > 0
            && s'.net == s.net + {AppendResponse(p, m.append, AppendReply(P.currentTerm, Fits(P, m.append)))}
            && AppendedTo(P, s'.nodes[p].peer, m.append)
  {
    ReachableNode(s, n, p);
    assert MessageOK(m, s);
    AppendIs(s.nodes[p].peer, m.append, p, n, s.history);
  }

  /** Position N is of the leader's term and held by a majority, the leader with it. */
  ghost predicate Carried(P: Peer, p: nat, N: nat, n: nat)
    requires |P.logs| > 0
  {
    && N < |Full(P)| && Full(P)[N].term == P.currentTerm
    && 2 * (|set q | 0 <= q < |P.matchIndex| && q != p && P.matchIndex[q] >= N| + 1) > n
  }

  lemma CarriedIff(P: Peer, p: nat, N: nat, n: nat)
    requires RepOK(P, n) && P.lastIncludedIndex <= N <= LastIndex(P)
    ensures Carried(P, p, N, n) <==> Committable(P, p, N)
  {
    TermOfFull(P, N, n);
    assert Replicas(P, p, N) == set q | 0 <= q < |P.matchIndex| && q != p && P.matchIndex[q] >= N;
  }

  /** c is the last position that may be committed, or else the commit index as it was. */
  ghost predicate LastCarried(P: Peer, p: nat, c: nat, n: nat)
    requires |P.logs| > 0
  {
    && c >= P.commitIndex && (c > P.commitIndex ==> Carried(P, p, c, n))
    && forall N: nat :: c < N < |Full(P)| ==> !Carried(P, p, N, n)
  }

  lemma AdvanceIsLast(P: Peer, p: nat, n: nat)
    requires RepOK(P, n) && OffsetsOK(P) && P.role.Leader?
    ensures LastCarried(P, p, AdvanceCommit(P, p).commitIndex, n)
    ensures AdvanceCommit(P, p) == P.(commitIndex := AdvanceCommit(P, p).commitIndex)
  {
    LastOfFull(P, n);
    var c := AdvanceCommit(P, p).commitIndex;
    if c > P.commitIndex {
      CarriedIff(P, p, c, n);
    }
    forall N: nat | c < N < |Full(P)| ensures !Carried(P, p, N, n) {
      CarriedIff(P, p, N, n);
    }
  }

  /** What a follower's answer makes of the leader. */
  ghost predicate Answered(P: Peer, P': Peer, p: nat, q: nat, a: AppendArgs, reply: AppendReply, n: nat)
    requires |P.logs| > 0 && |P'.logs| > 0 && q < |P.matchIndex| == |P.nextIndex|
  {
    if reply.term > P.currentTerm then
      P'.role.Follower? && P'.currentTerm == reply.term && P'.votedFor == NOBODY && P'.commitIndex == P.commitIndex
    else if !P.role.Leader? || a.term != P.currentTerm then P' == P
    else if reply.success then
      var held := a.prevLogIndex + |a.entries|;
      && P'.matchIndex == P.matchIndex[q := Max(P.matchIndex[q], held)]
      && P'.nextIndex == P.nextIndex[q := Max(P.nextIndex[q], held + 1)]
      && P' == P.(matchIndex := P'.matchIndex, nextIndex := P'.nextIndex, commitIndex := P'.commitIndex)
      && LastCarried(P'.(commitIndex := P.commitIndex), p, P'.commitIndex, n)
    else
      P' == P.(nextIndex := P.nextIndex[q := if P.nextIndex[q] > P.lastIncludedIndex then P.nextIndex[q] - 1 else P.nextIndex[q]])
  }

  lemma AnswerIs(P: Peer, p: nat, q: nat, a: AppendArgs, reply: AppendReply, n: nat)
    requires RepOK(P, n) && OffsetsOK(P) && q < n
    ensures var P' := OnAppendReply(P, p, q, a, reply); |P'.logs| > 0 && Full(P') == Full(P) && Answered(P, P', p, q, a, reply, n)
  {
    if reply.term <= P.currentTerm && P.role.Leader? && a.term == P.currentTerm {
      if reply.success {
        AdvanceIsLast(NoteMatch(P, q, a.prevLogIndex + |a.entries|), p, n);
      } else {
        assert P.nextIndex[q := P.nextIndex[q]] == P.nextIndex;
      }
    }
  }

  /** A follower's answer: a later term ends the leadership; an acceptance raises what the
      follower is known to hold and commits all that a majority holds; a refusal moves the
      next index back by one, down to the base; an answer to an earlier term is ignored. */
  lemma AppendReplyRule(s: Cluster, n: nat, p: nat, m: Message)
    requires Reachable(s, n) && Enabled(s, GetAppendReply(p, m))
    ensures var P, P' := s.nodes[p].peer, Do(s, GetAppendReply(p, m)).nodes[p].peer;
            && |P.logs| > 0 && |P'.logs| > 0 && Full(P') == Full(P) && m.from < |P.matchIndex| == |P.nextIndex|
            && Answered(P, P', p, m.from, m.append, m.appendReply, n)
  {
    ReachableNode(s, n, p);
    AnswerIs(s.nodes[p].peer, p, m.from, m.append, m.appendReply, n);
    assert Do(s, GetAppendReply(p, m)).nodes[p].peer == OnAppendReply(s.nodes[p].peer, p, m.from, m.append, m.appendReply);
  }

  // ----- Snapshots -------------------------------------------------------------------

  /** A snapshot goes to the service if its leader is not of an earlier term and it reaches
      beyond the base. */
  lemma SnapshotRule(s: Cluster, n: nat, p: nat, m: Message)
    requires Reachable(s, n) && Enabled(s, GetSnapshot(p, m))
    ensures var node, node', a := s.nodes[p], Do(s, GetSnapshot(p, m)).nodes[p], m.snapshot;
            var P, P', offer := node.peer, node'.peer, a.term >= node.peer.currentTerm && a.lastIncludedIndex > node.peer.lastIncludedIndex;
            && |P.logs| > 0 && |P'.logs| > 0 && Full(P') == Full(P) && P'.commitIndex == P.commitIndex
            && node'.offered == node.offered + (if offer then {a} else {})
            && P'.snapshotInFlight == (P.snapshotInFlight || offer)
            && P'.currentTerm == Max(P.currentTerm, a.term) && P'.role == (if a.term > P.currentTerm then Follower else P.role)
            && SnapshotResponse(p, a, P.currentTerm) in Do(s, GetSnapshot(p, m)).net
            && P'.lastIncludedIndex == P.lastIncludedIndex && P'.lastApplied == P.lastApplied
  {
    ReachableNode(s, n, p);
    assert s.nodes[p].offered + {} == s.nodes[p].offered;
  }

  /** The leader takes the follower to hold its own base from then on, whatever happened. */
  lemma SnapshotReplyRule(s: Cluster, n: nat, p: nat, m: Message)
    requires Reachable(s, n) && Enabled(s, GetSnapshotReply(p, m))
    ensures var P, P' := s.nodes[p].peer, Do(s, GetSnapshotReply(p, m)).nodes[p].peer;
            && m.from < |P.matchIndex| == |P.nextIndex|
            && (if m.term > P.currentTerm then
                  P'.role.Follower? && P'.currentTerm == m.term && P'.votedFor == NOBODY && P'.logs == P.logs
                else P' == P.(matchIndex := P.matchIndex[m.from := P.lastIncludedIndex],
                              nextIndex := P.nextIndex[m.from := P.lastIncludedIndex + 1]))
  {
    ReachableNode(s, n, p);
  }

  /** The peer after the service has asked for a snapshot to be installed. */
  ghost predicate Installed(P: Peer, P': Peer, a: SnapshotArgs)
    requires |P.logs| > 0 && |P'.logs| > 0
  {
    if a.lastIncludedIndex <= P.lastIncludedIndex then P' == P
    else
      && Full(P') == (if Has(Full(P), a.lastIncludedTerm, a.lastIncludedIndex) then Full(P) else a.data)
      && P'.lastIncludedIndex == a.lastIncludedIndex && P'.lastIncludedTerm == a.lastIncludedTerm
      && P'.commitIndex == Max(P.commitIndex, a.lastIncludedIndex)
      && P'.lastApplied == Max(P.lastApplied, a.lastIncludedIndex)
      && P'.storage.snapshot == a.data && P'.role == P.role
      && P'.snapshotInFlight == P.snapshotInFlight && P'.applying == P.applying
      && P'.currentTerm == P.currentTerm && P'.votedFor == P.votedFor
  }

  lemma InstalledBase(P: Peer, a: SnapshotArgs, local: nat)
    requires local == a.lastIncludedIndex - P.lastIncludedIndex > 0
    ensures CondInstall(P, a.lastIncludedTerm, a.lastIncludedIndex, a.data).0 ==
            Rebase(P, a.lastIncludedIndex, a.lastIncludedTerm,
                   if local < |P.logs| && P.logs[local].term == a.lastIncludedTerm then P.logs[local + 1..] else [], a.data)
  {
  }

  lemma InstalledLog(P: Peer, a: SnapshotArgs, p: nat, n: nat, h: History)
    requires HistoryOK(h, n) && PeerOK(P, p, n, h) && SnapOK(a, P.currentTerm, h) && a.lastIncludedIndex > P.lastIncludedIndex
    ensures var P' := CondInstall(P, a.lastIncludedTerm, a.lastIncludedIndex, a.data).0;
            && |P'.logs| > 0
            && Full(P') == if Has(Full(P), a.lastIncludedTerm, a.lastIncludedIndex) then Full(P) else a.data
  {
    var index, term := a.lastIncludedIndex, a.lastIncludedTerm;
    var local := index - P.lastIncludedIndex;
    HasLocal(P, local, term, n);
    InstalledBase(P, a, local);
    if Has(Full(P), term, index) {
      InstallContained(P, index, term, a.data, local, p, n, h);
    } else {
      RebaseRep(P, index, term, [], a.data, n);
      assert a.data + [] == a.data;
    }
  }

  lemma InstalledFields(P: Peer, a: SnapshotArgs)
    requires |P.logs| > 0 && a.lastIncludedIndex > P.lastIncludedIndex
    ensures var P' := CondInstall(P, a.lastIncludedTerm, a.lastIncludedIndex, a.data).0;
            && |P'.logs| > 0 && P'.lastIncludedIndex == a.lastIncludedIndex && P'.lastIncludedTerm == a.lastIncludedTerm
            && P'.commitIndex == Max(P.commitIndex, a.lastIncludedIndex)
            && P'.lastApplied == Max(P.lastApplied, a.lastIncludedIndex)
            && P'.storage.snapshot == a.data && P'.role == P.role
            && P'.snapshotInFlight == P.snapshotInFlight && P'.applying == P.applying
            && P'.currentTerm == P.currentTerm && P'.votedFor == P.votedFor
  {
  }

  /** A snapshot beyond the base is installed: the log stays as it is if it has the
      snapshot's last entry, else it becomes the snapshot. */
  lemma InstallRule(s: Cluster, n: nat, p: nat, a: SnapshotArgs)
    requires Reachable(s, n) && Enabled(s, Install(p, a))
    ensures var P, P' := s.nodes[p].peer, Do(s, Install(p, a)).nodes[p].peer;
            |P.logs| > 0 && |P'.logs| > 0 && Installed(P, P', a)
  {
    ReachableNode(s, n, p);
    var P := s.nodes[p].peer;
    assert SnapOK(a, P.currentTerm, s.history);
    if a.lastIncludedIndex > P.lastIncludedIndex {
      InstalledLog(P, a, p, n, s.history);
      InstalledFields(P, a);
    }
  }

  /** A service's own snapshot moves the base to a committed position; the whole log stays. */
  lemma TrimRule(s: Cluster, n: nat, p: nat, index: nat)
    requires Reachable(s, n) && Enabled(s, Trim(p, index))
    ensures var P, P' := s.nodes[p].peer, Do(s, Trim(p, index)).nodes[p].peer;
            && |P.logs| > 0 && |P'.logs| > 0 && Full(P') == Full(P) && P'.commitIndex == P.commitIndex
            && (if P.lastIncludedIndex < index <= P.commitIndex then
                  && P'.lastIncludedIndex == index && P'.lastApplied == Max(P.lastApplied, index)
                  && P'.storage.snapshot == Full(P)[..index + 1]
                else P' == P)
  {
    ReachableNode(s, n, p);
    var P := s.nodes[p].peer;
    TrimOK(P, index, p, n, s.history);
    if P.lastIncludedIndex < index <= P.commitIndex {
      TrimPrefix(P, index, n, s.history);
    }
  }

  // ----- Application and restart -----------------------------------------------------

  /** A batch can start exactly if none is being sent, no snapshot is on its way to the
      service and something committed is not applied; it is everything committed. */
  lemma ApplyRule(s: Cluster, n: nat, p: nat)
    requires Reachable(s, n) && p < |s.nodes|
    ensures var P := s.nodes[p].peer;
            && |P.logs| > 0 && P.commitIndex < |Full(P)|
            && (Enabled(s, BeginApply(p)) <==> !P.applying && !P.snapshotInFlight && P.lastApplied < P.commitIndex)
            && (Enabled(s, BeginApply(p)) ==>
                  var s' := Do(s, BeginApply(p));
                  && s'.nodes[p].sending == Some(P.commitIndex) && s'.nodes[p].peer == P.(applying := true)
                  && s'.delivered == s.delivered + (set i | P.lastApplied < i <= P.commitIndex ::
                                       Delivery(p, ApplyMsg(i, Full(P)[i].command, Full(P)[i].term))))
  {
    ReachableNode(s, n, p);
    WellFormedNow(s, n);
    var P := s.nodes[p].peer;
    if Enabled(s, BeginApply(p)) {
      BatchAll(P, p, n, s.history);
    }
  }

  lemma BatchAll(P: Peer, p: nat, n: nat, h: History)
    requires PeerOK(P, p, n, h) && CanApply(P)
    ensures BatchEnd(P) == P.commitIndex < |Full(P)|
    ensures (set k | 0 <= k < |Batch(P)| :: Delivery(p, Batch(P)[k])) ==
            set i | P.lastApplied < i <= P.commitIndex :: Delivery(p, ApplyMsg(i, Full(P)[i].command, Full(P)[i].term))
  {
    LastOfFull(P, n);
    var A := set k | 0 <= k < |Batch(P)| :: Delivery(p, Batch(P)[k]);
    var B := set i | P.lastApplied < i <= P.commitIndex :: Delivery(p, ApplyMsg(i, Full(P)[i].command, Full(P)[i].term));
    forall k | 0 <= k < |Batch(P)|
      ensures Batch(P)[k].index == P.lastApplied + 1 + k <= P.commitIndex
      ensures Batch(P)[k] == ApplyMsg(P.lastApplied + 1 + k, Full(P)[P.lastApplied + 1 + k].command, Full(P)[P.lastApplied + 1 + k].term)
    {
      BatchCommitted(P, k, p, n, h);
    }
    forall d | d in B ensures d in A {
      var i :| P.lastApplied < i <= P.commitIndex && d == Delivery(p, ApplyMsg(i, Full(P)[i].command, Full(P)[i].term));
      assert d == Delivery(p, Batch(P)[i - P.lastApplied - 1]);
    }
  }

  /** After the batch the applied index is its end, unless a snapshot came in between. */
  lemma EndApplyRule(s: Cluster, n: nat, p: nat)
    requires Reachable(s, n) && Enabled(s, EndApply(p))
    ensures var node, node' := s.nodes[p], Do(s, EndApply(p)).nodes[p];
            && node'.sending == None
            && node'.peer == node.peer.(applying := false, lastApplied :=
                 if node.peer.snapshotInFlight then node.peer.lastApplied else Max(node.peer.lastApplied, node.sending.value))
  {
  }

  /** A restart keeps term, vote, base and the whole log, and forgets the rest. */
  lemma RestartRule(s: Cluster, n: nat, p: nat)
    requires Reachable(s, n) && p < |s.nodes|
    ensures Enabled(s, Restart(p))
    ensures var P, P' := s.nodes[p].peer, Do(s, Restart(p)).nodes[p].peer;
            && |P.logs| > 0 && |P'.logs| > 0 && Full(P') == Full(P)
            && P'.currentTerm == P.currentTerm && P'.votedFor == P.votedFor && P'.role.Follower?
            && P'.lastIncludedIndex == P'.commitIndex == P'.lastApplied == P.lastIncludedIndex
            && !P'.applying && !P'.snapshotInFlight && P'.storage == P.storage
  {
    ReachableNode(s, n, p);
    WellFormedNow(s, n);
    BootOK(s.nodes[p].peer, p, n, s.history);
  }
}
