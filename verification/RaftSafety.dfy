/**
 The safety properties of Raft over every run: any number of peers, any interleaving, lost,
 delayed, duplicated and reordered messages, crashes, restarts and snapshots.
 */
module RaftSafety {
  import opened RaftPeer
  import opened RaftHistory
  import opened RaftCluster
  import opened RaftInvariant
  import opened RaftElections
  import opened RaftReplication
  import opened RaftSnapshots

  // ----- The invariant holds in every run --------------------------------------------

  lemma InitKeepsInv(n: nat)
    ensures Inv(Init(n))
  {
    var s := Init(n);
    forall q | 0 <= q < n ensures NodeOK(s.nodes[q], q, n, s.history) {
      var P := s.nodes[q].peer;
      assert Full(P) == [PLACEHOLDER];
    }
  }

  lemma ElectionKeepsInv(s: Cluster, a: Action)
    requires Inv(s) && Enabled(s, a) && Elects(a)
    ensures Inv(Do(s, a))
  {
    match a {
      case Timeout(p) => TimeoutKeepsInv(s, p);
      case AskVote(p, term, to) => AskVoteKeepsInv(s, p, term, to);
      case GetVoteRequest(p, m) => GetVoteRequestKeepsInv(s, p, m);
      case GetVoteReply(p, m) => GetVoteReplyKeepsInv(s, p, m);
      case Count(p, term, voter) => CountKeepsInv(s, p, term, voter);
    }
  }

  lemma ReplicationKeepsInv(s: Cluster, a: Action)
    requires Inv(s) && Enabled(s, a) && (a.Replicate? || a.GetAppend? || a.GetAppendReply? || a.ClientStart?)
    ensures Inv(Do(s, a))
  {
    match a {
      case Replicate(p, to) => ReplicateKeepsInv(s, p, to);
      case GetAppend(p, m) => GetAppendKeepsInv(s, p, m);
      case GetAppendReply(p, m) => GetAppendReplyKeepsInv(s, p, m);
      case ClientStart(p, command) => ClientStartKeepsInv(s, p, command);
    }
  }

  lemma StepKeepsInv(s: Cluster, a: Action)
    requires Inv(s) && Enabled(s, a)
    ensures Inv(Do(s, a))
  {
    if Elects(a) {
      ElectionKeepsInv(s, a);
    } else {
      match a {
        case GetSnapshot(p, m) => GetSnapshotKeepsInv(s, p, m);
        case SnapshotHandedOver(p) => HandedOverKeepsInv(s, p);
        case GetSnapshotReply(p, m) => GetSnapshotReplyKeepsInv(s, p, m);
        case Install(p, args) => InstallKeepsInv(s, p, args);
        case Trim(p, index) => TrimKeepsInv(s, p, index);
        case BeginApply(p) => BeginApplyKeepsInv(s, p);
        case EndApply(p) => EndApplyKeepsInv(s, p);
        case Restart(p) => RestartKeepsInv(s, p);
        case _ => ReplicationKeepsInv(s, a);
      }
    }
  }

  lemma RunStep(run: seq<Cluster>, actions: seq<Action>, n: nat, k: nat)
    requires IsRun(run, actions, n) && k < |actions|
    ensures Enabled(run[k], actions[k]) && run[k + 1] == Do(run[k], actions[k])
  {
    assert StepAt(run, actions, k);
  }

  lemma InvAt(run: seq<Cluster>, actions: seq<Action>, n: nat, k: nat)
    requires IsRun(run, actions, n) && k < |actions| && Inv(run[k])
    ensures Inv(run[k + 1]) && |run[k + 1].nodes| == |run[k].nodes|
  {
    RunStep(run, actions, n, k);
    StepKeepsInv(run[k], actions[k]);
    SameSize(run[k], actions[k]);
  }

  lemma {:induction false} RunInv(run: seq<Cluster>, actions: seq<Action>, n: nat, k: nat)
    requires IsRun(run, actions, n) && k < |run|
    ensures Inv(run[k]) && |run[k].nodes| == n
  {
    if k == 0 {
      InitKeepsInv(n);
    } else {
      RunInv(run, actions, n, k - 1);
      InvAt(run, actions, n, k - 1);
    }
  }

  lemma SameSize(s: Cluster, a: Action)
    requires Enabled(s, a)
    ensures |Do(s, a).nodes| == |s.nodes|
  {
  }

  // ----- What a step does to the history and to a log --------------------------------

  lemma CountGrows(s: Cluster, p: nat, term: nat, voter: nat)
    requires Inv(s) && Ready(s, p) && term in s.nodes[p].elections && voter in s.nodes[p].elections[term].granted
    ensures Grows(s.history.leaders, DoCount(s, p, term, voter).history.leaders)
  {
    var node, n, h := s.nodes[p], |s.nodes|, s.history;
    var counted := node.elections[term].counted + {voter};
    assert NodeOK(node, p, n, h);
    if Wins(node, term, counted, n) && LastIndex(node.peer) >= 0 {
      CountedVoted(node.elections[term], term, p, n, h, voter);
      TermStillOpen(s, p, term, counted);
    }
  }

  lemma StartGrows(s: Cluster, p: nat, command: Command)
    requires Inv(s) && Ready(s, p)
    ensures Grows(s.history.leaders, DoClientStart(s, p, command).history.leaders)
  {
    var P, h := s.nodes[p].peer, s.history;
    assert NodeOK(s.nodes[p], p, |s.nodes|, h);
    if P.role.Leader? {
      StartRep(P, command, |s.nodes|);
      LeaderAppends(h.leaders, P.currentTerm, Entry(command, P.currentTerm));
    }
  }

  /** History is never taken back. */
  predicate Extends(s: Cluster, s': Cluster) {
    && Grows(s.history.leaders, s'.history.leaders)
    && s.history.commits <= s'.history.commits
    && s.delivered <= s'.delivered
  }

  lemma ElectionExtends(s: Cluster, a: Action)
    requires Inv(s) && Enabled(s, a) && Elects(a)
    ensures Extends(s, Do(s, a))
  {
    match a {
      case Count(p, term, voter) => CountGrows(s, p, term, voter);
      case _ =>
    }
  }

  lemma StepExtends(s: Cluster, a: Action)
    requires Inv(s) && Enabled(s, a)
    ensures Extends(s, Do(s, a))
  {
    if Elects(a) {
      ElectionExtends(s, a);
    } else if a.ClientStart? {
      StartGrows(s, a.p, a.command);
    }
  }

  lemma ExtendsTrans(a: Cluster, b: Cluster, c: Cluster)
    requires Extends(a, b) && Extends(b, c)
    ensures Extends(a, c)
  {
    forall T | T in a.history.leaders ensures LeaderGrows(T, a.history.leaders, c.history.leaders) {
      assert LeaderGrows(T, a.history.leaders, b.history.leaders);
      assert LeaderGrows(T, b.history.leaders, c.history.leaders);
    }
  }

  lemma ExtendsAt(run: seq<Cluster>, actions: seq<Action>, n: nat, k: nat)
    requires IsRun(run, actions, n) && k < |actions|
    ensures Extends(run[k], run[k + 1])
  {
    RunInv(run, actions, n, k);
    RunStep(run, actions, n, k);
    StepExtends(run[k], actions[k]);
  }

  lemma {:induction false} RunExtends(run: seq<Cluster>, actions: seq<Action>, n: nat, j: nat, k: nat)
    requires IsRun(run, actions, n) && j <= k < |run|
    ensures Extends(run[j], run[k])
  {
    if j < k {
      RunExtends(run, actions, n, j, k - 1);
      ExtendsAt(run, actions, n, k - 1);
      ExtendsTrans(run[j], run[k - 1], run[k]);
    }
  }

  /** The committed part of a peer's log at time j, judged at time k. */
  lemma CommittedLater(run: seq<Cluster>, actions: seq<Action>, n: nat, j: nat, k: nat, p: nat)
    requires IsRun(run, actions, n) && j <= k < |run| && p < n
    ensures Inv(run[j]) && Inv(run[k]) && |run[j].nodes| == |run[k].nodes| == n
    ensures var P := run[j].nodes[p].peer;
            && |P.logs| > 0 && P.commitIndex < |Full(P)|
            && Committed(Full(P)[..P.commitIndex + 1], P.currentTerm, run[k].history)
  {
    RunInv(run, actions, n, j);
    RunInv(run, actions, n, k);
    RunExtends(run, actions, n, j, k);
    assert NodeOK(run[j].nodes[p], p, n, run[j].history);
    var P := run[j].nodes[p].peer;
    CommittedGrows(Full(P)[..P.commitIndex + 1], P.currentTerm, P.currentTerm, run[j].history, run[k].history);
  }

  // ----- Committed entries stay in a peer's own log ----------------------------------

  /** S is in the peer's log and committed as far as its term knows. */
  ghost predicate Secure(S: Log, P: Peer, h: History) {
    |P.logs| > 0 && S <= Full(P) && Committed(S, P.currentTerm, h)
  }

  /** The log after the handler is the log before it, or the scan of it. */
  lemma AppendLog(P: Peer, a: AppendArgs, n: nat)
    requires RepOK(P, n)
    ensures var Q, r := Settled(P, a.term), HandleAppend(P, a);
            && |Q.logs| > 0 && Full(Q) == Full(P) && |r.0.logs| > 0
            && (if r.1.success && a.entries != [] then
                  && Q.currentTerm <= a.term && P.currentTerm <= a.term
                  && PrevMatches(Q, a) && a.prevLogIndex + 1 <= |Full(Q)|
                  && Full(r.0) == Splice(Full(Q), 0, a.prevLogIndex + 1, a.entries)
                else Full(r.0) == Full(Q))
  {
    SettledLog(P, a.term, n);
    AppendCases(P, a);
    if HandleAppend(P, a).1.success && a.entries != [] {
      AppendStorage(P, a);
      SplicedRep(Settled(P, a.term), a, n, HandleAppend(P, a).0);
    }
  }

  lemma SettledLog(P: Peer, term: nat, n: nat)
    requires RepOK(P, n)
    ensures var Q := Settled(P, term);
            && RepOK(Q, n) && |Q.logs| > 0 && Full(Q) == Full(P) && P.currentTerm <= Q.currentTerm
            && (term >= P.currentTerm ==> Q.currentTerm == term)
  {
  }

  lemma AppendSpares(P: Peer, a: AppendArgs, S: Log, p: nat, n: nat, h: History)
    requires HistoryOK(h, n) && PeerOK(P, p, n, h) && AppendOK(a, h) && Secure(S, P, h)
    ensures |HandleAppend(P, a).0.logs| > 0 && S <= Full(HandleAppend(P, a).0)
  {
    AppendLog(P, a, n);
    if HandleAppend(P, a).1.success && a.entries != [] {
      SettledOK(P, a.term, p, n, h);
      CommittedGrows(S, P.currentTerm, a.term, h, h);
      PrevShared(Settled(P, a.term), a, p, n, h);
      SplicedCommitted(Full(P), a, S, n, h);
    }
  }

  lemma ReplaceSpares(P: Peer, data: Log, S: Log, index: nat, term: nat, n: nat, h: History)
    requires HistoryOK(h, n) && Secure(S, P, h) && Committed(data, P.currentTerm, h)
    requires |data| == index + 1 && Last(data).term == term && !Has(Full(P), term, index)
    ensures S <= data
  {
    CommittedComparable(S, data, P.currentTerm, h, n);
    assert data <= S ==> Has(Full(P), term, index);
  }

  lemma InstallSpares(P: Peer, a: SnapshotArgs, S: Log, p: nat, n: nat, h: History)
    requires HistoryOK(h, n) && PeerOK(P, p, n, h) && SnapOK(a, P.currentTerm, h) && Secure(S, P, h)
    ensures var P' := CondInstall(P, a.lastIncludedTerm, a.lastIncludedIndex, a.data).0;
            |P'.logs| > 0 && S <= Full(P')
  {
    var index, term := a.lastIncludedIndex, a.lastIncludedTerm;
    var P' := CondInstall(P, term, index, a.data).0;
    if index > P.lastIncludedIndex {
      var local := index - P.lastIncludedIndex;
      HasLocal(P, local, term, n);
      if local < |P.logs| && P.logs[local].term == term {
        assert P' == Rebase(P, index, term, P.logs[local + 1..], a.data);
        InstallContained(P, index, term, a.data, local, p, n, h);
      } else {
        assert P' == Rebase(P, index, term, [], a.data);
        ReplaceSpares(P, a.data, S, index, term, n, h);
        RebaseRep(P, index, term, [], a.data, n);
        assert a.data + [] == a.data;
      }
    }
  }

  /** The moved peer after an action. */
  function PeerAfter(s: Cluster, a: Action): Peer
    requires Enabled(s, a)
  {
    var P := s.nodes[a.p].peer;
    match a
    case Timeout(p) => BeginElection(P, p)
    case AskVote(_, _, _) => P
    case GetVoteRequest(_, m) => HandleVote(P, m.vote).0
    case GetVoteReply(_, m) => OnVoteReply(P, m.voteReply).0
    case Count(p, _, _) => if Do(s, a).nodes[p].peer == P || LastIndex(P) < 0 then P else Promote(P, p, |s.nodes|)
    case Replicate(_, _) => P
    case GetAppend(_, m) => HandleAppend(P, m.append).0
    case GetAppendReply(p, m) => OnAppendReply(P, p, m.from, m.append, m.appendReply)
    case GetSnapshot(_, m) => HandleSnapshot(P, m.snapshot).0
    case SnapshotHandedOver(_) => P.(snapshotInFlight := false)
    case GetSnapshotReply(_, m) => OnSnapshotReply(P, m.from, m.term)
    case Install(_, args) => CondInstall(P, args.lastIncludedTerm, args.lastIncludedIndex, args.data).0
    case Trim(_, index) => TakeSnapshot(P, index, Full(P)[..index + 1])
    case ClientStart(_, command) => StartCommand(P, command)
    case BeginApply(_) => P.(applying := true)
    case EndApply(p) => FinishBatch(P, s.nodes[p].sending.value)
    case Restart(_) => Boot(P.storage, |s.nodes|)
  }

  lemma ElectionPeers(s: Cluster, a: Action, q: nat)
    requires Enabled(s, a) && q < |s.nodes| && Elects(a)
    ensures |Do(s, a).nodes| == |s.nodes|
    ensures Do(s, a).nodes[q].peer == if q == a.p then PeerAfter(s, a) else s.nodes[q].peer
  {
  }

  lemma PeersAfter(s: Cluster, a: Action, q: nat)
    requires Enabled(s, a) && q < |s.nodes|
    ensures |Do(s, a).nodes| == |s.nodes|
    ensures Do(s, a).nodes[q].peer == if q == a.p then PeerAfter(s, a) else s.nodes[q].peer
  {
    if Elects(a) {
      ElectionPeers(s, a, q);
    }
  }

  predicate SameFull(P: Peer, P': Peer) {
    |P.logs| > 0 && |P'.logs| > 0 && Full(P') == Full(P)
  }

  predicate Rewrites(a: Action) {
    a.GetAppend? || a.Install? || a.Trim? || a.ClientStart? || a.Restart?
  }

  predicate Elects(a: Action) {
    a.Timeout? || a.AskVote? || a.GetVoteRequest? || a.GetVoteReply? || a.Count?
  }

  /** Most actions do not touch the log. */
  lemma ElectionSame(s: Cluster, a: Action)
    requires Enabled(s, a) && Elects(a)
    ensures SameFull(s.nodes[a.p].peer, PeerAfter(s, a))
    ensures s.nodes[a.p].peer.currentTerm <= PeerAfter(s, a).currentTerm
  {
  }

  lemma OthersSame(s: Cluster, a: Action)
    requires Enabled(s, a) && !Elects(a) && !Rewrites(a)
    ensures SameFull(s.nodes[a.p].peer, PeerAfter(s, a))
    ensures s.nodes[a.p].peer.currentTerm <= PeerAfter(s, a).currentTerm
  {
  }

  lemma AppendKeepsOwner(s: Cluster, p: nat, m: Message, S: Log)
    requires Inv(s) && Ready(s, p) && m in s.net && m.AppendRequest? && Secure(S, s.nodes[p].peer, s.history)
    ensures var P' := HandleAppend(s.nodes[p].peer, m.append).0;
            |P'.logs| > 0 && S <= Full(P') && s.nodes[p].peer.currentTerm <= P'.currentTerm
  {
    assert NodeOK(s.nodes[p], p, |s.nodes|, s.history) && MessageOK(m, s);
    AppendSpares(s.nodes[p].peer, m.append, S, p, |s.nodes|, s.history);
    HandleAppendOK(s.nodes[p].peer, m.append, p, |s.nodes|, s.history);
  }

  lemma InstallKeepsOwner(s: Cluster, p: nat, a: SnapshotArgs, S: Log)
    requires Inv(s) && Ready(s, p) && a in s.nodes[p].offered && Secure(S, s.nodes[p].peer, s.history)
    ensures var P' := CondInstall(s.nodes[p].peer, a.lastIncludedTerm, a.lastIncludedIndex, a.data).0;
            |P'.logs| > 0 && S <= Full(P') && s.nodes[p].peer.currentTerm == P'.currentTerm
  {
    assert NodeOK(s.nodes[p], p, |s.nodes|, s.history);
    assert SnapOK(a, s.nodes[p].peer.currentTerm, s.history);
    InstallSpares(s.nodes[p].peer, a, S, p, |s.nodes|, s.history);
  }

  lemma BaseKeepsOwner(s: Cluster, a: Action)
    requires Inv(s) && Enabled(s, a) && (a.Trim? || a.Restart?)
    ensures SameFull(s.nodes[a.p].peer, PeerAfter(s, a))
    ensures s.nodes[a.p].peer.currentTerm == PeerAfter(s, a).currentTerm
  {
    var n, h, P := |s.nodes|, s.history, s.nodes[a.p].peer;
    assert NodeOK(s.nodes[a.p], a.p, n, h);
    if a.Trim? {
      TrimOK(P, a.index, a.p, n, h);
    } else {
      BootOK(P, a.p, n, h);
    }
  }

  lemma StartKeepsOwner(P: Peer, command: Command)
    requires |P.logs| > 0
    ensures var P' := StartCommand(P, command);
            |P'.logs| > 0 && Full(P) <= Full(P') && P'.currentTerm == P.currentTerm
  {
  }

  /** One step leaves the committed entries of the moved peer in its log. */
  lemma OwnerSpared(s: Cluster, a: Action, S: Log)
    requires Inv(s) && Enabled(s, a) && Secure(S, s.nodes[a.p].peer, s.history)
    ensures |PeerAfter(s, a).logs| > 0 && S <= Full(PeerAfter(s, a))
    ensures s.nodes[a.p].peer.currentTerm <= PeerAfter(s, a).currentTerm
  {
    if Rewrites(a) {
      match a {
        case GetAppend(p, m) => AppendKeepsOwner(s, p, m, S);
        case Install(p, args) => InstallKeepsOwner(s, p, args, S);
        case ClientStart(p, command) => StartKeepsOwner(s.nodes[p].peer, command);
        case _ => BaseKeepsOwner(s, a);
      }
    } else if Elects(a) {
      ElectionSame(s, a);
    } else {
      OthersSame(s, a);
    }
  }

  // ----- The theorems ----------------------------------------------------------------

  /** Election safety: at most one peer is ever leader of a term, at any two moments. */
  lemma ElectionSafety(run: seq<Cluster>, actions: seq<Action>, n: nat, j: nat, k: nat, p: nat, q: nat)
    requires IsRun(run, actions, n) && j <= k < |run| && p < |run[j].nodes| && q < |run[k].nodes|
    requires run[j].nodes[p].peer.role.Leader? && run[k].nodes[q].peer.role.Leader?
    requires run[j].nodes[p].peer.currentTerm == run[k].nodes[q].peer.currentTerm
    ensures p == q
    ensures |run[j].nodes[p].peer.logs| > 0 && |run[k].nodes[q].peer.logs| > 0
    ensures Full(run[j].nodes[p].peer) <= Full(run[k].nodes[q].peer)
  {
    RunInv(run, actions, n, j);
    RunInv(run, actions, n, k);
    RunExtends(run, actions, n, j, k);
    var T := run[j].nodes[p].peer.currentTerm;
    assert NodeOK(run[j].nodes[p], p, n, run[j].history);
    assert NodeOK(run[k].nodes[q], q, n, run[k].history);
    assert LeaderGrows(T, run[j].history.leaders, run[k].history.leaders);
  }

  /** Log matching: logs that agree on the term at an index agree up to it. */
  lemma LogMatching(run: seq<Cluster>, actions: seq<Action>, n: nat, k: nat, p: nat, q: nat, i: nat)
    requires IsRun(run, actions, n) && k < |run| && p < |run[k].nodes| && q < |run[k].nodes|
    requires |run[k].nodes[p].peer.logs| > 0 && |run[k].nodes[q].peer.logs| > 0
    requires i < |Full(run[k].nodes[p].peer)| && i < |Full(run[k].nodes[q].peer)|
    requires Full(run[k].nodes[p].peer)[i].term == Full(run[k].nodes[q].peer)[i].term
    ensures Full(run[k].nodes[p].peer)[..i + 1] == Full(run[k].nodes[q].peer)[..i + 1]
  {
    RunInv(run, actions, n, k);
    assert NodeOK(run[k].nodes[p], p, n, run[k].history);
    assert NodeOK(run[k].nodes[q], q, n, run[k].history);
    Matching(Full(run[k].nodes[p].peer), Full(run[k].nodes[q].peer), i, run[k].history.leaders);
  }

  /** Leader completeness: what was committed in some term is in the log of every peer that
      leads at a later moment in that or a later term. */
  lemma CommittedEntriesInLeaders(run: seq<Cluster>, actions: seq<Action>, n: nat, j: nat, k: nat, c: Commit, S: Log, q: nat)
    requires IsRun(run, actions, n) && j <= k < |run| && q < |run[k].nodes|
    requires c in run[j].history.commits && Covers(c, S, run[j].history.leaders)
    requires run[k].nodes[q].peer.role.Leader? && c.term <= run[k].nodes[q].peer.currentTerm
    ensures |run[k].nodes[q].peer.logs| > 0 && S <= Full(run[k].nodes[q].peer)
  {
    RunInv(run, actions, n, j);
    RunInv(run, actions, n, k);
    RunExtends(run, actions, n, j, k);
    var L, h := run[k].nodes[q].peer, run[k].history;
    assert NodeOK(run[k].nodes[q], q, n, h);
    assert Committed(S, c.term, run[j].history);
    CommittedGrows(S, c.term, c.term, run[j].history, h);
    CommittedInLeader(S, c.term, L.currentTerm, h, n);
  }

  /** What a peer knows to be committed was counted to a majority in its term or an earlier
      one, unless it is the placeholder alone. */
  lemma KnownIsCommitted(run: seq<Cluster>, actions: seq<Action>, n: nat, j: nat, p: nat)
    requires IsRun(run, actions, n) && j < |run| && p < |run[j].nodes| && run[j].nodes[p].peer.commitIndex > 0
    ensures var P := run[j].nodes[p].peer;
            && |P.logs| > 0 && P.commitIndex < |Full(P)|
            && exists c :: c in run[j].history.commits && c.term <= P.currentTerm &&
                           Covers(c, Full(P)[..P.commitIndex + 1], run[j].history.leaders)
  {
    RunInv(run, actions, n, j);
    assert NodeOK(run[j].nodes[p], p, n, run[j].history);
  }

  /** State machine safety: two peers, at any two moments, agree on every position that
      each of them knew to be committed. */
  lemma StateMachineSafety(run: seq<Cluster>, actions: seq<Action>, n: nat, j: nat, k: nat, p: nat, q: nat, i: nat)
    requires IsRun(run, actions, n) && j <= k < |run| && p < n && q < n
    requires |run[j].nodes| == |run[k].nodes| == n
    requires i <= run[j].nodes[p].peer.commitIndex && i <= run[k].nodes[q].peer.commitIndex
    ensures var P, Q := run[j].nodes[p].peer, run[k].nodes[q].peer;
            && |P.logs| > 0 && |Q.logs| > 0 && i < |Full(P)| && i < |Full(Q)|
            && Full(P)[i] == Full(Q)[i]
  {
    CommittedLater(run, actions, n, j, k, p);
    CommittedLater(run, actions, n, k, k, q);
    var P, Q, h := run[j].nodes[p].peer, run[k].nodes[q].peer, run[k].history;
    var R, S := Full(P)[..P.commitIndex + 1], Full(Q)[..Q.commitIndex + 1];
    var b := Max(P.currentTerm, Q.currentTerm);
    CommittedGrows(R, P.currentTerm, b, h, h);
    CommittedGrows(S, Q.currentTerm, b, h, h);
    CommittedComparable(R, S, b, h, n);
    assert R[i] == Full(P)[i] && S[i] == Full(Q)[i];
  }

  /** Whatever two services were ever handed at one index is the same command. */
  lemma DeliverySafety(run: seq<Cluster>, actions: seq<Action>, n: nat, k: nat, d: Delivery, e: Delivery)
    requires IsRun(run, actions, n) && k < |run|
    requires d in run[k].delivered && e in run[k].delivered && d.msg.index == e.msg.index
    ensures d.msg == e.msg
  {
    RunInv(run, actions, n, k);
    var h := run[k].history;
    assert DeliveryOK(d, h) && DeliveryOK(e, h);
    var c :| c in h.commits && Justifies(c, d.msg, h.leaders);
    var f :| f in h.commits && Justifies(f, e.msg, h.leaders);
    assert CommitOK(h, c, n) && CommitOK(h, f, n);
    var U := Max(c.term, f.term);
    CommitInLeader(h, c, U, n);
    CommitInLeader(h, f, U, n);
    var i := d.msg.index;
    assert h.leaders[c.term].log[i] == h.leaders[c.term].log[..c.index + 1][i] == h.leaders[U].log[i];
    assert h.leaders[f.term].log[i] == h.leaders[f.term].log[..f.index + 1][i] == h.leaders[U].log[i];
  }

  /** Offsets and durability: in every reachable state of every peer the base, the applied
      index, the commit index and the last index are in order, the log is not empty, the
      stored snapshot is the one of the stored base, and a crash at this moment would bring
      back the same term, vote, base and log. */
  lemma OffsetsAndDurability(run: seq<Cluster>, actions: seq<Action>, n: nat, k: nat, p: nat)
    requires IsRun(run, actions, n) && k < |run| && p < |run[k].nodes|
    ensures var P := run[k].nodes[p].peer;
            && |P.logs| > 0
            && P.lastIncludedIndex <= P.lastApplied <= P.commitIndex <= LastIndex(P)
            && |Stem(P)| == P.lastIncludedIndex + 1 && Last(Stem(P)).term == P.lastIncludedTerm
            && Hard(Boot(P.storage, n)) == Hard(P)
            && Full(Boot(P.storage, n)) == Full(P)
  {
    RunInv(run, actions, n, k);
    assert NodeOK(run[k].nodes[p], p, n, run[k].history);
    BootOK(run[k].nodes[p].peer, p, n, run[k].history);
  }

  /** Commit evidence: whatever a leader could count above its commit index was
      acknowledged in its own term by the follower in question. */
  lemma CommitEvidence(run: seq<Cluster>, actions: seq<Action>, n: nat, k: nat, p: nat, q: nat)
    requires IsRun(run, actions, n) && k < |run| && p < |run[k].nodes| && q < |run[k].nodes[p].peer.matchIndex|
    requires run[k].nodes[p].peer.role.Leader? && q != p
    requires run[k].nodes[p].peer.matchIndex[q] > run[k].nodes[p].peer.commitIndex
    ensures exists a :: a in run[k].history.acks && a.peer == q && a.term == run[k].nodes[p].peer.currentTerm &&
              a.upto >= run[k].nodes[p].peer.matchIndex[q]
  {
    RunInv(run, actions, n, k);
    assert NodeOK(run[k].nodes[p], p, n, run[k].history);
  }

  /** No committed truncation: what a peer knew to be committed at time j is still in its
      own log at every later moment, through conflicts, snapshots and restarts. */
  lemma {:induction false} CommittedNeverLost(run: seq<Cluster>, actions: seq<Action>, n: nat, j: nat, k: nat, p: nat)
    requires IsRun(run, actions, n) && j <= k < |run| && p < n
    ensures |run[j].nodes| == |run[k].nodes| == n
    ensures var P, Q := run[j].nodes[p].peer, run[k].nodes[p].peer;
            && |P.logs| > 0 && |Q.logs| > 0 && P.commitIndex < |Full(P)|
            && P.currentTerm <= Q.currentTerm
            && Full(P)[..P.commitIndex + 1] <= Full(Q)
  {
    CommittedLater(run, actions, n, j, k, p);
    if j == k {
      assert NodeOK(run[k].nodes[p], p, n, run[k].history);
    } else {
      CommittedNeverLost(run, actions, n, j, k - 1, p);
      CommittedLater(run, actions, n, j, k - 1, p);
      var P, R := run[j].nodes[p].peer, run[k - 1].nodes[p].peer;
      CommittedGrows(Full(P)[..P.commitIndex + 1], P.currentTerm, R.currentTerm, run[k - 1].history, run[k - 1].history);
      SparedAt(run, actions, n, k - 1, p, Full(P)[..P.commitIndex + 1]);
    }
  }

  lemma SparedAt(run: seq<Cluster>, actions: seq<Action>, n: nat, k: nat, p: nat, S: Log)
    requires IsRun(run, actions, n) && k < |actions| && p < n && |run[k].nodes| == n
    requires Secure(S, run[k].nodes[p].peer, run[k].history)
    ensures |run[k + 1].nodes| == n
    ensures |run[k + 1].nodes[p].peer.logs| > 0 && S <= Full(run[k + 1].nodes[p].peer)
    ensures run[k].nodes[p].peer.currentTerm <= run[k + 1].nodes[p].peer.currentTerm
  {
    RunInv(run, actions, n, k);
    RunStep(run, actions, n, k);
    PeersAfter(run[k], actions[k], p);
    if p == actions[k].p {
      OwnerSpared(run[k], actions[k], S);
    }
  }
}
