/**
 A leader with the most complete log can always bring every follower to its log and commit
 a new command, by stepping back over conflicts and, where its own log has been compacted,
 by a snapshot (raft.go).
 */
module RaftCommits {
  import opened RaftPeer
  import opened RaftHistory
  import opened RaftCluster
  import opened RaftInvariant
  import opened RaftRules
  import opened RaftProgress
  import opened RaftApplying

  // ----- What is shared --------------------------------------------------------------

  /** Follower q has the leader's entry at i, at its base or behind it. */
  ghost predicate Agrees(Q: Peer, L: Log, i: nat)
    requires |Q.logs| > 0
  {
    Q.lastIncludedIndex <= i < |Full(Q)| && i < |L| && Full(Q)[i].term == L[i].term
  }

  /** The base of every follower is in the leader's log. */
  lemma BaseShared(s: Cluster, n: nat, p: nat, T: nat, L: Log, q: nat)
    requires Reachable(s, n) && Reigns(s, n, p, T, L) && q < n
    ensures |s.nodes[q].peer.logs| > 0 && Agrees(s.nodes[q].peer, L, s.nodes[q].peer.lastIncludedIndex)
  {
    ReachableNode(s, n, p);
    ReachableNode(s, n, q);
    var Q := s.nodes[q].peer;
    var S := Full(Q)[..Q.commitIndex + 1];
    CommittedInLeader(S, Q.currentTerm, T, s.history, n);
    assert S[Q.lastIncludedIndex] == L[Q.lastIncludedIndex];
  }

  // ----- One request and its answer --------------------------------------------------

  /** Everything that a majority holds of the term is committed. */
  ghost predicate Advanced(P: Peer, p: nat, n: nat)
    requires |P.logs| > 0
  {
    forall N: nat :: P.commitIndex < N < |Full(P)| ==> !Carried(P, p, N, n)
  }

  /** Nothing is handed to the service meanwhile. */
  predicate SameApply(P: Peer, P': Peer) {
    P'.lastApplied == P.lastApplied && P'.applying == P.applying && P'.snapshotInFlight == P.snapshotInFlight
  }

  /** The leader's view of everyone but q is as it was. */
  predicate SameView(P: Peer, P': Peer, q: nat) {
    && SameApply(P, P') && |P'.nextIndex| == |P.nextIndex| && |P'.matchIndex| == |P.matchIndex|
    && P'.lastIncludedIndex == P.lastIncludedIndex
    && (forall x :: 0 <= x < |P.nextIndex| && x != q ==> P'.nextIndex[x] == P.nextIndex[x])
    && (forall x :: 0 <= x < |P.matchIndex| && x != q ==> P'.matchIndex[x] == P.matchIndex[x])
  }

  /** A step between the leader and q. */
  ghost predicate Between(s: Cluster, t: Cluster, n: nat, p: nat, q: nat) {
    && |s.nodes| == |t.nodes| == n && p < n && q < n
    && (forall x :: 0 <= x < n && x != p && x != q ==> t.nodes[x] == s.nodes[x])
    && SameView(s.nodes[p].peer, t.nodes[p].peer, q)
  }

  /** The request that p sends to q. */
  ghost function RequestOf(P: Peer, p: nat, q: nat): AppendArgs
    requires |P.logs| > 0 && q < |P.nextIndex| && 0 < P.nextIndex[q] <= |Full(P)| && P.commitIndex < |Full(P)|
  {
    var L, next := Full(P), P.nextIndex[q];
    AppendArgs(P.currentTerm, p, next - 1, L[next - 1].term, L[next..], P.commitIndex, L[P.commitIndex].term)
  }

  lemma Sends(start: Cluster, n: nat, s: Cluster, p: nat, q: nat, T: nat, L: Log) returns (t: Cluster, a: AppendArgs)
    requires On(start, n, s) && Reigns(s, n, p, T, L) && q < n && q != p
    requires s.nodes[p].peer.nextIndex[q] > s.nodes[p].peer.lastIncludedIndex
    ensures On(start, n, t) && t.nodes == s.nodes && AppendRequest(q, a) in t.net
    ensures var next := s.nodes[p].peer.nextIndex[q];
            && next <= |L| && a.term == T && a.leader == p && a.prevLogIndex == next - 1
            && a.prevLogTerm == L[next - 1].term && a.entries == L[next..]
  {
    WellFormedNow(s, n);
    ReplicateRule(s, n, p, q);
    Go(start, n, s, Replicate(p, q));
    t := Do(s, Replicate(p, q));
    a := RequestOf(s.nodes[p].peer, p, q);
  }

  /** q answers, and has the whole log if it agreed. */
  lemma Answers(start: Cluster, n: nat, s: Cluster, p: nat, q: nat, T: nat, L: Log, a: AppendArgs) returns (t: Cluster, m: Message)
    requires On(start, n, s) && Reigns(s, n, p, T, L) && q < n && q != p
    requires AppendRequest(q, a) in s.net && a.term == T && a.leader == p
    ensures On(start, n, t) && |t.nodes| == n && (forall x :: 0 <= x < n && x != q ==> t.nodes[x] == s.nodes[x])
    ensures |s.nodes[q].peer.logs| > 0
    ensures t.nodes[q].peer.currentTerm == T && t.nodes[q].peer.lastIncludedIndex == s.nodes[q].peer.lastIncludedIndex
    ensures m == AppendResponse(q, a, AppendReply(s.nodes[q].peer.currentTerm, Fits(s.nodes[q].peer, a))) && m in t.net
  {
    WellFormedNow(s, n);
    var request := AppendRequest(q, a);
    AppendRule(s, n, q, request);
    Go(start, n, s, GetAppend(q, request));
    OthersStay(s, GetAppend(q, request));
    t := Do(s, GetAppend(q, request));
    m := AppendResponse(q, a, AppendReply(s.nodes[q].peer.currentTerm, Fits(s.nodes[q].peer, a)));
  }

  /** The leader takes the answer in. */
  lemma Notes(start: Cluster, n: nat, s: Cluster, p: nat, q: nat, T: nat, L: Log, m: Message) returns (t: Cluster)
    requires On(start, n, s) && Reigns(s, n, p, T, L) && q < n && q != p
    requires m in s.net && m.AppendResponse? && m.from == q && m.append.leader == p && m.append.term == T
    requires m.appendReply.term <= T
    ensures On(start, n, t) && |t.nodes| == n && (forall x :: 0 <= x < n && x != p ==> t.nodes[x] == s.nodes[x])
    ensures Reigns(t, n, p, T, L)
    ensures Answered(s.nodes[p].peer, t.nodes[p].peer, p, q, m.append, m.appendReply, n)
  {
    WellFormedNow(s, n);
    var a := GetAppendReply(p, m);
    AppendReplyRule(s, n, p, m);
    Go(start, n, s, a);
    OthersStay(s, a);
    t := Do(s, a);
  }

  lemma CarriedSame(P: Peer, P': Peer, p: nat, n: nat)
    requires |P.logs| > 0 && |P'.logs| > 0 && P' == P.(commitIndex := P'.commitIndex)
    requires LastCarried(P, p, P'.commitIndex, n)
    ensures Advanced(P', p, n)
  {
    forall N: nat | P'.commitIndex < N < |Full(P')| ensures !Carried(P', p, N, n) {
      assert !Carried(P, p, N, n);
    }
  }

  /** Request and answer: an agreement brings q to the end of the log, else the next index
      goes back by one. */
  lemma Round(start: Cluster, n: nat, s: Cluster, p: nat, q: nat, T: nat, L: Log) returns (t: Cluster)
    requires On(start, n, s) && Reigns(s, n, p, T, L) && q < n && q != p && |s.nodes[q].peer.logs| > 0
    requires s.nodes[p].peer.nextIndex[q] > s.nodes[p].peer.lastIncludedIndex
    ensures On(start, n, t) && Reigns(t, n, p, T, L) && Between(s, t, n, p, q)
    ensures t.nodes[q].peer.lastIncludedIndex == s.nodes[q].peer.lastIncludedIndex
    ensures var P, P', next := s.nodes[p].peer, t.nodes[p].peer, s.nodes[p].peer.nextIndex[q];
            && 0 < next <= |L|
            && if Agrees(s.nodes[q].peer, L, next - 1) then P'.matchIndex[q] >= |L| - 1 && Advanced(P', p, n)
               else P'.nextIndex[q] == next - 1
  {
    var u, a, m;
    u, a := Sends(start, n, s, p, q, T, L);
    assert Fits(s.nodes[q].peer, a) <==> Agrees(s.nodes[q].peer, L, a.prevLogIndex);
    u, m := Answers(start, n, u, p, q, T, L, a);
    assert u.nodes[p] == s.nodes[p];
    t := Notes(start, n, u, p, q, T, L, m);
    assert t.nodes[q] == u.nodes[q];
    var P, P' := s.nodes[p].peer, t.nodes[p].peer;
    if m.appendReply.success {
      CarriedSame(P'.(commitIndex := P.commitIndex), P', p, n);
    }
  }

  // ----- A snapshot ------------------------------------------------------------------

  lemma SendsSnapshot(start: Cluster, n: nat, s: Cluster, p: nat, q: nat, T: nat, L: Log) returns (t: Cluster, a: SnapshotArgs)
    requires On(start, n, s) && Reigns(s, n, p, T, L) && q < n && q != p
    requires 0 < s.nodes[p].peer.nextIndex[q] <= s.nodes[p].peer.lastIncludedIndex
    ensures On(start, n, t) && t.nodes == s.nodes && SnapshotRequest(q, a) in t.net
    ensures var base := s.nodes[p].peer.lastIncludedIndex;
            && base < |L| && a.term == T && a.leader == p && a.lastIncludedIndex == base
            && a.lastIncludedTerm == L[base].term && a.data == L[..base + 1]
  {
    WellFormedNow(s, n);
    ReplicateRule(s, n, p, q);
    Go(start, n, s, Replicate(p, q));
    t := Do(s, Replicate(p, q));
    var P := s.nodes[p].peer;
    a := SnapshotArgs(T, p, P.lastIncludedIndex, L[P.lastIncludedIndex].term, P.storage.snapshot);
  }

  /** The service of q takes the snapshot in. */
  lemma TakesSnapshot(start: Cluster, n: nat, s: Cluster, p: nat, q: nat, T: nat, L: Log, a: SnapshotArgs)
      returns (t: Cluster, m: Message)
    requires On(start, n, s) && Reigns(s, n, p, T, L) && q < n && q != p
    requires SnapshotRequest(q, a) in s.net && a.term == T && a.leader == p
    requires s.nodes[q].peer.lastIncludedIndex < a.lastIncludedIndex < |L|
    requires a.lastIncludedTerm == L[a.lastIncludedIndex].term && a.data == L[..a.lastIncludedIndex + 1]
    ensures On(start, n, t) && |t.nodes| == n && (forall x :: 0 <= x < n && x != q ==> t.nodes[x] == s.nodes[x])
    ensures var Q := t.nodes[q].peer;
            Q.currentTerm == T && Q.lastIncludedIndex == a.lastIncludedIndex && |Q.logs| > 0 && Agrees(Q, L, a.lastIncludedIndex)
    ensures m == SnapshotResponse(q, a, s.nodes[q].peer.currentTerm) && m in t.net
  {
    WellFormedNow(s, n);
    var request := SnapshotRequest(q, a);
    SnapshotRule(s, n, q, request);
    Go(start, n, s, GetSnapshot(q, request));
    OthersStay(s, GetSnapshot(q, request));
    var u := Do(s, GetSnapshot(q, request));
    WellFormedNow(u, n);
    InstallRule(u, n, q, a);
    Go(start, n, u, Install(q, a));
    OthersStay(u, Install(q, a));
    t := Do(u, Install(q, a));
    m := SnapshotResponse(q, a, s.nodes[q].peer.currentTerm);
  }

  lemma NotesSnapshot(start: Cluster, n: nat, s: Cluster, p: nat, q: nat, T: nat, L: Log, m: Message) returns (t: Cluster)
    requires On(start, n, s) && Reigns(s, n, p, T, L) && q < n && q != p
    requires m in s.net && m.SnapshotResponse? && m.from == q && m.snapshot.leader == p && m.term <= T
    ensures On(start, n, t) && |t.nodes| == n && (forall x :: 0 <= x < n && x != p ==> t.nodes[x] == s.nodes[x])
    ensures Reigns(t, n, p, T, L) && SameView(s.nodes[p].peer, t.nodes[p].peer, q)
    ensures t.nodes[p].peer.nextIndex[q] == s.nodes[p].peer.lastIncludedIndex + 1
  {
    WellFormedNow(s, n);
    var a := GetSnapshotReply(p, m);
    SnapshotReplyRule(s, n, p, m);
    Go(start, n, s, a);
    OthersStay(s, a);
    t := Do(s, a);
  }

  /** A follower whose next index has been compacted away is brought to the leader's base. */
  lemma BySnapshot(start: Cluster, n: nat, s: Cluster, p: nat, q: nat, T: nat, L: Log) returns (t: Cluster)
    requires On(start, n, s) && Reigns(s, n, p, T, L) && q < n && q != p
    requires s.nodes[q].peer.lastIncludedIndex < s.nodes[p].peer.nextIndex[q] <= s.nodes[p].peer.lastIncludedIndex
    ensures On(start, n, t) && Reigns(t, n, p, T, L) && Between(s, t, n, p, q)
    ensures |t.nodes[q].peer.logs| > 0 && Agrees(t.nodes[q].peer, L, t.nodes[p].peer.lastIncludedIndex)
    ensures t.nodes[p].peer.nextIndex[q] == t.nodes[p].peer.lastIncludedIndex + 1
  {
    var u, a, m;
    u, a := SendsSnapshot(start, n, s, p, q, T, L);
    u, m := TakesSnapshot(start, n, u, p, q, T, L, a);
    assert u.nodes[p] == s.nodes[p];
    t := NotesSnapshot(start, n, u, p, q, T, L, m);
    assert t.nodes[q] == u.nodes[q];
  }

  // ----- Every follower --------------------------------------------------------------

  /** The leader still looks for q's log above q's base. */
  predicate Above(s: Cluster, p: nat, q: nat) {
    && p < |s.nodes| && q < |s.nodes| && q < |s.nodes[p].peer.nextIndex|
    && s.nodes[q].peer.lastIncludedIndex < s.nodes[p].peer.nextIndex[q]
  }

  /** q is known to hold the whole log. */
  predicate Matched(s: Cluster, p: nat, q: nat, L: Log) {
    && p < |s.nodes| && q < |s.nodes[p].peer.matchIndex| && s.nodes[p].peer.matchIndex[q] >= |L| - 1
  }

  lemma {:induction false} Match(start: Cluster, n: nat, s: Cluster, p: nat, q: nat, T: nat, L: Log) returns (t: Cluster)
    requires On(start, n, s) && Reigns(s, n, p, T, L) && q < n && q != p && Above(s, p, q)
    ensures On(start, n, t) && Reigns(t, n, p, T, L) && Between(s, t, n, p, q)
    ensures Matched(t, p, q, L) && Advanced(t.nodes[p].peer, p, n)
    decreases s.nodes[p].peer.nextIndex[q]
  {
    BaseShared(s, n, p, T, L, q);
    var P, next := s.nodes[p].peer, s.nodes[p].peer.nextIndex[q];
    if next <= P.lastIncludedIndex {
      var u := BySnapshot(start, n, s, p, q, T, L);
      t := Round(start, n, u, p, q, T, L);
    } else {
      t := Round(start, n, s, p, q, T, L);
      if !Agrees(s.nodes[q].peer, L, next - 1) {
        var u := t;
        t := Match(start, n, u, p, q, T, L);
      }
    }
  }

  ghost predicate Half(s: Cluster, n: nat, p: nat, L: Log, k: nat) {
    forall q :: 0 <= q < n && q != p ==> if q < k then Matched(s, p, q, L) else Above(s, p, q)
  }

  lemma HalfMore(s: Cluster, t: Cluster, n: nat, p: nat, L: Log, k: nat)
    requires Half(s, n, p, L, k) && k < n && k != p && Between(s, t, n, p, k) && Matched(t, p, k, L)
    ensures Half(t, n, p, L, k + 1)
  {
    forall q | 0 <= q < n && q != p ensures if q < k + 1 then Matched(t, p, q, L) else Above(t, p, q) {
      if q < k {
        assert Matched(s, p, q, L);
      } else if q > k {
        assert Above(s, p, q) && t.nodes[q] == s.nodes[q];
      }
    }
  }

  lemma {:induction false} MatchAll(start: Cluster, n: nat, s: Cluster, p: nat, T: nat, L: Log, k: nat) returns (t: Cluster)
    requires On(start, n, s) && Reigns(s, n, p, T, L) && k <= n && n >= 2 && Half(s, n, p, L, k)
    requires k > (if p == 0 then 1 else 0) ==> Advanced(s.nodes[p].peer, p, n)
    ensures On(start, n, t) && Reigns(t, n, p, T, L) && Half(t, n, p, L, n) && Advanced(t.nodes[p].peer, p, n)
    ensures SameApply(s.nodes[p].peer, t.nodes[p].peer)
    decreases n - k
  {
    if k == n {
      t := s;
    } else if k == p {
      t := MatchAll(start, n, s, p, T, L, k + 1);
    } else {
      var u := Match(start, n, s, p, k, T, L);
      HalfMore(s, u, n, p, L, k);
      t := MatchAll(start, n, u, p, T, L, k + 1);
    }
  }

  // ----- The theorem -----------------------------------------------------------------

  lemma AllMatchedCommits(s: Cluster, n: nat, p: nat, T: nat, L: Log)
    requires Reachable(s, n) && Reigns(s, n, p, T, L) && Half(s, n, p, L, n) && Advanced(s.nodes[p].peer, p, n)
    requires |L| > 0 && L[|L| - 1].term == T
    ensures s.nodes[p].peer.commitIndex == |L| - 1
  {
    var P := s.nodes[p].peer;
    ReachableNode(s, n, p);
    var holders := set q | 0 <= q < |P.matchIndex| && q != p && P.matchIndex[q] >= |L| - 1;
    forall q ensures q in holders <==> q in FirstPeers(n) - {p} {
      if 0 <= q < n && q != p {
        assert Matched(s, p, q, L);
      }
    }
    assert holders == FirstPeers(n) - {p};
    assert |FirstPeers(n) - {p}| == n - 1;
    assert Carried(P, p, |L| - 1, n);
  }

  /** The command is at the end of the leader's log and committed there. */
  ghost predicate CommittedBy(P: Peer, command: Command) {
    && P.role.Leader? && |P.logs| > 0 && P.commitIndex == |Full(P)| - 1 && P.commitIndex > 0
    && Full(P)[P.commitIndex] == Entry(command, P.currentTerm)
  }

  /** Some leader has committed the command and handed it to its service. */
  ghost predicate Served(s: Cluster, command: Command) {
    exists p :: 0 <= p < |s.nodes| && CommittedBy(s.nodes[p].peer, command) &&
      Delivery(p, ApplyMsg(s.nodes[p].peer.commitIndex, command, s.nodes[p].peer.currentTerm)) in s.delivered
  }

  /** The cluster can go on from s to where the command is served. */
  ghost predicate CanServe(s: Cluster, command: Command) {
    exists t :: LeadsTo(s, t) && Served(t, command)
  }

  lemma StartKeepsApply(P: Peer, command: Command)
    ensures SameApply(P, StartCommand(P, command))
  {
  }

  lemma StartCommandOn(start: Cluster, n: nat, s: Cluster, p: nat, T: nat, L: Log, command: Command) returns (t: Cluster)
    requires On(start, n, s) && Reigns(s, n, p, T, L) && Fresh(s.nodes[p].peer, n, L)
    ensures On(start, n, t) && Reigns(t, n, p, T, L + [Entry(command, T)]) && Half(t, n, p, L + [Entry(command, T)], 0)
    ensures SameApply(s.nodes[p].peer, t.nodes[p].peer)
  {
    WellFormedNow(s, n);
    var a := ClientStart(p, command);
    StartRule(s, n, p, command);
    StartKeepsApply(s.nodes[p].peer, command);
    Go(start, n, s, a);
    OthersStay(s, a);
    t := Do(s, a);
    assert t.nodes[p].peer == StartCommand(s.nodes[p].peer, command);
    forall q | 0 <= q < n && q != p ensures Above(t, p, q) {
      BaseShared(s, n, p, T, L, q);
    }
  }

  /** A newly elected leader that is handing nothing to its service. */
  lemma CalmLeader(s: Cluster, n: nat) returns (t: Cluster, p: nat, T: nat, L: Log)
    requires Reachable(s, n) && n >= 2
    ensures On(s, n, t) && Reigns(t, n, p, T, L) && Fresh(t.nodes[p].peer, n, L) && |L| > 0
    ensures Calm(t.nodes[p].peer) && t.nodes[p].peer.lastApplied < |L|
  {
    var u;
    u, p, T, L := CanElect(s, n);
    t := CanCalm(s, n, u, p);
    ReachableNode(t, n, p);
    LogThere(t, n, p);
  }

  lemma Delivers(start: Cluster, n: nat, s: Cluster, p: nat, command: Command) returns (t: Cluster)
    requires On(start, n, s) && p < n == |s.nodes| && CommittedBy(s.nodes[p].peer, command)
    requires Calm(s.nodes[p].peer) && s.nodes[p].peer.lastApplied < s.nodes[p].peer.commitIndex
    ensures On(start, n, t) && Served(t, command)
  {
    ApplyRule(s, n, p);
    Go(start, n, s, BeginApply(p));
    OthersStay(s, BeginApply(p));
    t := Do(s, BeginApply(p));
    var P := s.nodes[p].peer;
    assert Delivery(p, ApplyMsg(P.commitIndex, Full(P)[P.commitIndex].command, Full(P)[P.commitIndex].term)) in t.delivered;
    assert CommittedBy(t.nodes[p].peer, command);
  }

  /** From every reachable state of two or more peers, and for every command, some
      continuation commits it and hands it to a service. */
  lemma AlwaysCanServe(s: Cluster, n: nat, command: Command)
    requires Reachable(s, n) && n >= 2
    ensures CanServe(s, command)
  {
    var t, p, T, L0 := CalmLeader(s, n);
    var L := L0 + [Entry(command, T)];
    t := StartCommandOn(s, n, t, p, T, L0, command);
    t := MatchAll(s, n, t, p, T, L, 0);
    AllMatchedCommits(t, n, p, T, L);
    assert CommittedBy(t.nodes[p].peer, command);
    t := Delivers(s, n, t, p, command);
  }

  // ----- One peer --------------------------------------------------------------------

  /** A peer alone never hears of a vote. */
  predicate Unheard(s: Cluster) {
    && |s.nodes| == 1 && s.net == {} && s.nodes[0].offered == {} && !s.nodes[0].peer.role.Leader?
    && forall U :: U in s.nodes[0].elections ==> s.nodes[0].elections[U].granted == {}
  }

  lemma UnheardStep(s: Cluster, a: Action)
    requires Unheard(s) && Enabled(s, a)
    ensures Unheard(Do(s, a))
  {
    assert a.p == 0 && !a.AskVote? && !a.Count? && !a.Replicate?;
  }

  lemma {:induction false} UnheardAlong(run: seq<Cluster>, actions: seq<Action>, k: nat)
    requires IsRun(run, actions, 1) && k < |run|
    ensures Unheard(run[k])
  {
    if k > 0 {
      UnheardAlong(run, actions, k - 1);
      assert StepAt(run, actions, k - 1);
      UnheardStep(run[k - 1], actions[k - 1]);
    }
  }

  lemma AloneCannotServe(command: Command)
    ensures Reachable(Init(1), 1) && !CanServe(Init(1), command)
  {
    var s := Init(1);
    assert EndsIn([s], [], 1, s);
    forall t | LeadsTo(s, t) ensures !Served(t, command) {
      var path, actions :| Path(path, actions, s, t);
      UnheardAlong(path, actions, |actions|);
    }
  }

  /** Commands can be served, from wherever the cluster is, exactly if it has two peers or
      more. */
  lemma ServesIff(n: nat, command: Command)
    requires n > 0
    ensures (forall s :: Reachable(s, n) ==> CanServe(s, command)) <==> n >= 2
  {
    if n >= 2 {
      forall s | Reachable(s, n) ensures CanServe(s, command) {
        AlwaysCanServe(s, n, command);
      }
    } else {
      AloneCannotServe(command);
    }
  }
}
