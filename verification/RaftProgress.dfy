/**
 A cluster of two or more peers never gets stuck: from every reachable state some
 continuation elects a leader and commits a given command, through conflicting logs and
 logs that were compacted (raft.go).  A single peer never leads.
 */
module RaftProgress {
  import opened RaftPeer
  import opened RaftHistory
  import opened RaftCluster
  import opened RaftInvariant
  import opened RaftSafety
  import opened RaftRules

  // ----- Continuations ---------------------------------------------------------------

  ghost predicate Path(path: seq<Cluster>, actions: seq<Action>, s: Cluster, t: Cluster) {
    && |path| == |actions| + 1 && path[0] == s && path[|actions|] == t
    && forall k {:trigger StepAt(path, actions, k)} :: 0 <= k < |actions| ==> StepAt(path, actions, k)
  }

  /** The cluster can go from s to t. */
  ghost predicate LeadsTo(s: Cluster, t: Cluster) {
    exists path, actions :: Path(path, actions, s, t)
  }

  /** s is reachable, and on from start. */
  ghost predicate On(start: Cluster, n: nat, s: Cluster) {
    Reachable(s, n) && LeadsTo(start, s)
  }

  lemma Begin(s: Cluster, n: nat)
    requires Reachable(s, n)
    ensures On(s, n, s)
  {
    assert Path([s], [], s, s);
  }

  lemma Go(start: Cluster, n: nat, s: Cluster, a: Action)
    requires On(start, n, s) && Enabled(s, a)
    ensures On(start, n, Do(s, a))
  {
    ReachStep(s, n, a);
    var path, actions :| Path(path, actions, start, s);
    var path', actions' := path + [Do(s, a)], actions + [a];
    forall k | 0 <= k < |actions'| ensures StepAt(path', actions', k) {
      assert k < |actions| ==> StepAt(path, actions, k);
    }
    assert Path(path', actions', start, Do(s, a));
  }

  /** A step of p leaves the other nodes. */
  lemma OthersStay(s: Cluster, a: Action)
    requires Enabled(s, a)
    ensures |Do(s, a).nodes| == |s.nodes| && forall q :: 0 <= q < |s.nodes| && q != a.p ==> Do(s, a).nodes[q] == s.nodes[q]
  {
    if Elects(a) {
      ElectionOthers(s, a);
    }
  }

  lemma ElectionOthers(s: Cluster, a: Action)
    requires Enabled(s, a) && Elects(a)
    ensures |Do(s, a).nodes| == |s.nodes| && forall q :: 0 <= q < |s.nodes| && q != a.p ==> Do(s, a).nodes[q] == s.nodes[q]
  {
  }

  lemma LogThere(s: Cluster, n: nat, q: nat)
    requires Reachable(s, n) && q < n
    ensures |s.nodes| == n && |s.nodes[q].peer.logs| > 0 && |Full(s.nodes[q].peer)| > 0
  {
    ReachableInv(s, n);
    ReachableNode(s, n, q);
  }

  // ----- Elections -------------------------------------------------------------------

  /** p stands for election in term T with the votes counted so far. */
  ghost predicate Stands(s: Cluster, n: nat, p: nat, T: nat, L: Log, counted: set<nat>) {
    && p < n == |s.nodes| && |s.nodes[p].peer.logs| > 0 && Full(s.nodes[p].peer) == L
    && s.nodes[p].peer.role.Candidate? && s.nodes[p].peer.currentTerm == T
    && T in s.nodes[p].elections && s.nodes[p].elections[T] == Tally({}, counted, false)
  }

  /** q will vote for a candidate with log L in term T. */
  ghost predicate WillVote(s: Cluster, q: nat, T: nat, L: Log) {
    && q < |s.nodes| && |s.nodes[q].peer.logs| > 0 && |L| > 0 && |Full(s.nodes[q].peer)| > 0
    && s.nodes[q].peer.currentTerm < T && RaftHistory.AtLeast(L, Full(s.nodes[q].peer))
  }

  /** Timeouts bring p to a term above M. */
  lemma {:induction false} RaiseTerm(start: Cluster, n: nat, s: Cluster, p: nat, M: nat) returns (t: Cluster, T: nat)
    requires On(start, n, s) && p < n && |s.nodes| == n && |s.nodes[p].peer.logs| > 0
    ensures On(start, n, t) && T > M && Stands(t, n, p, T, Full(s.nodes[p].peer), {p})
    ensures forall q :: 0 <= q < n && q != p ==> t.nodes[q] == s.nodes[q]
    decreases M + 1 - s.nodes[p].peer.currentTerm
  {
    TimeoutRule(s, n, p);
    Go(start, n, s, Timeout(p));
    OthersStay(s, Timeout(p));
    t := Do(s, Timeout(p));
    T := t.nodes[p].peer.currentTerm;
    if T <= M {
      t, T := RaiseTerm(start, n, t, p, M);
    }
  }

  /** The request of p reaches q, and q grants its vote. */
  lemma GetsVote(start: Cluster, n: nat, s: Cluster, p: nat, q: nat, T: nat, L: Log, counted: set<nat>)
      returns (t: Cluster, m: Message)
    requires On(start, n, s) && Stands(s, n, p, T, L, counted) && WillVote(s, q, T, L) && q != p
    ensures On(start, n, t) && |t.nodes| == n && (forall x :: 0 <= x < n && x != q ==> t.nodes[x] == s.nodes[x])
    ensures |t.nodes[q].peer.logs| > 0 && t.nodes[q].peer.currentTerm == T
    ensures m in t.net && m.VoteResponse? && m.from == q && m.vote.term == T && m.vote.candidate == p
    ensures m.voteReply.granted && m.voteReply.term < T
  {
    WellFormedNow(s, n);
    var a := AskVote(p, T, q);
    AskVoteRule(s, n, p, T, q);
    Go(start, n, s, a);
    OthersStay(s, a);
    var u := Do(s, a);
    assert u.nodes[p] == s.nodes[p];
    var vote := VoteArgs(T, p, |L| - 1, Last(L).term);
    var request := VoteRequest(q, vote, L);
    WellFormedNow(u, n);
    var b := GetVoteRequest(q, request);
    VoteRule(u, n, q, request);
    Go(start, n, u, b);
    OthersStay(u, b);
    t := Do(u, b);
    m := VoteResponse(q, vote, VoteReply(u.nodes[q].peer.currentTerm, Due(u.nodes[q].peer, vote, L)));
  }

  /** p is leader of term T with log L, and no peer is ahead of it. */
  ghost predicate Reigns(s: Cluster, n: nat, p: nat, T: nat, L: Log) {
    && p < n == |s.nodes| && |s.nodes[p].peer.logs| > 0 && Full(s.nodes[p].peer) == L
    && s.nodes[p].peer.role.Leader? && s.nodes[p].peer.currentTerm == T
    && |s.nodes[p].peer.nextIndex| == |s.nodes[p].peer.matchIndex| == n
    && forall q :: 0 <= q < n ==> s.nodes[q].peer.currentTerm <= T
  }

  /** The next index of every peer is the end of the log L. */
  predicate Fresh(P: Peer, n: nat, L: Log) {
    |P.nextIndex| == n && forall q :: 0 <= q < n ==> P.nextIndex[q] == |L|
  }

  /** The vote is counted. */
  lemma CountsVote(start: Cluster, n: nat, s: Cluster, p: nat, q: nat, T: nat, L: Log, counted: set<nat>, m: Message)
      returns (t: Cluster)
    requires On(start, n, s) && Stands(s, n, p, T, L, counted) && q < n
    requires m in s.net && m.VoteResponse? && m.from == q && m.vote.term == T && m.vote.candidate == p
    requires m.voteReply.granted && m.voteReply.term < T
    ensures On(start, n, t) && |t.nodes| == n && (forall x :: 0 <= x < n && x != p ==> t.nodes[x] == s.nodes[x])
    ensures if 2 * |counted + {q}| > n then
              var P := t.nodes[p].peer;
              P.role.Leader? && P.currentTerm == T && |P.logs| > 0 && Full(P) == L && Fresh(P, n, L) && |P.matchIndex| == n
            else Stands(t, n, p, T, L, counted + {q})
  {
    WellFormedNow(s, n);
    var a := GetVoteReply(p, m);
    VoteReplyRule(s, n, p, m);
    Go(start, n, s, a);
    OthersStay(s, a);
    var u := Do(s, a);
    assert u.nodes[p].peer == s.nodes[p].peer && u.nodes[p].elections[T] == Tally({q}, counted, false);
    WellFormedNow(u, n);
    var b := Count(p, T, q);
    CountRule(u, n, p, T, q);
    Go(start, n, u, b);
    OthersStay(u, b);
    t := Do(u, b);
    assert {q} - {q} == {};
  }

  lemma OneVote(start: Cluster, n: nat, s: Cluster, p: nat, q: nat, T: nat, L: Log, counted: set<nat>) returns (t: Cluster)
    requires On(start, n, s) && Stands(s, n, p, T, L, counted) && WillVote(s, q, T, L) && q != p
    ensures On(start, n, t) && |t.nodes| == n && (forall x :: 0 <= x < n && x != p && x != q ==> t.nodes[x] == s.nodes[x])
    ensures t.nodes[q].peer.currentTerm == T
    ensures if 2 * |counted + {q}| > n then
              var P := t.nodes[p].peer;
              P.role.Leader? && P.currentTerm == T && |P.logs| > 0 && Full(P) == L && Fresh(P, n, L) && |P.matchIndex| == n
            else Stands(t, n, p, T, L, counted + {q})
  {
    var m;
    t, m := GetsVote(start, n, s, p, q, T, L, counted);
    t := CountsVote(start, n, t, p, q, T, L, counted, m);
  }

  function FirstPeers(k: nat): (r: set<nat>)
    ensures |r| == k && forall x :: x in r <==> 0 <= x < k
  {
    if k == 0 then {} else FirstPeers(k - 1) + {k - 1}
  }

  /** The peers from k on will vote for p, and nobody is ahead of it. */
  ghost predicate Voters(s: Cluster, n: nat, p: nat, T: nat, L: Log, k: nat) {
    && (forall q :: k <= q < n && q != p ==> WillVote(s, q, T, L))
    && (forall q :: 0 <= q < n && q != p ==> q < |s.nodes| && s.nodes[q].peer.currentTerm <= T)
  }

  lemma VotersLeft(s: Cluster, t: Cluster, n: nat, p: nat, T: nat, L: Log, k: nat)
    requires Voters(s, n, p, T, L, k) && k < n == |s.nodes| == |t.nodes| && k != p
    requires (forall x :: 0 <= x < n && x != p && x != k ==> t.nodes[x] == s.nodes[x]) && t.nodes[k].peer.currentTerm == T
    ensures Voters(t, n, p, T, L, k + 1)
  {
    forall q | k + 1 <= q < n && q != p ensures WillVote(t, q, T, L) {
      assert WillVote(s, q, T, L) && t.nodes[q] == s.nodes[q];
    }
    forall q | 0 <= q < n && q != p ensures t.nodes[q].peer.currentTerm <= T {
      assert q != k ==> t.nodes[q] == s.nodes[q];
    }
  }

  /** One peer after the other votes until p leads. */
  lemma {:induction false} Wins(start: Cluster, n: nat, s: Cluster, p: nat, T: nat, L: Log, k: nat) returns (t: Cluster)
    requires On(start, n, s) && Stands(s, n, p, T, L, FirstPeers(k) + {p}) && k <= n && 2 * |FirstPeers(k) + {p}| <= n
    requires Voters(s, n, p, T, L, k)
    ensures On(start, n, t) && Reigns(t, n, p, T, L) && Fresh(t.nodes[p].peer, n, L)
    decreases n - k
  {
    assert k < n by {
      assert k == n ==> FirstPeers(k) + {p} == FirstPeers(n);
    }
    var next := FirstPeers(k) + {p} + {k};
    assert next == FirstPeers(k + 1) + {p};
    if k == p {
      assert next == FirstPeers(k) + {p};
      t := Wins(start, n, s, p, T, L, k + 1);
    } else {
      assert WillVote(s, k, T, L);
      t := OneVote(start, n, s, p, k, T, L, FirstPeers(k) + {p});
      VotersLeft(s, t, n, p, T, L, k);
      if 2 * |next| <= n {
        t := Wins(start, n, t, p, T, L, k + 1);
      }
    }
  }

  // ----- The most complete log -------------------------------------------------------

  ghost predicate MostComplete(s: Cluster, p: nat, k: nat)
    requires forall q :: 0 <= q < |s.nodes| ==> |s.nodes[q].peer.logs| > 0 && |Full(s.nodes[q].peer)| > 0
  {
    p < k <= |s.nodes| && forall q :: 0 <= q < k ==> RaftHistory.AtLeast(Full(s.nodes[p].peer), Full(s.nodes[q].peer))
  }

  lemma {:induction false} SomeMostComplete(s: Cluster, k: nat) returns (p: nat)
    requires forall q :: 0 <= q < |s.nodes| ==> |s.nodes[q].peer.logs| > 0 && |Full(s.nodes[q].peer)| > 0
    requires 0 < k <= |s.nodes|
    ensures MostComplete(s, p, k)
  {
    if k == 1 {
      p := 0;
    } else {
      p := SomeMostComplete(s, k - 1);
      if !RaftHistory.AtLeast(Full(s.nodes[p].peer), Full(s.nodes[k - 1].peer)) {
        p := k - 1;
      }
    }
  }

  lemma {:induction false} HighestTerm(s: Cluster, k: nat) returns (M: nat)
    requires k <= |s.nodes|
    ensures forall q :: 0 <= q < k ==> s.nodes[q].peer.currentTerm <= M
  {
    if k == 0 {
      M := 0;
    } else {
      M := HighestTerm(s, k - 1);
      M := Max(M, s.nodes[k - 1].peer.currentTerm);
    }
  }

  /** From every reachable state the peer with the most complete log can be elected. */
  lemma CanElect(s: Cluster, n: nat) returns (t: Cluster, p: nat, T: nat, L: Log)
    requires Reachable(s, n) && n >= 2
    ensures On(s, n, t) && Reigns(t, n, p, T, L) && Fresh(t.nodes[p].peer, n, L)
  {
    ReachableInv(s, n);
    forall q | 0 <= q < n ensures |s.nodes[q].peer.logs| > 0 && |Full(s.nodes[q].peer)| > 0 {
      LogThere(s, n, q);
    }
    p := SomeMostComplete(s, n);
    var M := HighestTerm(s, n);
    L := Full(s.nodes[p].peer);
    Begin(s, n);
    t, T := RaiseTerm(s, n, s, p, M);
    assert FirstPeers(0) + {p} == {p};
    forall q | 0 <= q < n && q != p ensures WillVote(t, q, T, L) {
      assert t.nodes[q] == s.nodes[q];
    }
    t := Wins(s, n, t, p, T, L, 0);
  }
}
