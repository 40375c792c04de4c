/**
 The applying flag of a peer is up exactly while a batch is on its way (raft.go), so that a
 peer can always be brought to apply what it knows to be committed.
 */
module RaftApplying {
  import opened RaftPeer
  import opened RaftHistory
  import opened RaftCluster
  import opened RaftSafety
  import opened RaftRules
  import opened RaftProgress

  predicate Sends(node: Node) {
    node.peer.applying <==> node.sending.Some?
  }

  lemma ElectionApplying(s: Cluster, a: Action)
    requires Enabled(s, a) && Elects(a)
    ensures |Do(s, a).nodes| == |s.nodes|
    ensures Do(s, a).nodes[a.p].peer.applying == s.nodes[a.p].peer.applying
    ensures Do(s, a).nodes[a.p].sending == s.nodes[a.p].sending
  {
  }

  lemma AppendApplying(P: Peer, a: AppendArgs)
    requires |P.logs| > 0
    ensures HandleAppend(P, a).0.applying == P.applying
  {
  }

  lemma ReplyApplying(P: Peer, me: nat, from: nat, a: AppendArgs, r: AppendReply)
    requires me < |P.matchIndex| && from < |P.nextIndex| == |P.matchIndex|
    ensures OnAppendReply(P, me, from, a, r).applying == P.applying
  {
  }

  lemma StepSends(s: Cluster, a: Action)
    requires Enabled(s, a) && Sends(s.nodes[a.p])
    ensures |Do(s, a).nodes| == |s.nodes| && Sends(Do(s, a).nodes[a.p])
  {
    var P := s.nodes[a.p].peer;
    if Elects(a) {
      ElectionApplying(s, a);
    } else {
      match a {
        case GetAppend(_, m) => AppendApplying(P, m.append);
        case GetAppendReply(p, m) => ReplyApplying(P, p, m.from, m.append, m.appendReply);
        case _ =>
      }
    }
  }

  lemma {:induction false} RunSends(run: seq<Cluster>, actions: seq<Action>, n: nat, k: nat, p: nat)
    requires IsRun(run, actions, n) && k < |run| && p < n
    ensures |run[k].nodes| == n && Sends(run[k].nodes[p])
  {
    if k > 0 {
      RunSends(run, actions, n, k - 1, p);
      assert StepAt(run, actions, k - 1);
      if actions[k - 1].p == p {
        StepSends(run[k - 1], actions[k - 1]);
      } else {
        OthersStay(run[k - 1], actions[k - 1]);
      }
    }
  }

  lemma ReachableSends(s: Cluster, n: nat, p: nat)
    requires Reachable(s, n) && p < n
    ensures |s.nodes| == n && Sends(s.nodes[p])
  {
    var run, actions :| EndsIn(run, actions, n, s);
    RunSends(run, actions, n, |actions|, p);
  }

  /** No batch is on its way, and no snapshot. */
  predicate Calm(P: Peer) {
    !P.applying && !P.snapshotInFlight
  }

  /** What the peer is to the protocol stays. */
  predicate SamePeer(P: Peer, P': Peer) {
    P' == P.(applying := P'.applying, snapshotInFlight := P'.snapshotInFlight, lastApplied := P'.lastApplied)
  }

  /** A peer can finish what it is handing to its service. */
  lemma CanCalm(start: Cluster, n: nat, s: Cluster, p: nat) returns (t: Cluster)
    requires On(start, n, s) && p < n == |s.nodes|
    ensures On(start, n, t) && |t.nodes| == n && (forall q :: 0 <= q < n && q != p ==> t.nodes[q] == s.nodes[q])
    ensures SamePeer(s.nodes[p].peer, t.nodes[p].peer) && Calm(t.nodes[p].peer)
  {
    WellFormedNow(s, n);
    var a := SnapshotHandedOver(p);
    Go(start, n, s, a);
    OthersStay(s, a);
    t := Do(s, a);
    ReachableSends(t, n, p);
    if t.nodes[p].peer.applying {
      var u := t;
      WellFormedNow(u, n);
      EndApplyRule(u, n, p);
      Go(start, n, u, EndApply(p));
      OthersStay(u, EndApply(p));
      t := Do(u, EndApply(p));
    }
  }
}
