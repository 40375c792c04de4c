/**
 What a key/value server restores after a crash: the state that it saved last or last took
 in from the leader, and nothing it did since (kvraft/server.go, raft/persister.go).
 */
module KvRestore {
  import opened RaftPeer
  import opened RaftCluster
  import opened KvSystem

  // ----- The latest of some values ---------------------------------------------------

  /** v is the last value there is, or blank if there is none. */
  predicate Latest<T(==)>(s: seq<Option<T>>, blank: T, v: T) {
    && ((forall i :: 0 <= i < |s| ==> s[i].None?) ==> v == blank)
    && (forall j :: 0 <= j < |s| && s[j].Some? && (forall i :: j < i < |s| ==> s[i].None?) ==> v == s[j].value)
  }

  lemma LatestMore<T>(s: seq<Option<T>>, x: Option<T>, blank: T, v: T)
    requires Latest(s, blank, v)
    ensures Latest(s + [x], blank, if x.Some? then x.value else v)
  {
    var r := s + [x];
    forall j | 0 <= j < |r| && r[j].Some? && (forall i :: j < i < |r| ==> r[i].None?)
      ensures (if x.Some? then x.value else v) == r[j].value
    {
      assert j < |s| ==> r[|s|] == x && forall i :: j < i < |s| ==> s[i] == r[i];
    }
    if forall i :: 0 <= i < |r| ==> r[i].None? {
      assert r[|s|] == x && forall i :: 0 <= i < |s| ==> s[i] == r[i];
    }
  }

  // ----- Snapshots that a peer keeps -------------------------------------------------

  /** The snapshot that a step leaves with peer p: its service saves one that Raft wants, or
      takes one in. */
  function Left(x: System, e: Event, p: nat): Option<Image> {
    if p >= |x.services| || p >= |x.raft.nodes| then None
    else
      match e
      case SaveSnapshot(q) =>
        if q == p && x.services[p].hand.Some? && Stores(x.raft.nodes[p].peer, x.services[p].hand.value)
        then Some(x.services[p].now) else None
      case TakeIn(q, args, image) => if q == p && Accepts(x.raft.nodes[p].peer, args) then Some(image) else None
      case Raft(_) => None
      case Deliver(_) => None
  }

  /** What each of the first k steps leaves. */
  function AllLeft(run: seq<System>, events: seq<Event>, p: nat, k: nat): seq<Option<Image>>
    requires k <= |events| <= |run|
  {
    seq(k, i requires 0 <= i < k => Left(run[i], events[i], p))
  }

  /** im is the snapshot left last in the first k steps. */
  predicate IsKept(run: seq<System>, events: seq<Event>, p: nat, k: nat, im: Image) {
    k <= |events| <= |run| && Latest(AllLeft(run, events, p, k), BLANK, im)
  }

  lemma Sizes(decode: Decode, x: System, e: Event)
    requires Possible(x, e)
    ensures |Next(decode, x, e).services| == |x.services|
  {
  }

  lemma DiskStep(decode: Decode, x: System, e: Event, p: nat)
    requires Possible(x, e) && p < |x.services|
    ensures |Next(decode, x, e).services| == |x.services|
    ensures Next(decode, x, e).services[p].disk == if Left(x, e, p).Some? then Left(x, e, p).value else x.services[p].disk
  {
    Sizes(decode, x, e);
  }

  lemma RestartStep(decode: Decode, x: System, p: nat)
    requires Possible(x, Raft(Restart(p))) && p < |x.services|
    ensures |Next(decode, x, Raft(Restart(p))).services| == |x.services|
    ensures Next(decode, x, Raft(Restart(p))).services[p] == Service(x.services[p].disk, x.services[p].disk, [], None)
  {
  }

  lemma DiskAt(decode: Decode, run: seq<System>, events: seq<Event>, p: nat, k: nat)
    requires Goes(decode, run, events) && k < |events| && p < |run[k].services|
    ensures |run[k + 1].services| == |run[k].services|
    ensures var left := Left(run[k], events[k], p);
            run[k + 1].services[p].disk == if left.Some? then left.value else run[k].services[p].disk
  {
    assert Happens(decode, run, events, k);
    DiskStep(decode, run[k], events[k], p);
  }

  lemma AllLeftMore(run: seq<System>, events: seq<Event>, p: nat, k: nat)
    requires k < |events| <= |run|
    ensures AllLeft(run, events, p, k + 1) == AllLeft(run, events, p, k) + [Left(run[k], events[k], p)]
  {
  }

  lemma LatestAtStart(run: seq<System>, events: seq<Event>, n: nat, p: nat)
    requires |events| < |run| && run[0] == Start(n) && p < n
    ensures |run[0].services| == n && IsKept(run, events, p, 0, run[0].services[p].disk)
  {
  }

  lemma LatestAt(decode: Decode, run: seq<System>, events: seq<Event>, p: nat, k: nat)
    requires Goes(decode, run, events) && k < |events| && p < |run[k].services|
    requires IsKept(run, events, p, k, run[k].services[p].disk)
    ensures |run[k + 1].services| == |run[k].services|
    ensures IsKept(run, events, p, k + 1, run[k + 1].services[p].disk)
  {
    DiskAt(decode, run, events, p, k);
    LatestMore(AllLeft(run, events, p, k), Left(run[k], events[k], p), BLANK, run[k].services[p].disk);
    AllLeftMore(run, events, p, k);
  }

  /** In every run the stored snapshot is the one left last. */
  lemma {:induction false} DiskIsLast(decode: Decode, run: seq<System>, events: seq<Event>, n: nat, p: nat, k: nat)
    requires Goes(decode, run, events) && run[0] == Start(n) && p < n && k < |run|
    ensures |run[k].services| == n && IsKept(run, events, p, k, run[k].services[p].disk)
  {
    if k == 0 {
      LatestAtStart(run, events, n, p);
    } else {
      DiskIsLast(decode, run, events, n, p, k - 1);
      LatestAt(decode, run, events, p, k - 1);
    }
  }

  /** In every run, careful or not, a restarted service holds exactly the state left last,
      has nothing to receive, and saves nothing before it has received something. */
  lemma RestoresLast(decode: Decode, run: seq<System>, events: seq<Event>, n: nat, p: nat, k: nat)
    requires Goes(decode, run, events) && run[0] == Start(n) && p < n && k < |events| && events[k] == Raft(Restart(p))
    ensures |run[k + 1].services| == n
    ensures var svc := run[k + 1].services[p];
            && IsKept(run, events, p, k, svc.now)
            && svc.disk == svc.now && svc.queue == [] && svc.hand.None?
  {
    DiskIsLast(decode, run, events, n, p, k);
    assert Happens(decode, run, events, k);
    RestartStep(decode, run[k], p);
  }
}
