/**
 The doubly linked list of entries (porcupine/checker.go).  A lifted call and its return
 leave the list but keep their own links, so that `Unlift` can put them back.
 */
module EntryList {
  import opened Linearization
  import opened EntryHistory

  datatype Option<T> = None | Some(value: T)

  class Node<V> {
    const value: Option<V>
    const match_: Node?<V>
    const id: int
    var next: Node?<V>
    var prev: Node?<V>

    constructor (value: Option<V>, match_: Node?<V>, id: int)
      ensures this.value == value && this.match_ == match_ && this.id == id && next == null && prev == null
    {
      this.value, this.match_, this.id := value, match_, id;
      next, prev := null, null;
    }
  }

  // ----- Chains ----------------------------------------------------------------------

  function Remove<T>(s: seq<T>, i: nat): (r: seq<T>)
    requires i < |s|
    ensures |r| == |s| - 1
    ensures forall k :: 0 <= k < |r| ==> r[k] == s[if k < i then k else k + 1]
  {
    s[..i] + s[i + 1..]
  }

  predicate DistinctNodes<V>(ns: seq<Node<V>>) {
    forall i, j :: 0 <= i < j < |ns| ==> ns[i] != ns[j]
  }

  function After<V>(ns: seq<Node<V>>, k: nat): Node?<V>
    requires k < |ns|
  {
    if k + 1 < |ns| then ns[k + 1] else null
  }

  ghost predicate At<V>(ns: seq<Node<V>>, k: nat)
    requires k < |ns|
    reads ns[k]
  {
    ns[k].next == After(ns, k) && (k > 0 ==> ns[k].prev == ns[k - 1])
  }

  /** The nodes are linked in this order. */
  ghost predicate Chain<V>(ns: seq<Node<V>>)
    reads ns
  {
    forall k {:trigger At(ns, k)} :: 0 <= k < |ns| ==> At(ns, k)
  }

  method Unlink<V>(n: Node<V>, ghost ns: seq<Node<V>>, ghost i: nat)
    requires DistinctNodes(ns) && Chain(ns) && 0 < i < |ns| && ns[i] == n
    modifies ns
    ensures Chain(Remove(ns, i)) && At(ns, i)
  {
    assert At(ns, i - 1) && At(ns, i) && (i + 1 < |ns| ==> At(ns, i + 1));
    n.prev.next := n.next;
    if n.next != null {
      n.next.prev := n.prev;
    }
    ghost var r := Remove(ns, i);
    forall k | 0 <= k < |r| ensures At(r, k) {
      assert old(At(ns, if k < i then k else k + 1));
    }
  }

  /** A node that still knows its neighbours goes back between them. */
  method Relink<V>(n: Node<V>, ghost ns: seq<Node<V>>, ghost i: nat)
    requires DistinctNodes(ns) && 0 < i < |ns| && ns[i] == n && Chain(Remove(ns, i)) && At(ns, i)
    modifies ns
    ensures Chain(ns)
  {
    n.prev.next := n;
    if n.next != null {
      n.next.prev := n;
    }
    ghost var r := Remove(ns, i);
    forall k | 0 <= k < |ns| ensures At(ns, k) {
      assert k == i || old(At(r, if k < i then k else k - 1));
    }
  }

  // ----- lift and unlift -------------------------------------------------------------

  /** The list without the pair at i and j. */
  function Drop<T>(s: seq<T>, i: nat, j: nat): (r: seq<T>)
    requires i < j < |s|
    ensures |r| == |s| - 2
  {
    Remove(Remove(s, i), j - 1)
  }

  /** The pair at i and j is out of the list and remembers where it was. */
  ghost predicate Parked<V>(ns: seq<Node<V>>, i: nat, j: nat)
    requires 0 < i < j < |ns|
    reads ns[i], ns[j]
  {
    At(ns, i) && At(Remove(ns, i), j - 1)
  }

  method Lift<V>(entry: Node<V>, ghost ns: seq<Node<V>>, ghost i: nat, ghost j: nat)
    requires DistinctNodes(ns) && Chain(ns) && 0 < i < j < |ns| && ns[i] == entry && entry.match_ == ns[j]
    modifies ns
    ensures Chain(Drop(ns, i, j)) && Parked(ns, i, j)
  {
    Unlink(entry, ns, i);
    assert entry !in Remove(ns, i);
    Unlink(entry.match_, Remove(ns, i), j - 1);
  }

  method Unlift<V>(entry: Node<V>, ghost ns: seq<Node<V>>, ghost i: nat, ghost j: nat)
    requires DistinctNodes(ns) && 0 < i < j < |ns| && ns[i] == entry && entry.match_ == ns[j]
    requires Chain(Drop(ns, i, j)) && Parked(ns, i, j)
    modifies ns
    ensures Chain(ns)
  {
    assert entry !in Remove(ns, i);
    Relink(entry.match_, Remove(ns, i), j - 1);
    Relink(entry, ns, i);
  }

  // ----- Building the list -----------------------------------------------------------

  method InsertBefore<V>(n: Node<V>, mark: Node?<V>)
    requires mark != null ==> n != mark && mark.prev != n && mark.prev != mark
    modifies n, mark, if mark != null then mark.prev else null
    ensures mark == null ==> unchanged(n)
    ensures mark != null ==>
              && n.next == mark && mark.prev == n && mark.next == old(mark.next)
              && n.prev == (if old(mark.prev) != null then old(mark.prev) else old(n.prev))
              && (old(mark.prev) != null ==> old(mark.prev).next == n && old(mark.prev).prev == old(mark.prev.prev))
  {
    if mark != null {
      var beforeMark := mark.prev;
      mark.prev := n;
      n.next := mark;
      if beforeMark != null {
        n.prev := beforeMark;
        beforeMark.next := n;
      }
    }
  }

  /** ns[k] stands for entry `from + k`; the return of a call in the list is its match. */
  ghost predicate Mirrors<V>(ns: seq<Node<V>>, h: Entries<V>, from: nat)
    requires from + |ns| == |h|
  {
    forall k {:trigger Mirror(ns, h, from, k)} :: 0 <= k < |ns| ==> Mirror(ns, h, from, k)
  }

  ghost predicate Mirror<V>(ns: seq<Node<V>>, h: Entries<V>, from: nat, k: nat)
    requires from + |ns| == |h| && k < |ns|
  {
    var e := h[from + k];
    && ns[k].value == Some(e.value) && ns[k].id == e.id
    && if e.kind.ReturnEntry? then ns[k].match_ == null
       else from <= ReturnAt(h, e.id) < |h| && ns[k].match_ == ns[ReturnAt(h, e.id) - from]
  }

  /** In front of a chain whose first node has no predecessor. */
  method Prepend<V>(n: Node<V>, root: Node?<V>, ghost ns: seq<Node<V>>)
    requires Chain(ns) && DistinctNodes(ns) && n !in ns && n.next == n.prev == null
    requires if ns == [] then root == null else root == ns[0] && root.prev == null
    modifies n, ns
    ensures Chain([n] + ns) && n.prev == null
  {
    assert ns != [] ==> At(ns, 0);
    InsertBefore(n, root);
    forall k | 0 <= k < |ns| + 1 ensures At([n] + ns, k) {
      assert k == 0 || old(At(ns, k - 1));
    }
  }

  /** The returns seen so far, by id. */
  ghost predicate Seen<V>(returns_: map<nat, Node<V>>, ns: seq<Node<V>>, h: Entries<V>, from: nat)
    requires from + |ns| == |h|
  {
    forall k :: from <= k < |h| && h[k].kind.ReturnEntry? ==> h[k].id in returns_ && returns_[h[k].id] == ns[k - from]
  }

  lemma MirrorStep<V>(n: Node<V>, ns: seq<Node<V>>, h: Entries<V>, i: nat, returns_: map<nat, Node<V>>)
    requires i + 1 + |ns| == |h| && Mirrors(ns, h, i + 1) && Seen(returns_, ns, h, i + 1)
    requires n.value == Some(h[i].value) && n.id == h[i].id
    requires h[i].kind.ReturnEntry? ==> n.match_ == null
    requires h[i].kind.CallEntry? ==>
               i < ReturnAt(h, h[i].id) < |h| && h[i].id in returns_ && n.match_ == returns_[h[i].id]
    ensures Mirrors([n] + ns, h, i)
  {
    forall k | 0 <= k < |ns| + 1 ensures Mirror([n] + ns, h, i, k) {
      assert k == 0 || Mirror(ns, h, i + 1, k - 1);
    }
  }

  lemma SeenStep<V>(n: Node<V>, ns: seq<Node<V>>, h: Entries<V>, i: nat, returns_: map<nat, Node<V>>)
    requires i + 1 + |ns| == |h| && Seen(returns_, ns, h, i + 1)
    requires h[i].kind.ReturnEntry? ==> ReturnAt(h, h[i].id) == i
    requires forall k :: i < k < |h| && h[k].kind.ReturnEntry? ==> ReturnAt(h, h[k].id) == k
    ensures Seen(if h[i].kind.ReturnEntry? then returns_[h[i].id := n] else returns_, [n] + ns, h, i)
  {
  }

  method MakeLinkedEntries<V>(h: Entries<V>) returns (root: Node?<V>, ghost ns: seq<Node<V>>)
    requires WellFormed(h)
    ensures |ns| == |h| && fresh(ns) && DistinctNodes(ns) && Chain(ns) && Mirrors(ns, h, 0)
    ensures if ns == [] then root == null else root == ns[0] && root.prev == null
  {
    root, ns := null, [];
    var returns_: map<nat, Node<V>> := map[];
    var i := |h|;
    while i > 0
      invariant 0 <= i <= |h| && i + |ns| == |h|
      invariant fresh(ns) && DistinctNodes(ns) && Chain(ns)
      invariant Mirrors(ns, h, i) && Seen(returns_, ns, h, i)
      invariant if ns == [] then root == null else root == ns[0] && root.prev == null
    {
      i := i - 1;
      var e := h[i];
      forall k | i <= k < |h| && h[k].kind.ReturnEntry? ensures ReturnAt(h, h[k].id) == k {
        Placed(h, k);
      }
      Placed(h, i);
      assert e.kind.CallEntry? ==> h[ReturnAt(h, e.id)].id == e.id;
      var n := new Node(Some(e.value), if e.kind.ReturnEntry? then null else returns_[e.id], e.id);
      MirrorStep(n, ns, h, i, returns_);
      SeenStep(n, ns, h, i, returns_);
      if e.kind.ReturnEntry? {
        returns_ := returns_[e.id := n];
      }
      Prepend(n, root, ns);
      root, ns := n, [n] + ns;
    }
  }

  method Length<V>(n: Node?<V>, ghost ns: seq<Node<V>>) returns (l: nat)
    requires Chain(ns) && (if ns == [] then n == null else n == ns[0])
    ensures l == |ns|
  {
    l := 0;
    var m := n;
    while m != null
      invariant l <= |ns| && m == if l < |ns| then ns[l] else null
      decreases |ns| - l
    {
      assert At(ns, l);
      m := m.next;
      l := l + 1;
    }
  }
}
