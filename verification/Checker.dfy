/**
 checkSingle (porcupine/checker.go): the depth-first search for a linearization, with the
 linked list, the bitset, the cache and the stack of calls changed in place.
 */
module Checker {
  import opened Linearization
  import opened EntryHistory
  import opened EntryList
  import opened CheckerSearch
  import opened CheckerPaths
  import opened CheckerPartial
  import Bitset

  datatype CacheEntry<S> = CacheEntry(linearized: Bitset.Words, state: S)

  type Cache<S> = map<Bitset.Word, seq<CacheEntry<S>>>

  // ----- The cache -------------------------------------------------------------------

  predicate Stored<S(==)>(cache: Cache<S>, e: CacheEntry<S>) {
    var k := Bitset.HashOf(e.linearized);
    k in cache && e in cache[k]
  }

  /** The table holds exactly `pairs`, each under the hash of its bitset. */
  ghost predicate Represents<S(!new)>(cache: Cache<S>, pairs: set<Pair<S>>, length: nat) {
    && (forall k, i :: k in cache && 0 <= i < |cache[k]| ==> EntryOK(cache, pairs, length, k, i))
    && (forall p {:trigger p in pairs} :: p in pairs ==> exists e :: Stored(cache, e) && (Bitset.Elements(e.linearized), e.state) == p)
  }

  ghost predicate EntryOK<S>(cache: Cache<S>, pairs: set<Pair<S>>, length: nat, k: Bitset.Word, i: nat)
    requires k in cache && i < |cache[k]|
  {
    var e := cache[k][i];
    k == Bitset.HashOf(e.linearized) && |e.linearized| == length && (Bitset.Elements(e.linearized), e.state) in pairs
  }

  /** A cached pair is in the bucket of its bitset. */
  lemma StoredThere<S(!new)>(cache: Cache<S>, pairs: set<Pair<S>>, words: Bitset.Words, state: S)
    requires Represents(cache, pairs, |words|) && (Bitset.Elements(words), state) in pairs
    ensures Stored(cache, CacheEntry(words, state))
  {
    var e :| Stored(cache, e) && (Bitset.Elements(e.linearized), e.state) == (Bitset.Elements(words), state);
    var k := Bitset.HashOf(e.linearized);
    var i :| 0 <= i < |cache[k]| && cache[k][i] == e;
    assert EntryOK(cache, pairs, |words|, k, i);
    Bitset.SameElements(words, e.linearized);
  }

  lemma StoredIff<S(!new)>(cache: Cache<S>, pairs: set<Pair<S>>, words: Bitset.Words, state: S)
    requires Represents(cache, pairs, |words|)
    ensures Stored(cache, CacheEntry(words, state)) <==> (Bitset.Elements(words), state) in pairs
  {
    if (Bitset.Elements(words), state) in pairs {
      StoredThere(cache, pairs, words, state);
    }
    if Stored(cache, CacheEntry(words, state)) {
      var k := Bitset.HashOf(words);
      var i :| 0 <= i < |cache[k]| && cache[k][i] == CacheEntry(words, state);
      assert EntryOK(cache, pairs, |words|, k, i);
    }
  }

  /** The search through the bucket of the hash. */
  method InBucket<S(==)>(cache: Cache<S>, linearized: array<Bitset.Word>, state: S) returns (found: bool)
    ensures found <==> Stored(cache, CacheEntry(linearized[..], state))
  {
    var hash := Bitset.Hash(linearized);
    if hash !in cache {
      return false;
    }
    for i := 0 to |cache[hash]|
      invariant forall k :: 0 <= k < i ==> cache[hash][k] != CacheEntry(linearized[..], state)
    {
      var same := Bitset.Equals(linearized, cache[hash][i].linearized);
      if same && state == cache[hash][i].state {
        return true;
      }
    }
    return false;
  }

  method CacheContains<S(==, !new)>(cache: Cache<S>, linearized: array<Bitset.Word>, state: S, ghost pairs: set<Pair<S>>)
      returns (found: bool)
    requires Represents(cache, pairs, linearized.Length)
    ensures found <==> (Bitset.Elements(linearized[..]), state) in pairs
  {
    found := InBucket(cache, linearized, state);
    StoredIff(cache, pairs, linearized[..], state);
  }

  method CacheAdd<S(==, !new)>(cache: Cache<S>, linearized: array<Bitset.Word>, state: S, ghost pairs: set<Pair<S>>)
      returns (next: Cache<S>)
    requires Represents(cache, pairs, linearized.Length)
    ensures Represents(next, pairs + {(Bitset.Elements(linearized[..]), state)}, linearized.Length)
  {
    var hash := Bitset.Hash(linearized);
    var e := CacheEntry(linearized[..], state);
    next := cache[hash := (if hash in cache then cache[hash] else []) + [e]];
    ghost var pairs' := pairs + {(Bitset.Elements(linearized[..]), state)};
    forall k, i | k in next && 0 <= i < |next[k]| ensures EntryOK(next, pairs', linearized.Length, k, i) {
      if k in cache && i < |cache[k]| {
        assert EntryOK(cache, pairs, linearized.Length, k, i);
      }
    }
    forall p | p in pairs' ensures exists e :: Stored(next, e) && (Bitset.Elements(e.linearized), e.state) == p {
      if p in pairs {
        var f :| Stored(cache, f) && (Bitset.Elements(f.linearized), f.state) == p;
        assert Stored(next, f);
      } else {
        assert next[hash][|next[hash]| - 1] == e;
        assert Stored(next, e);
      }
    }
  }

  // ----- The list on the heap --------------------------------------------------------

  predicate InRange(L: seq<nat>, n: nat) {
    forall i :: 0 <= i < |L| ==> L[i] < n
  }

  function Pick<V>(nodes: seq<Node<V>>, L: seq<nat>): (ns: seq<Node<V>>)
    requires InRange(L, |nodes|)
    ensures |ns| == |L| && forall k :: 0 <= k < |L| ==> ns[k] == nodes[L[k]]
  {
    seq(|L|, k requires 0 <= k < |L| => nodes[L[k]])
  }

  lemma PickDrop<V>(nodes: seq<Node<V>>, L: seq<nat>, i: nat, j: nat)
    requires InRange(L, |nodes|) && i < j < |L|
    ensures InRange(Drop(L, i, j), |nodes|) && Pick(nodes, Drop(L, i, j)) == Drop(Pick(nodes, L), i, j)
  {
  }

  /** Node 0 is the head, node p + 1 is entry p. */
  ghost predicate NodesOK<V>(nodes: seq<Node<V>>, h: Entries<V>) {
    && |nodes| == |h| + 1 && DistinctNodes(nodes)
    && nodes[0].match_ == null && Mirrors(nodes[1..], h, 0)
  }

  lemma NodeAt<V>(nodes: seq<Node<V>>, h: Entries<V>, p: nat)
    requires NodesOK(nodes, h) && 0 < p <= |h|
    ensures nodes[p].value == Some(h[p - 1].value) && nodes[p].id == h[p - 1].id
    ensures h[p - 1].kind.ReturnEntry? ==> nodes[p].match_ == null
    ensures h[p - 1].kind.CallEntry? ==>
              ReturnAt(h, h[p - 1].id) < |h| && nodes[p].match_ == nodes[ReturnAt(h, h[p - 1].id) + 1]
  {
    assert Mirror(nodes[1..], h, 0, p - 1);
  }

  ghost predicate ParkedLevel<S, V>(nodes: seq<Node<V>>, v: Level<S>)
    reads nodes
  {
    InRange(v.list, |nodes|) && 0 < v.at < v.ret < |v.list| && Parked(Pick(nodes, v.list), v.at, v.ret)
  }

  /** The list of the top level is linked; the calls of the levels below are parked. */
  ghost predicate HeapOK<S, V>(nodes: seq<Node<V>>, levels: seq<Level<S>>)
    reads nodes
  {
    && |levels| > 0 && InRange(Last(levels).list, |nodes|) && Chain(Pick(nodes, Last(levels).list))
    && forall d {:trigger ParkedLevel(nodes, levels[d])} :: 0 <= d < |levels| - 1 ==> ParkedLevel(nodes, levels[d])
  }

  predicate Away<S>(v: Level<S>, L: seq<nat>) {
    0 < v.at < v.ret < |v.list| && v.list[v.at] !in L && v.list[v.ret] !in L
  }

  /** What a lower level has parked is not in the list of the top level. */
  lemma Apart<S, V>(M: Model<S, V>, h: Entries<V>, levels: seq<Level<S>>, d: nat)
    requires WellFormed(h) && StackOK(M, h, levels) && d < |levels| - 1
    ensures Away(levels[d], Last(levels).list)
  {
    var v, top := levels[d], Last(levels);
    assert PushedAt(M, h, levels, d) && LevelOK(M, h, levels[d]) && LevelOK(M, h, levels[|levels| - 1]);
    DoneGrows(M, h, levels, d, |levels| - 1);
    assert h[v.list[v.ret] - 1].id == IdAt(h, v.list, v.at);
    assert !InList(top.list, v.list[v.at]) && !InList(top.list, v.list[v.ret]);
  }

  lemma NotPicked<V>(nodes: seq<Node<V>>, L: seq<nat>, p: nat)
    requires DistinctNodes(nodes) && InRange(L, |nodes|) && p < |nodes| && p !in L
    ensures nodes[p] !in Pick(nodes, L)
  {
  }

  lemma PickDistinct<V>(nodes: seq<Node<V>>, L: seq<nat>)
    requires DistinctNodes(nodes) && InRange(L, |nodes|) && Increasing(L)
    ensures DistinctNodes(Pick(nodes, L))
  {
  }

  ghost predicate AllParked<S, V>(nodes: seq<Node<V>>, lower: seq<Level<S>>)
    reads nodes
  {
    forall d {:trigger ParkedLevel(nodes, lower[d])} :: 0 <= d < |lower| ==> ParkedLevel(nodes, lower[d])
  }

  ghost predicate AllAway<S>(lower: seq<Level<S>>, L: seq<nat>) {
    forall d {:trigger Away(lower[d], L)} :: 0 <= d < |lower| ==> Away(lower[d], L)
  }

  lemma LowerAway<S, V>(M: Model<S, V>, h: Entries<V>, levels: seq<Level<S>>)
    requires WellFormed(h) && StackOK(M, h, levels)
    ensures AllAway(levels[..|levels| - 1], Last(levels).list)
  {
    var lower := levels[..|levels| - 1];
    forall d | 0 <= d < |lower| ensures Away(lower[d], Last(levels).list) {
      Apart(M, h, levels, d);
    }
  }

  method LiftAt<S, V>(entry: Node<V>, ghost nodes: seq<Node<V>>, ghost L: seq<nat>, ghost i: nat, ghost j: nat,
                      ghost lower: seq<Level<S>>)
    requires DistinctNodes(nodes) && InRange(L, |nodes|) && Increasing(L) && Chain(Pick(nodes, L))
    requires 0 < i < j < |L| && entry == nodes[L[i]] && entry.match_ == nodes[L[j]]
    requires AllParked(nodes, lower) && AllAway(lower, L)
    modifies nodes
    ensures InRange(Drop(L, i, j), |nodes|) && Chain(Pick(nodes, Drop(L, i, j))) && Parked(Pick(nodes, L), i, j)
    ensures AllParked(nodes, lower)
  {
    PickDistinct(nodes, L);
    PickDrop(nodes, L, i, j);
    Lift(entry, Pick(nodes, L), i, j);
    forall d | 0 <= d < |lower| ensures ParkedLevel(nodes, lower[d]) {
      assert old(ParkedLevel(nodes, lower[d])) && Away(lower[d], L);
      NotPicked(nodes, L, lower[d].list[lower[d].at]);
      NotPicked(nodes, L, lower[d].list[lower[d].ret]);
    }
  }

  method UnliftAt<S, V>(entry: Node<V>, ghost nodes: seq<Node<V>>, ghost L: seq<nat>, ghost i: nat, ghost j: nat,
                        ghost lower: seq<Level<S>>)
    requires DistinctNodes(nodes) && InRange(L, |nodes|) && Increasing(L)
    requires 0 < i < j < |L| && entry == nodes[L[i]] && entry.match_ == nodes[L[j]]
    requires InRange(Drop(L, i, j), |nodes|) && Chain(Pick(nodes, Drop(L, i, j))) && Parked(Pick(nodes, L), i, j)
    requires AllParked(nodes, lower) && AllAway(lower, L)
    modifies nodes
    ensures Chain(Pick(nodes, L)) && AllParked(nodes, lower)
  {
    PickDistinct(nodes, L);
    PickDrop(nodes, L, i, j);
    Unlift(entry, Pick(nodes, L), i, j);
    forall d | 0 <= d < |lower| ensures ParkedLevel(nodes, lower[d]) {
      assert old(ParkedLevel(nodes, lower[d])) && Away(lower[d], L);
      NotPicked(nodes, L, lower[d].list[lower[d].at]);
      NotPicked(nodes, L, lower[d].list[lower[d].ret]);
    }
  }

  /** The call the top level looks at, and its return, leave the list. */
  method LiftTop<S, V>(entry: Node<V>, ghost M: Model<S, V>, ghost h: Entries<V>, ghost nodes: seq<Node<V>>,
                       ghost levels: seq<Level<S>>, ghost ret: nat, ghost w: Level<S>)
    requires WellFormed(h) && NodesOK(nodes, h) && StackOK(M, h, levels) && HeapOK(nodes, levels)
    requires Pushed(M, h, Last(levels).(ret := ret), w) && entry == nodes[Last(levels).list[Last(levels).at]]
    modifies nodes
    ensures HeapOK(nodes, Grown(levels, ret, w))
  {
    ghost var v := Last(levels);
    assert LevelOK(M, h, levels[|levels| - 1]);
    LowerAway(M, h, levels);
    NodeAt(nodes, h, v.list[v.at]);
    LiftAt(entry, nodes, v.list, v.at, ret, levels[..|levels| - 1]);
    ghost var next := Grown(levels, ret, w);
    forall d | 0 <= d < |next| - 1 ensures ParkedLevel(nodes, next[d]) {
      assert d < |levels| - 1 ==> ParkedLevel(nodes, levels[..|levels| - 1][d]);
    }
  }

  lemma LowerParked<S, V>(nodes: seq<Node<V>>, levels: seq<Level<S>>, m: nat)
    requires HeapOK(nodes, levels) && m < |levels|
    ensures AllParked(nodes, levels[..m])
  {
    forall d | 0 <= d < m ensures ParkedLevel(nodes, levels[..m][d]) {
      assert ParkedLevel(nodes, levels[d]);
    }
  }

  /** What unlifting the top call needs to know about the level below. */
  lemma Undoable<S, V>(M: Model<S, V>, h: Entries<V>, nodes: seq<Node<V>>, levels: seq<Level<S>>)
    requires WellFormed(h) && NodesOK(nodes, h) && StackOK(M, h, levels) && |levels| > 1
    ensures var v := levels[|levels| - 2];
            && 0 < v.at < v.ret < |v.list| && Increasing(v.list) && InRange(v.list, |nodes|)
            && nodes[v.list[v.at]].match_ == nodes[v.list[v.ret]]
            && Last(levels).list == Drop(v.list, v.at, v.ret)
            && AllAway(levels[..|levels| - 2], v.list)
  {
    var m := |levels| - 2;
    assert PushedAt(M, h, levels, m) && LevelOK(M, h, levels[m]);
    NodeAt(nodes, h, levels[m].list[levels[m].at]);
    StackBelow(M, h, levels);
    LowerAway(M, h, levels[..m + 1]);
    assert levels[..m + 1][..m] == levels[..m];
  }

  /** The top call and its return go back to where they were. */
  method UnliftTop<S, V>(entry: Node<V>, ghost M: Model<S, V>, ghost h: Entries<V>, ghost nodes: seq<Node<V>>,
                         ghost levels: seq<Level<S>>)
    requires WellFormed(h) && NodesOK(nodes, h) && StackOK(M, h, levels) && HeapOK(nodes, levels) && |levels| > 1
    requires var v := levels[|levels| - 2]; v.at < |v.list| && InRange(v.list, |nodes|) && entry == nodes[v.list[v.at]]
    modifies nodes
    ensures HeapOK(nodes, levels[..|levels| - 1])
  {
    ghost var m := |levels| - 2;
    ghost var v := levels[m];
    Undoable(M, h, nodes, levels);
    LowerParked(nodes, levels, m);
    assert ParkedLevel(nodes, levels[m]);
    UnliftAt(entry, nodes, v.list, v.at, v.ret, levels[..m]);
    ghost var below := levels[..m + 1];
    forall d | 0 <= d < m ensures ParkedLevel(nodes, below[d]) {
      assert ParkedLevel(nodes, levels[..m][d]);
    }
  }

  lemma StackBelow<S, V>(M: Model<S, V>, h: Entries<V>, levels: seq<Level<S>>)
    requires WellFormed(h) && StackOK(M, h, levels) && |levels| > 1
    ensures StackOK(M, h, levels[..|levels| - 1])
  {
    var below := levels[..|levels| - 1];
    forall d | 0 <= d < |below| ensures LevelOK(M, h, below[d]) {
      assert LevelOK(M, h, levels[d]);
    }
    forall d | 0 <= d < |below| - 1 ensures PushedAt(M, h, below, d) {
      assert PushedAt(M, h, levels, d);
    }
  }

  // ----- checkSingle -----------------------------------------------------------------

  datatype CallsEntry<S, V> = CallsEntry(entry: Node<V>, state: S)

  /** Everything the loop keeps, apart from its own variables. */
  ghost predicate SearchOK<S(!new), V>(M: Model<S, V>, h: Entries<V>, nodes: seq<Node<V>>, levels: seq<Level<S>>, pairs: set<Pair<S>>)
    reads nodes
  {
    && WellFormed(h) && NodesOK(nodes, h) && StackOK(M, h, levels) && HeapOK(nodes, levels)
    && CacheOK(M, h, levels, pairs) && pairs <= Universe(M, OpsOf(h), |h| / 2)
  }

  ghost predicate EntryIs<S, V>(nodes: seq<Node<V>>, v: Level<S>, entry: Node?<V>) {
    InRange(v.list, |nodes|) && entry == if v.at < |v.list| then nodes[v.list[v.at]] else null
  }

  ghost predicate CallsAre<S, V>(nodes: seq<Node<V>>, levels: seq<Level<S>>, calls: seq<CallsEntry<S, V>>) {
    && |levels| == |calls| + 1
    && forall d {:trigger calls[d]} :: 0 <= d < |calls| ==> calls[d].state == levels[d].state && EntryIs(nodes, levels[d], calls[d].entry)
  }

  /** While entries are left, the one looked at exists. */
  lemma NotAtEnd<S, V>(M: Model<S, V>, h: Entries<V>, v: Level<S>)
    requires WellFormed(h) && LevelOK(M, h, v) && |v.list| > 1
    ensures v.at < |v.list|
  {
    var k := |v.list| - 1;
    if v.at > k {
      assert DeadEnd(M, h, v, k);
      var j := ReturnPlace(h, v.done, v.list, k);
    }
  }

  /** A refused or cached call is a dead end. */
  lemma DeadEndNow<S(!new), V>(M: Model<S, V>, h: Entries<V>, levels: seq<Level<S>>, pairs: set<Pair<S>>)
    requires WellFormed(h) && StackOK(M, h, levels) && CacheOK(M, h, levels, pairs)
    requires Last(levels).at < |Last(levels).list| && IsCall(h, Last(levels).list, Last(levels).at)
    requires IdAt(h, Last(levels).list, Last(levels).at) < |h| / 2
    requires var a := IdAt(h, Last(levels).list, Last(levels).at);
             var next := StepOf(M, OpsOf(h), Last(levels).state, a);
             next.0 ==> (Last(levels).done + {a}, next.1) in pairs
    ensures DeadEnd(M, h, Last(levels), Last(levels).at)
  {
    var v := Last(levels);
    assert LevelOK(M, h, levels[|levels| - 1]);
    var a := IdAt(h, v.list, v.at);
    Listed(h, v.done, v.list, v.at);
    var next := StepOf(M, OpsOf(h), v.state, a);
    if next.0 {
      CachedIsDead(M, h, levels, pairs, a, next.1);
    }
  }

  lemma HeapMoved<S, V>(nodes: seq<Node<V>>, levels: seq<Level<S>>)
    requires HeapOK(nodes, levels)
    ensures HeapOK(nodes, Moved(levels))
  {
    var next := Moved(levels);
    forall d | 0 <= d < |next| - 1 ensures ParkedLevel(nodes, next[d]) {
      assert ParkedLevel(nodes, levels[d]);
    }
  }

  lemma NextEntry<S, V>(nodes: seq<Node<V>>, levels: seq<Level<S>>)
    requires HeapOK(nodes, levels) && Last(levels).at < |Last(levels).list|
    ensures var v := Last(levels); EntryIs(nodes, v.(at := v.at + 1), nodes[v.list[v.at]].next)
  {
    assert At(Pick(nodes, Last(levels).list), Last(levels).at);
  }

  lemma CallsMoved<S, V>(nodes: seq<Node<V>>, levels: seq<Level<S>>, calls: seq<CallsEntry<S, V>>)
    requires CallsAre(nodes, levels, calls)
    ensures CallsAre(nodes, Moved(levels), calls)
  {
  }

  /** entry = entry.next after a dead end. */
  lemma SkipKeeps<S(!new), V>(M: Model<S, V>, h: Entries<V>, nodes: seq<Node<V>>, levels: seq<Level<S>>, pairs: set<Pair<S>>,
                              entry: Node<V>, calls: seq<CallsEntry<S, V>>)
    requires SearchOK(M, h, nodes, levels, pairs) && CallsAre(nodes, levels, calls) && EntryIs(nodes, Last(levels), entry)
    requires Last(levels).at < |Last(levels).list| && DeadEnd(M, h, Last(levels), Last(levels).at)
    ensures SearchOK(M, h, nodes, Moved(levels), pairs) && CallsAre(nodes, Moved(levels), calls)
    ensures EntryIs(nodes, Last(Moved(levels)), entry.next)
  {
    AdvanceOK(M, h, levels, pairs);
    HeapMoved(nodes, levels);
    NextEntry(nodes, levels);
    CallsMoved(nodes, levels, calls);
  }

  /** The level after performing the call looked at. */
  function NextLevel<S, V>(h: Entries<V>, v: Level<S>, ret: nat, q: S): Level<S>
    requires v.at < ret < |v.list| && 0 < v.list[v.at] <= |h|
  {
    Level(v.done + {IdAt(h, v.list, v.at)}, q, Drop(v.list, v.at, ret), 1, 0)
  }

  lemma CallsGrown<S, V>(nodes: seq<Node<V>>, levels: seq<Level<S>>, calls: seq<CallsEntry<S, V>>, ret: nat, w: Level<S>, c: CallsEntry<S, V>)
    requires CallsAre(nodes, levels, calls) && c.state == Last(levels).state && EntryIs(nodes, Last(levels), c.entry)
    ensures CallsAre(nodes, Grown(levels, ret, w), calls + [c])
  {
    forall d | 0 <= d < |calls| + 1
      ensures (calls + [c])[d].state == Grown(levels, ret, w)[d].state && EntryIs(nodes, Grown(levels, ret, w)[d], (calls + [c])[d].entry)
    {
      assert d < |calls| ==> calls[d].state == levels[d].state;
    }
  }

  /** Lifting the entry and taking its successor state. */
  method Push<S(!new), V>(entry: Node<V>, head: Node<V>, ghost M: Model<S, V>, ghost h: Entries<V>, ghost nodes: seq<Node<V>>,
                          ghost levels: seq<Level<S>>, ghost pairs: set<Pair<S>>, ghost ret: nat, ghost q: S)
      returns (first: Node?<V>)
    requires SearchOK(M, h, nodes, levels, pairs) && EntryIs(nodes, Last(levels), entry) && head == nodes[0]
    requires var v := Last(levels);
             && 0 < v.at < ret < |v.list| && IsCall(h, v.list, v.at) && v.list[ret] == ReturnAt(h, IdAt(h, v.list, v.at)) + 1
             && IdAt(h, v.list, v.at) < |h| / 2 && StepOf(M, OpsOf(h), v.state, IdAt(h, v.list, v.at)) == (true, q)
    modifies nodes
    ensures var w := NextLevel(h, Last(levels), ret, q);
            && SearchOK(M, h, nodes, Grown(levels, ret, w), pairs + {PairOf(w)})
            && EntryIs(nodes, w, first)
  {
    ghost var w := NextLevel(h, Last(levels), ret, q);
    PushOK(M, h, levels, pairs, ret, w);
    LevelInUniverse(M, h, Grown(levels, ret, w), |levels|);
    LiftTop(entry, M, h, nodes, levels, ret, w);
    first := head.next;
    assert At(Pick(nodes, w.list), 0) by {
      assert Last(Grown(levels, ret, w)) == w;
      assert LevelOK(M, h, Grown(levels, ret, w)[|levels|]);
    }
    assert w.list[0] == 0;
  }

  /** Backtracking: the last call goes back into the list and the entry after it is next. */
  method Pop<S(!new), V>(entry: Node<V>, ghost M: Model<S, V>, ghost h: Entries<V>, ghost nodes: seq<Node<V>>,
                         ghost levels: seq<Level<S>>, ghost pairs: set<Pair<S>>)
      returns (following: Node?<V>)
    requires SearchOK(M, h, nodes, levels, pairs) && |levels| > 1
    requires Last(levels).at < |Last(levels).list| && !IsCall(h, Last(levels).list, Last(levels).at)
    requires EntryIs(nodes, levels[|levels| - 2], entry)
    modifies nodes
    ensures var below := levels[..|levels| - 1];
            && SearchOK(M, h, nodes, Moved(below), pairs)
            && EntryIs(nodes, Last(Moved(below)), following)
  {
    ghost var below := levels[..|levels| - 1];
    PopOK(M, h, levels, pairs);
    Undoable(M, h, nodes, levels);
    UnliftTop(entry, M, h, nodes, levels);
    HeapMoved(nodes, below);
    NextEntry(nodes, below);
    following := entry.next;
  }

  // ----- Partial linearizations ------------------------------------------------------

  /** What is reported for an operation is a legal beginning that contains it. */
  ghost predicate LongestOK<S, V>(M: Model<S, V>, H: History<V>, longest: Longest) {
    && |longest| == |H|
    && forall i :: 0 <= i < |longest| && longest[i].Some? ==> i in longest[i].value && Beginning(M, H, longest[i].value)
  }

  ghost predicate IdsAre<S, V>(calls: seq<CallsEntry<S, V>>, path: seq<nat>, n: nat) {
    |calls| == |path| && forall d :: 0 <= d < |calls| ==> calls[d].entry.id == path[d] < n
  }

  method CallIds<S, V>(calls: seq<CallsEntry<S, V>>, ghost path: seq<nat>, ghost n: nat) returns (ids: seq<nat>)
    requires IdsAre(calls, path, n)
    ensures ids == path
  {
    ids := [];
    for i := 0 to |calls|
      invariant ids == path[..i]
    {
      ids := ids + [calls[i].entry.id];
    }
  }

  method Record<S, V>(calls: seq<CallsEntry<S, V>>, longest: Longest, ghost M: Model<S, V>, ghost H: History<V>, ghost path: seq<nat>)
      returns (next: Longest)
    requires LongestOK(M, H, longest) && IdsAre(calls, path, |H|) && Beginning(M, H, path)
    ensures LongestOK(M, H, next) && Longer(longest, next)
    ensures forall i :: 0 <= i < |H| && i in path ==> next[i].Some? && |next[i].value| >= |path|
  {
    next := longest;
    var ids := CallIds(calls, path, |H|);
    for d := 0 to |calls|
      invariant LongestOK(M, H, next) && Longer(longest, next)
      invariant forall i :: 0 <= i < |H| && i in path[..d] ==> next[i].Some? && |next[i].value| >= |path|
    {
      var id := calls[d].entry.id;
      assert id in path;
      assert forall i :: i in path[..d + 1] ==> i in path[..d] || i == id;
      if next[id].None? || |calls| > |next[id].value| {
        next := next[id := Some(ids)];
      }
    }
    assert path[..|calls|] == path;
  }

  lemma PathIds<S(!new), V>(M: Model<S, V>, h: Entries<V>, nodes: seq<Node<V>>, levels: seq<Level<S>>, calls: seq<CallsEntry<S, V>>)
    requires WellFormed(h) && NodesOK(nodes, h) && StackOK(M, h, levels) && CallsAre(nodes, levels, calls)
    ensures IdsAre(calls, Path(h, levels, |calls|), |h| / 2)
  {
    forall d | 0 <= d < |calls| ensures calls[d].entry.id == Path(h, levels, |calls|)[d] < |h| / 2 {
      PathAt(h, levels, |calls|, d);
      assert PushedAt(M, h, levels, d) && EntryIs(nodes, levels[d], calls[d].entry);
      NodeAt(nodes, h, levels[d].list[levels[d].at]);
    }
  }

  lemma {:induction false} PathAt<S, V>(h: Entries<V>, levels: seq<Level<S>>, m: nat, d: nat)
    requires d < m < |levels|
    ensures Path(h, levels, m)[d] == ChosenId(h, levels[d])
  {
    if d < m - 1 {
      PathAt(h, levels, m - 1, d);
    }
  }

  // ----- The search ------------------------------------------------------------------

  lemma StartOK<S(!new), V>(M: Model<S, V>, h: Entries<V>, nodes: seq<Node<V>>, levels: seq<Level<S>>)
    requires WellFormed(h) && NodesOK(nodes, h) && Chain(nodes)
    requires levels == [Level({}, M.init, seq(|h| + 1, i => i), 1, 0)]
    ensures SearchOK(M, h, nodes, levels, {})
  {
    var L := levels[0].list;
    assert Pick(nodes, L) == nodes;
    forall p | 1 <= p <= |h| ensures InList(L, p) {
      assert L[p] == p;
    }
    assert LevelOK(M, h, levels[0]);
  }

  method Start<V>(h: Entries<V>) returns (head: Node<V>, entry: Node?<V>, n: nat, ghost nodes: seq<Node<V>>)
    requires WellFormed(h)
    ensures NodesOK(nodes, h) && Chain(nodes) && fresh(nodes) && head == nodes[0] && n == |h| / 2
    ensures entry == if |h| > 0 then nodes[1] else null
  {
    ghost var ns;
    entry, ns := MakeLinkedEntries(h);
    var l := Length(entry, ns);
    n := l / 2;
    head := new Node(None, null, -1);
    Prepend(head, entry, ns);
    nodes := [head] + ns;
    assert nodes[1..] == ns;
  }

  /** The variables of the search; the list and the bitset are on the heap. */
  datatype Vars<S, V> = Vars(
    entry: Node?<V>, state: S, calls: seq<CallsEntry<S, V>>, cache: Cache<S>, longest: Longest)

  /** The search on values that the variables stand for. */
  datatype Trace<S(==)> = Trace(levels: seq<Level<S>>, pairs: set<Pair<S>>)

  /** What each round of the search keeps, the list aside. */
  ghost predicate VarsOK<S(!new), V>(M: Model<S, V>, h: Entries<V>, nodes: seq<Node<V>>, x: Vars<S, V>, t: Trace<S>, words: Bitset.Words)
    requires WellFormed(h)
  {
    && CallsAre(nodes, t.levels, x.calls) && EntryIs(nodes, Last(t.levels), x.entry) && x.state == Last(t.levels).state
    && |h| / 2 <= 64 * |words| && Bitset.Elements(words) == Last(t.levels).done
    && Represents(x.cache, t.pairs, |words|)
    && LongestOK(M, OpsOf(h), x.longest)
  }

  ghost predicate Good<S(!new), V>(M: Model<S, V>, h: Entries<V>, nodes: seq<Node<V>>, x: Vars<S, V>, t: Trace<S>, words: Bitset.Words)
    reads nodes
  {
    SearchOK(M, h, nodes, t.levels, t.pairs) && VarsOK(M, h, nodes, x, t, words)
  }

  /** The top level looks at node p, which is a call or a return as its match tells. */
  lemma Looking<S(!new), V>(M: Model<S, V>, h: Entries<V>, nodes: seq<Node<V>>, x: Vars<S, V>, t: Trace<S>, words: Bitset.Words)
    requires Good(M, h, nodes, x, t, words) && nodes[0].next != null
    ensures var v := Last(t.levels);
            && 0 < v.at < |v.list| && 0 < v.list[v.at] <= |h|
            && IdAt(h, v.list, v.at) < |h| / 2 && IdAt(h, v.list, v.at) !in v.done
            && x.entry != null && x.entry.id == IdAt(h, v.list, v.at)
            && (x.entry.match_ != null <==> IsCall(h, v.list, v.at))
  {
    var v := Last(t.levels);
    assert LevelOK(M, h, t.levels[|t.levels| - 1]);
    assert At(Pick(nodes, v.list), 0);
    NotAtEnd(M, h, v);
    Listed(h, v.done, v.list, v.at);
    NodeAt(nodes, h, v.list[v.at]);
  }

  /** The model's answer for the call looked at. */
  method Step<S(==, !new), V>(M: Model<S, V>, ghost h: Entries<V>, ghost nodes: seq<Node<V>>, x: Vars<S, V>, ghost t: Trace<S>, ghost words: Bitset.Words)
      returns (ok: bool, next: S)
    requires Good(M, h, nodes, x, t, words) && nodes[0].next != null && x.entry != null && x.entry.match_ != null
    ensures var v := Last(t.levels);
            && 0 < v.at < |v.list| && 0 < v.list[v.at] <= |h| && IdAt(h, v.list, v.at) < |h| / 2
            && (ok, next) == StepOf(M, OpsOf(h), x.state, IdAt(h, v.list, v.at))
  {
    Looking(M, h, nodes, x, t, words);
    ghost var v := Last(t.levels);
    assert LevelOK(M, h, t.levels[|t.levels| - 1]);
    ghost var ret := ReturnPlace(h, v.done, v.list, v.at);
    NodeAt(nodes, h, v.list[v.at]);
    NodeAt(nodes, h, v.list[ret]);
    Placed(h, v.list[v.at] - 1);
    var r := M.step(x.state, x.entry.value.value, x.entry.match_.value.value);
    return r.0, r.1;
  }

  method Skip<S(==, !new), V>(ghost M: Model<S, V>, ghost h: Entries<V>, ghost nodes: seq<Node<V>>, x: Vars<S, V>, ghost t: Trace<S>, ghost words: Bitset.Words)
      returns (y: Vars<S, V>, ghost u: Trace<S>)
    requires Good(M, h, nodes, x, t, words) && x.entry != null
    requires Last(t.levels).at < |Last(t.levels).list| && DeadEnd(M, h, Last(t.levels), Last(t.levels).at)
    ensures Good(M, h, nodes, y, u, words) && u.levels == Moved(t.levels) && u.pairs == t.pairs && y.longest == x.longest
  {
    SkipKeeps(M, h, nodes, t.levels, t.pairs, x.entry, x.calls);
    y, u := x.(entry := x.entry.next), t.(levels := Moved(t.levels));
  }

  /** A level was put on the stack and its pair into the cache. */
  ghost predicate Grew<S(!new)>(t: Trace<S>, u: Trace<S>) {
    |t.levels| > 0 && exists ret: nat, w: Level<S> :: w.at == 1 && u == Trace(Grown(t.levels, ret, w), t.pairs + {PairOf(w)})
  }

  /** The call looked at goes on the stack; its successor is new to the cache. */
  method Perform<S(==, !new), V>(ghost M: Model<S, V>, ghost h: Entries<V>, ghost nodes: seq<Node<V>>, x: Vars<S, V>, ghost t: Trace<S>,
                                 head: Node<V>, linearized: array<Bitset.Word>, next: array<Bitset.Word>, q: S, ghost a: nat)
      returns (y: Vars<S, V>, ghost u: Trace<S>)
    requires Good(M, h, nodes, x, t, linearized[..]) && head == nodes[0] && head.next != null
    requires x.entry != null && x.entry.match_ != null && next != linearized && next.Length == linearized.Length
    requires var v := Last(t.levels);
             && 0 < v.at < |v.list| && 0 < v.list[v.at] <= |h| && a == IdAt(h, v.list, v.at) < |h| / 2
             && StepOf(M, OpsOf(h), x.state, a) == (true, q)
             && Bitset.Elements(next[..]) == v.done + {a} && (v.done + {a}, q) !in t.pairs
    modifies linearized, nodes
    ensures Good(M, h, nodes, y, u, linearized[..]) && y.longest == x.longest
    ensures t.pairs < u.pairs && Grew(t, u)
  {
    Looking(M, h, nodes, x, t, linearized[..]);
    ghost var v := Last(t.levels);
    assert LevelOK(M, h, t.levels[|t.levels| - 1]);
    ghost var ret := ReturnPlace(h, v.done, v.list, v.at);
    ghost var w := NextLevel(h, v, ret, q);
    var cache := CacheAdd(x.cache, next, q, t.pairs);
    CallsGrown(nodes, t.levels, x.calls, ret, w, CallsEntry(x.entry, x.state));
    Bitset.Set(linearized, x.entry.id);
    var first := Push(x.entry, head, M, h, nodes, t.levels, t.pairs, ret, q);
    y := Vars(first, q, x.calls + [CallsEntry(x.entry, x.state)], cache, x.longest);
    u := Trace(Grown(t.levels, ret, w), t.pairs + {PairOf(w)});
  }

  /** The last call is undone and the entry behind it is next. */
  method Undo<S(==, !new), V>(ghost M: Model<S, V>, ghost h: Entries<V>, ghost nodes: seq<Node<V>>, x: Vars<S, V>, ghost t: Trace<S>,
                          linearized: array<Bitset.Word>)
      returns (y: Vars<S, V>, ghost u: Trace<S>)
    requires Good(M, h, nodes, x, t, linearized[..]) && |x.calls| > 0
    requires Last(t.levels).at < |Last(t.levels).list| && !IsCall(h, Last(t.levels).list, Last(t.levels).at)
    modifies linearized, nodes
    ensures Good(M, h, nodes, y, u, linearized[..]) && |t.levels| > 1 && y.longest == x.longest
    ensures u == Trace(Moved(t.levels[..|t.levels| - 1]), t.pairs)
  {
    ghost var below := t.levels[..|t.levels| - 1];
    var top := x.calls[|x.calls| - 1];
    Chosen(M, h, nodes, t.levels);
    CallsBelow(nodes, t.levels, x.calls);
    assert EntryIs(nodes, t.levels[|t.levels| - 2], top.entry);
    Bitset.Clear(linearized, top.entry.id);
    var following := Pop(top.entry, M, h, nodes, t.levels, t.pairs);
    y := Vars(following, top.state, x.calls[..|x.calls| - 1], x.cache, x.longest);
    u := Trace(Moved(below), t.pairs);
  }

  /** A return is reached: report the stack, then undo. */
  method Report<S(==, !new), V>(ghost M: Model<S, V>, ghost h: Entries<V>, ghost nodes: seq<Node<V>>, x: Vars<S, V>, ghost t: Trace<S>, ghost words: Bitset.Words)
      returns (y: Vars<S, V>)
    requires Good(M, h, nodes, x, t, words)
    ensures Good(M, h, nodes, y, t, words) && y == x.(longest := y.longest)
    ensures Longer(x.longest, y.longest) && Covered(PairOf(Last(t.levels)), y.longest)
  {
    PathIds(M, h, nodes, t.levels, x.calls);
    PathBegins(M, h, t.levels, |x.calls|);
    DoneGrows(M, h, t.levels, 0, |x.calls|);
    var longest := Record(x.calls, x.longest, M, OpsOf(h), Path(h, t.levels, |x.calls|));
    y := x.(longest := longest);
    forall i | i in Last(t.levels).done
      ensures i < |longest| && longest[i].Some? && |longest[i].value| >= |Last(t.levels).done|
    {
      assert i in SetOf(Path(h, t.levels, |x.calls|)) && i in Ids(OpsOf(h));
    }
  }

  /** Entries the top level has not looked at. */
  ghost function Ahead<S>(t: Trace<S>): int {
    if |t.levels| > 0 then |Last(t.levels).list| - Last(t.levels).at else 0
  }

  lemma {:induction false} Smaller<T>(a: set<T>, b: set<T>)
    requires a < b
    ensures |a| < |b|
  {
    var x :| x in b && x !in a;
    if a == {} {
      assert b == {x} + (b - {x});
    } else {
      var y :| y in a;
      assert a == (a - {y}) + {y} && b == (b - {y}) + {y};
      Smaller(a - {y}, b - {y});
    }
  }

  /** A round that adds to the cache leaves fewer pairs; one that skips leaves fewer entries. */
  lemma Progress<S>(universe: set<Pair<S>>, was: Trace<S>, t: Trace<S>)
    requires was.pairs <= universe && t.pairs <= universe && |was.levels| > 0
    requires was.pairs < t.pairs || (t.pairs == was.pairs && t.levels == Moved(was.levels))
    ensures |universe - t.pairs| < |universe - was.pairs| ||
            (t.pairs == was.pairs && |t.levels| == |was.levels| && Ahead(t) == Ahead(was) - 1)
  {
    if was.pairs < t.pairs {
      Smaller(universe - t.pairs, universe - was.pairs);
    }
  }

  lemma CallsBelow<S, V>(nodes: seq<Node<V>>, levels: seq<Level<S>>, calls: seq<CallsEntry<S, V>>)
    requires CallsAre(nodes, levels, calls) && |calls| > 0
    ensures CallsAre(nodes, Moved(levels[..|levels| - 1]), calls[..|calls| - 1])
  {
    var c, l := calls[..|calls| - 1], Moved(levels[..|levels| - 1]);
    forall d | 0 <= d < |c| ensures c[d].state == l[d].state && EntryIs(nodes, l[d], c[d].entry) {
      assert calls[d].state == levels[d].state;
    }
  }

  /** The operation on top of the stack was not done before it. */
  lemma Chosen<S, V>(M: Model<S, V>, h: Entries<V>, nodes: seq<Node<V>>, levels: seq<Level<S>>)
    requires WellFormed(h) && NodesOK(nodes, h) && StackOK(M, h, levels) && |levels| > 1
    ensures var v := levels[|levels| - 2];
            && v.at < |v.list| && InRange(v.list, |nodes|) && 0 <= nodes[v.list[v.at]].id < |h| / 2
            && Last(levels).done - {nodes[v.list[v.at]].id as nat} == v.done
  {
    var m := |levels| - 2;
    assert PushedAt(M, h, levels, m) && LevelOK(M, h, levels[m]);
    Listed(h, levels[m].done, levels[m].list, levels[m].at);
    NodeAt(nodes, h, levels[m].list[levels[m].at]);
  }

  method Begin<S(==, !new), V>(M: Model<S, V>, h: Entries<V>)
      returns (head: Node<V>, linearized: array<Bitset.Word>, x: Vars<S, V>, ghost t: Trace<S>, ghost nodes: seq<Node<V>>)
    requires WellFormed(h)
    ensures fresh(nodes) && fresh(linearized) && |nodes| > 0 && head == nodes[0] && Good(M, h, nodes, x, t, linearized[..])
    ensures |t.levels| == 1 && t.levels[0].at == 1 && t.pairs == {} && forall i :: 0 <= i < |x.longest| ==> x.longest[i].None?
  {
    var entry, n;
    head, entry, n, nodes := Start(h);
    linearized := Bitset.NewBitset(n);
    x := Vars(entry, M.init, [], map[], seq(n, _ => None));
    t := Trace([Level({}, M.init, seq(|h| + 1, i => i), 1, 0)], {});
    StartOK(M, h, nodes, t.levels);
  }

  /** One call: take it if the model accepts it and its successor is new, else pass on. */
  method Try<S(==, !new), V>(M: Model<S, V>, ghost h: Entries<V>, ghost nodes: seq<Node<V>>, x: Vars<S, V>, ghost t: Trace<S>,
                             head: Node<V>, linearized: array<Bitset.Word>)
      returns (y: Vars<S, V>, ghost u: Trace<S>)
    requires Good(M, h, nodes, x, t, linearized[..]) && head == nodes[0] && head.next != null
    requires x.entry != null && x.entry.match_ != null
    modifies linearized, nodes
    ensures Good(M, h, nodes, y, u, linearized[..]) && y.longest == x.longest
    ensures t.pairs < u.pairs || (u.pairs == t.pairs && u.levels == Moved(t.levels))
    ensures Grew(t, u) || (u == Trace(Moved(t.levels), t.pairs) && Last(t.levels).at < |Last(t.levels).list| &&
                           Tried(M, h, Last(t.levels), Last(t.levels).at, t.pairs))
  {
    Looking(M, h, nodes, x, t, linearized[..]);
    ghost var v := Last(t.levels);
    ghost var a := IdAt(h, v.list, v.at);
    var ok, q := Step(M, h, nodes, x, t, linearized[..]);
    if ok {
      var next := Bitset.Clone(linearized);
      Bitset.Set(next, x.entry.id);
      var found := CacheContains(x.cache, next, q, t.pairs);
      if !found {
        y, u := Perform(M, h, nodes, x, t, head, linearized, next, q, a);
        return;
      }
    }
    DeadEndNow(M, h, t.levels, t.pairs);
    y, u := Skip(M, h, nodes, x, t, linearized[..]);
  }

  /** The list is empty: the stack is a linearization of the whole history. */
  method Finish<S(==, !new), V>(ghost M: Model<S, V>, ghost h: Entries<V>, ghost nodes: seq<Node<V>>, x: Vars<S, V>, ghost t: Trace<S>,
                            ghost words: Bitset.Words)
      returns (longest: Longest)
    requires Good(M, h, nodes, x, t, words) && nodes[0].next == null
    ensures Linearizable(M, OpsOf(h)) && LongestOK(M, OpsOf(h), longest)
    ensures forall i :: 0 <= i < |longest| ==> longest[i].Some? && Orders(M, OpsOf(h), Ids(OpsOf(h)), M.init, longest[i].value)
  {
    ghost var path, v := Path(h, t.levels, |x.calls|), Last(t.levels);
    PathIds(M, h, nodes, t.levels, x.calls);
    PathBegins(M, h, t.levels, |x.calls|);
    var order := CallIds(x.calls, path, |h| / 2);
    assert LevelOK(M, h, t.levels[|t.levels| - 1]);
    assert At(Pick(nodes, v.list), 0);
    AllDone(M, h, t.levels);
    EmptyListFinishes(M, h, t.levels);
    BeginningComplete(M, OpsOf(h), order);
    longest := seq(|x.longest|, _ => Some(order));
    forall i | 0 <= i < |longest| ensures i in order {
      assert i in Ids(OpsOf(h));
    }
  }

  /** A call was tried. */
  lemma TryThorough<S(!new), V>(M: Model<S, V>, h: Entries<V>, t: Trace<S>, u: Trace<S>, longest: Longest, partial: bool)
    requires Thorough(M, h, t.levels, t.pairs, longest, partial) && |t.levels| > 0
    requires Grew(t, u) || (u == Trace(Moved(t.levels), t.pairs) && Last(t.levels).at < |Last(t.levels).list| &&
                            Tried(M, h, Last(t.levels), Last(t.levels).at, t.pairs))
    ensures Thorough(M, h, u.levels, u.pairs, longest, partial)
  {
    if Grew(t, u) {
      var ret: nat, w: Level<S> :| w.at == 1 && u == Trace(Grown(t.levels, ret, w), t.pairs + {PairOf(w)});
      GrownThorough(M, h, t.levels, t.pairs, longest, partial, ret, w);
    } else {
      MovedThorough(M, h, t.levels, t.pairs, longest, partial);
    }
  }

  /** A return is reached with calls on the stack: report them if asked to, and undo the last. */
  method Backtrack<S(==, !new), V>(ghost M: Model<S, V>, ghost h: Entries<V>, ghost nodes: seq<Node<V>>, x: Vars<S, V>, ghost t: Trace<S>,
                                   linearized: array<Bitset.Word>, computePartial: bool)
      returns (y: Vars<S, V>, ghost u: Trace<S>)
    requires Good(M, h, nodes, x, t, linearized[..]) && |x.calls| > 0
    requires Last(t.levels).at < |Last(t.levels).list| && !IsCall(h, Last(t.levels).list, Last(t.levels).at)
    requires Thorough(M, h, t.levels, t.pairs, x.longest, computePartial)
    modifies linearized, nodes
    ensures Good(M, h, nodes, y, u, linearized[..]) && u.pairs == t.pairs && |u.levels| < |t.levels|
    ensures Thorough(M, h, u.levels, u.pairs, y.longest, computePartial)
  {
    y := x;
    if computePartial {
      y := Report(M, h, nodes, x, t, linearized[..]);
    }
    PoppedThorough(M, h, t.levels, t.pairs, x.longest, y.longest, computePartial);
    y, u := Undo(M, h, nodes, y, t, linearized);
  }

  /** One round: a call is tried, a return undoes the last call or ends the search. */
  method Round<S(==, !new), V>(M: Model<S, V>, ghost h: Entries<V>, ghost nodes: seq<Node<V>>, x: Vars<S, V>, ghost t: Trace<S>,
                               head: Node<V>, linearized: array<Bitset.Word>, computePartial: bool)
      returns (failed: bool, y: Vars<S, V>, ghost u: Trace<S>)
    requires Good(M, h, nodes, x, t, linearized[..]) && head == nodes[0] && head.next != null
    requires Thorough(M, h, t.levels, t.pairs, x.longest, computePartial)
    modifies linearized, nodes
    ensures Good(M, h, nodes, y, u, linearized[..])
    ensures Thorough(M, h, u.levels, u.pairs, y.longest, computePartial)
    ensures failed ==> !Linearizable(M, OpsOf(h)) && (computePartial ==> Maximal(M, OpsOf(h), y.longest))
    ensures !failed ==> Less(Universe(M, OpsOf(h), |h| / 2), u, t)
  {
    failed, y, u := false, x, t;
    Looking(M, h, nodes, x, t, linearized[..]);
    if x.entry.match_ != null {
      y, u := Try(M, h, nodes, x, t, head, linearized);
      TryThorough(M, h, t, u, x.longest, computePartial);
      Progress(Universe(M, OpsOf(h), |h| / 2), t, u);
    } else if |x.calls| == 0 {
      BottomFails(M, h, t.levels);
      if computePartial {
        EndMaximal(M, h, t.levels, t.pairs, x.longest);
      }
      failed := true;
    } else {
      y, u := Backtrack(M, h, nodes, x, t, linearized, computePartial);
    }
  }

  /** Fewer pairs to cache, or a lower stack, or fewer entries to look at. */
  ghost predicate Less<S(!new)>(universe: set<Pair<S>>, u: Trace<S>, t: Trace<S>) {
    var a, b := |universe - u.pairs|, |universe - t.pairs|;
    a < b || (a == b && (|u.levels| < |t.levels| || (|u.levels| == |t.levels| && 0 <= Ahead(t) && Ahead(u) < Ahead(t))))
  }

  /** How the search ended: the list is empty, no order is left, or the flag was up. */
  datatype Outcome = Found | Exhausted | Killed

  /** The rounds until the list is empty, no order is left or the flag is seen. */
  method Search<S(==, !new), V>(M: Model<S, V>, ghost h: Entries<V>, ghost nodes: seq<Node<V>>, x0: Vars<S, V>, ghost t0: Trace<S>,
                                head: Node<V>, linearized: array<Bitset.Word>, computePartial: bool, kill: Option<nat>)
      returns (outcome: Outcome, x: Vars<S, V>, ghost t: Trace<S>, ghost rounds: nat)
    requires Good(M, h, nodes, x0, t0, linearized[..]) && head == nodes[0]
    requires Thorough(M, h, t0.levels, t0.pairs, x0.longest, computePartial)
    modifies linearized, nodes
    ensures Good(M, h, nodes, x, t, linearized[..])
    ensures Thorough(M, h, t.levels, t.pairs, x.longest, computePartial)
    ensures outcome.Found? ==> head.next == null
    ensures outcome.Exhausted? ==> !Linearizable(M, OpsOf(h)) && (computePartial ==> Maximal(M, OpsOf(h), x.longest))
    ensures outcome.Killed? ==> kill == Some(rounds)
    ensures kill.Some? ==> rounds <= kill.value
  {
    var round, failed := 0, false;
    ghost var universe := Universe(M, OpsOf(h), |h| / 2);
    x, t, rounds := x0, t0, 0;
    while head.next != null
      invariant Good(M, h, nodes, x, t, linearized[..]) && rounds == round
      invariant Thorough(M, h, t.levels, t.pairs, x.longest, computePartial)
      invariant kill.Some? ==> round <= kill.value
      decreases |universe - t.pairs|, |t.levels|, Ahead(t)
    {
      if kill.Some? && kill.value == round {
        outcome := Killed;
        return;
      }
      round, rounds := round + 1, rounds + 1;
      ghost var was := t;
      failed, x, t := Round(M, h, nodes, x, t, head, linearized, computePartial);
      assert failed || Less(universe, t, was);
      if failed {
        outcome := Exhausted;
        return;
      }
    }
    outcome := Found;
  }

  /** The kill flag, once up, stays up; with Some(k) it is first seen before the k-th round.
      `rounds` rounds were made, and `killed` tells whether the flag ended the search.  A
      failed search reports for each operation a longest legal beginning with it. */
  method CheckSingle<S(==, !new), V>(M: Model<S, V>, h: Entries<V>, computePartial: bool, kill: Option<nat>)
      returns (ok: bool, longest: Longest, ghost rounds: nat, ghost killed: bool)
    requires WellFormed(h)
    ensures killed ==> !ok && kill == Some(rounds)
    ensures kill.Some? ==> rounds <= kill.value
    ensures !killed ==> (ok <==> Linearizable(M, OpsOf(h)))
    ensures LongestOK(M, OpsOf(h), longest)
    ensures ok ==> forall i :: 0 <= i < |longest| ==> longest[i].Some? && Orders(M, OpsOf(h), Ids(OpsOf(h)), M.init, longest[i].value)
    ensures computePartial && !ok && !killed ==> Maximal(M, OpsOf(h), longest)
    ensures !computePartial && !ok ==> forall i :: 0 <= i < |longest| ==> longest[i].None?
  {
    var head, linearized, x, outcome;
    ghost var t, nodes;
    head, linearized, x, t, nodes := Begin(M, h);
    BeginThorough(M, h, t.levels, x.longest, computePartial);
    outcome, x, t, rounds := Search(M, h, nodes, x, t, head, linearized, computePartial, kill);
    killed := outcome.Killed?;
    if outcome.Found? {
      longest := Finish(M, h, nodes, x, t, linearized[..]);
      ok := true;
    } else {
      ok, longest := false, x.longest;
    }
  }
}
