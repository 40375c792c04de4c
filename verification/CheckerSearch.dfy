/**
 The search of checkSingle (porcupine/checker.go) on values: a stack of levels, each with
 the operations done, the model state, the entries still in the list and the entry now
 looked at, and the set of (done, state) pairs that the cache remembers.
 */
module CheckerSearch {
  import opened Linearization
  import opened EntryHistory
  import opened EntryList

  /** Index 0 of a list is the head, index p + 1 is entry p.  `ret` is the place of the
      return that goes with the call at `at`. */
  datatype Level<S> = Level(done: set<nat>, state: S, list: seq<nat>, at: nat, ret: nat)

  type Pair<S> = (set<nat>, S)

  function PairOf<S>(v: Level<S>): Pair<S> {
    (v.done, v.state)
  }

  // ----- The list of what is left ----------------------------------------------------

  predicate Increasing(L: seq<nat>) {
    forall i, j :: 0 <= i < j < |L| ==> L[i] < L[j]
  }

  predicate InList(L: seq<nat>, p: nat) {
    p in L
  }

  /** L lists, in order, the entries of the operations not done. */
  ghost predicate ListOK<V>(h: Entries<V>, done: set<nat>, L: seq<nat>) {
    && |L| > 0 && L[0] == 0 && Increasing(L)
    && (forall i :: 0 <= i < |L| ==> L[i] <= |h|)
    && (forall p {:trigger InList(L, p)} :: 1 <= p <= |h| ==> (InList(L, p) <==> h[p - 1].id !in done))
  }

  predicate IsCall<V>(h: Entries<V>, L: seq<nat>, k: nat)
    requires k < |L|
  {
    0 < L[k] <= |h| && h[L[k] - 1].kind.CallEntry?
  }

  function IdAt<V>(h: Entries<V>, L: seq<nat>, k: nat): nat
    requires k < |L| && 0 < L[k] <= |h|
  {
    h[L[k] - 1].id
  }

  lemma Place(L: seq<nat>, p: nat) returns (k: nat)
    requires InList(L, p)
    ensures k < |L| && L[k] == p
  {
    k :| 0 <= k < |L| && L[k] == p;
  }

  lemma Ordered(L: seq<nat>, i: nat, j: nat)
    requires Increasing(L) && i < |L| && j < |L|
    ensures L[i] < L[j] <==> i < j
  {
  }

  /** An entry in the list belongs to an operation that is not done. */
  lemma Listed<V>(h: Entries<V>, done: set<nat>, L: seq<nat>, k: nat)
    requires WellFormed(h) && ListOK(h, done, L) && 0 < k < |L|
    ensures 0 < L[k] <= |h| && IdAt(h, L, k) < |h| / 2 && IdAt(h, L, k) !in done
  {
    assert L[0] < L[k];
    assert InList(L, L[k]);
    Placed(h, L[k] - 1);
  }

  /** The return of a listed call is further down the list. */
  lemma ReturnPlace<V>(h: Entries<V>, done: set<nat>, L: seq<nat>, i: nat) returns (j: nat)
    requires WellFormed(h) && ListOK(h, done, L) && 0 < i < |L| && IsCall(h, L, i)
    ensures i < j < |L| && L[j] == ReturnAt(h, IdAt(h, L, i)) + 1
  {
    var a := IdAt(h, L, i);
    Listed(h, done, L, i);
    Placed(h, L[i] - 1);
    var p := ReturnAt(h, a) + 1;
    assert h[p - 1].id == a;
    assert InList(L, p);
    j := Place(L, p);
    Ordered(L, i, j);
  }

  lemma RemoveIncreasing(L: seq<nat>, i: nat)
    requires Increasing(L) && i < |L|
    ensures Increasing(Remove(L, i))
    ensures forall p :: p in Remove(L, i) <==> p in L && p != L[i]
  {
    var R := Remove(L, i);
    forall p ensures p in R <==> p in L && p != L[i] {
      if p in L && p != L[i] {
        var k :| 0 <= k < |L| && L[k] == p;
        assert R[if k < i then k else k - 1] == p;
      }
    }
  }

  lemma DropIncreasing(L: seq<nat>, i: nat, j: nat)
    requires Increasing(L) && i < j < |L|
    ensures Increasing(Drop(L, i, j))
    ensures forall p :: p in Drop(L, i, j) <==> p in L && p != L[i] && p != L[j]
  {
    RemoveIncreasing(L, i);
    RemoveIncreasing(Remove(L, i), j - 1);
  }

  lemma DropOK<V>(h: Entries<V>, done: set<nat>, L: seq<nat>, i: nat, j: nat)
    requires WellFormed(h) && ListOK(h, done, L) && 0 < i < j < |L| && IsCall(h, L, i)
    requires L[j] == ReturnAt(h, IdAt(h, L, i)) + 1
    ensures ListOK(h, done + {IdAt(h, L, i)}, Drop(L, i, j))
  {
    var a, R := IdAt(h, L, i), Drop(L, i, j);
    Listed(h, done, L, i);
    Placed(h, L[i] - 1);
    DropIncreasing(L, i, j);
    forall k | 0 <= k < |R| ensures R[k] <= |h| {
      assert R[k] in R && R[k] in L;
    }
    forall p | 1 <= p <= |h| ensures InList(R, p) <==> h[p - 1].id !in done + {a} {
      Placed(h, p - 1);
      assert InList(L, p) <==> h[p - 1].id !in done;
    }
  }

  // ----- What a level knows ----------------------------------------------------------

  /** The k-th entry is a call that leads nowhere. */
  ghost predicate DeadEnd<S, V>(M: Model<S, V>, h: Entries<V>, v: Level<S>, k: nat)
    requires WellFormed(h) && k < |v.list|
  {
    IsCall(h, v.list, k) && IdAt(h, v.list, k) < |h| / 2 &&
    var a := IdAt(h, v.list, k);
    var next := StepOf(M, OpsOf(h), v.state, a);
    next.0 ==> !CanFinish(M, OpsOf(h), v.done + {a}, next.1)
  }

  ghost predicate LevelOK<S, V>(M: Model<S, V>, h: Entries<V>, v: Level<S>)
    requires WellFormed(h)
  {
    && ListOK(h, v.done, v.list) && 1 <= v.at <= |v.list|
    && forall k {:trigger DeadEnd(M, h, v, k)} :: 1 <= k < v.at ==> DeadEnd(M, h, v, k)
  }

  /** A call whose predecessors in the list are all calls may go next. */
  lemma CallEnabled<S, V>(M: Model<S, V>, h: Entries<V>, v: Level<S>)
    requires WellFormed(h) && LevelOK(M, h, v) && v.at < |v.list| && IsCall(h, v.list, v.at)
    ensures IdAt(h, v.list, v.at) < |h| / 2 && Enabled(OpsOf(h), v.done, IdAt(h, v.list, v.at))
  {
    var H, a := OpsOf(h), IdAt(h, v.list, v.at);
    Listed(h, v.done, v.list, v.at);
    Placed(h, v.list[v.at] - 1);
    forall b: nat | b < |H| && b != a && Before(H, b, a) ensures b in v.done {
      var p := ReturnAt(h, b) + 1;
      assert CallAt(h, b) < ReturnAt(h, b);
      assert h[p - 1].id == b && h[p - 1].kind.ReturnEntry?;
      forall k | 0 <= k < |v.list| ensures v.list[k] != p {
        if 0 < k < v.at {
          assert DeadEnd(M, h, v, k);
        }
      }
      assert !InList(v.list, p);
    }
  }

  /** At a return every call that may go next has been tried. */
  lemma NoneLeft<S, V>(M: Model<S, V>, h: Entries<V>, v: Level<S>)
    requires WellFormed(h) && LevelOK(M, h, v) && v.at < |v.list| && !IsCall(h, v.list, v.at)
    ensures !CanFinish(M, OpsOf(h), v.done, v.state)
  {
    var H, b := OpsOf(h), h[v.list[v.at] - 1].id;
    Listed(h, v.done, v.list, v.at);
    Placed(h, v.list[v.at] - 1);
    assert b in Ids(H) && b !in v.done;
    forall a | Enabled(H, v.done, a) && StepOf(M, H, v.state, a).0 ensures !Extends(M, H, v.done, v.state, a) {
      var p := CallAt(h, a) + 1;
      assert CallAt(h, a) < ReturnAt(h, a);
      assert h[p - 1].id == a;
      assert a == b || !Before(H, b, a);
      assert InList(v.list, p);
      var k := Place(v.list, p);
      Ordered(v.list, k, v.at);
      assert DeadEnd(M, h, v, k);
    }
  }

  // ----- The stack and the cache -----------------------------------------------------

  /** Level w is level v after performing the call v looks at. */
  ghost predicate Pushed<S, V>(M: Model<S, V>, h: Entries<V>, v: Level<S>, w: Level<S>)
    requires WellFormed(h)
  {
    && 0 < v.at < v.ret < |v.list| && IsCall(h, v.list, v.at) && IdAt(h, v.list, v.at) < |h| / 2
    && v.list[v.ret] == ReturnAt(h, IdAt(h, v.list, v.at)) + 1
    && var a := IdAt(h, v.list, v.at);
       StepOf(M, OpsOf(h), v.state, a) == (true, w.state) && w.done == v.done + {a} && w.list == Drop(v.list, v.at, v.ret)
  }

  ghost predicate StackOK<S, V>(M: Model<S, V>, h: Entries<V>, levels: seq<Level<S>>)
    requires WellFormed(h)
  {
    && |levels| > 0 && PairOf(levels[0]) == ({}, M.init)
    && (forall d {:trigger LevelOK(M, h, levels[d])} :: 0 <= d < |levels| ==> LevelOK(M, h, levels[d]))
    && (forall d {:trigger PushedAt(M, h, levels, d)} :: 0 <= d < |levels| - 1 ==> PushedAt(M, h, levels, d))
  }

  ghost predicate PushedAt<S, V>(M: Model<S, V>, h: Entries<V>, levels: seq<Level<S>>, d: nat)
    requires WellFormed(h) && d < |levels| - 1
  {
    Pushed(M, h, levels[d], levels[d + 1])
  }

  predicate OnStack<S(==)>(levels: seq<Level<S>>, p: Pair<S>) {
    exists d :: 1 <= d < |levels| && PairOf(levels[d]) == p
  }

  /** What was cached is either still being explored or known to lead nowhere. */
  ghost predicate CacheOK<S(!new), V>(M: Model<S, V>, h: Entries<V>, levels: seq<Level<S>>, pairs: set<Pair<S>>)
    requires WellFormed(h)
  {
    forall p {:trigger Settled(M, h, levels, p)} :: p in pairs ==> Settled(M, h, levels, p)
  }

  ghost predicate Settled<S, V>(M: Model<S, V>, h: Entries<V>, levels: seq<Level<S>>, p: Pair<S>)
    requires WellFormed(h)
  {
    OnStack(levels, p) || !CanFinish(M, OpsOf(h), p.0, p.1)
  }

  function Last<T>(s: seq<T>): T
    requires |s| > 0
  {
    s[|s| - 1]
  }

  lemma {:induction false} DoneGrows<S, V>(M: Model<S, V>, h: Entries<V>, levels: seq<Level<S>>, d: nat, e: nat)
    requires WellFormed(h) && StackOK(M, h, levels) && d <= e < |levels|
    ensures |levels[e].done| == e && levels[e].done <= Ids(OpsOf(h))
    ensures levels[d].done <= levels[e].done
    ensures d < e ==> ChosenId(h, levels[d]) in levels[e].done
    decreases e
  {
    if e > 0 {
      assert PushedAt(M, h, levels, e - 1) && LevelOK(M, h, levels[e - 1]);
      DoneGrows(M, h, levels, if d < e then d else e - 1, e - 1);
      Listed(h, levels[e - 1].done, levels[e - 1].list, levels[e - 1].at);
    }
  }

  /** The operation that a level has put on the stack. */
  function ChosenId<S, V>(h: Entries<V>, v: Level<S>): nat {
    if v.at < |v.list| && 0 < v.list[v.at] <= |h| then IdAt(h, v.list, v.at) else 0
  }

  /** A cached successor of the top level leads nowhere. */
  lemma CachedIsDead<S(!new), V>(M: Model<S, V>, h: Entries<V>, levels: seq<Level<S>>, pairs: set<Pair<S>>, a: nat, q: S)
    requires WellFormed(h) && StackOK(M, h, levels) && CacheOK(M, h, levels, pairs)
    requires a !in Last(levels).done && (Last(levels).done + {a}, q) in pairs
    ensures !CanFinish(M, OpsOf(h), Last(levels).done + {a}, q)
  {
    var p, m := (Last(levels).done + {a}, q), |levels| - 1;
    assert Settled(M, h, levels, p);
    DoneGrows(M, h, levels, 0, m);
    assert |p.0| == m + 1;
    forall d | 1 <= d < |levels| ensures PairOf(levels[d]) != p {
      DoneGrows(M, h, levels, 0, d);
    }
  }

  function Moved<S>(levels: seq<Level<S>>): seq<Level<S>>
    requires |levels| > 0
  {
    levels[..|levels| - 1] + [Last(levels).(at := Last(levels).at + 1)]
  }

  lemma MovedLevel<S, V>(M: Model<S, V>, h: Entries<V>, v: Level<S>)
    requires WellFormed(h) && LevelOK(M, h, v) && v.at < |v.list| && DeadEnd(M, h, v, v.at)
    ensures LevelOK(M, h, v.(at := v.at + 1))
  {
    var w := v.(at := v.at + 1);
    forall k | 1 <= k < w.at ensures DeadEnd(M, h, w, k) {
      assert DeadEnd(M, h, v, k);
    }
  }

  lemma MovedPairs<S(!new), V>(M: Model<S, V>, h: Entries<V>, levels: seq<Level<S>>, pairs: set<Pair<S>>)
    requires WellFormed(h) && |levels| > 0 && CacheOK(M, h, levels, pairs)
    ensures CacheOK(M, h, Moved(levels), pairs)
  {
    forall p | p in pairs ensures Settled(M, h, Moved(levels), p) {
      assert Settled(M, h, levels, p);
      if OnStack(levels, p) {
        var d :| 1 <= d < |levels| && PairOf(levels[d]) == p;
        assert PairOf(Moved(levels)[d]) == p;
      }
    }
  }

  /** The entry looked at is a dead end: look at the next. */
  lemma AdvanceOK<S(!new), V>(M: Model<S, V>, h: Entries<V>, levels: seq<Level<S>>, pairs: set<Pair<S>>)
    requires WellFormed(h) && StackOK(M, h, levels) && CacheOK(M, h, levels, pairs)
    requires Last(levels).at < |Last(levels).list| && DeadEnd(M, h, Last(levels), Last(levels).at)
    ensures StackOK(M, h, Moved(levels)) && CacheOK(M, h, Moved(levels), pairs)
  {
    var next := Moved(levels);
    assert LevelOK(M, h, Last(levels));
    MovedLevel(M, h, Last(levels));
    forall d | 0 <= d < |next| ensures LevelOK(M, h, next[d]) {
      assert d < |levels| - 1 ==> LevelOK(M, h, levels[d]);
    }
    forall d | 0 <= d < |next| - 1 ensures PushedAt(M, h, next, d) {
      assert PushedAt(M, h, levels, d);
    }
    MovedPairs(M, h, levels, pairs);
  }

  function Grown<S>(levels: seq<Level<S>>, ret: nat, w: Level<S>): seq<Level<S>>
    requires |levels| > 0
  {
    levels[..|levels| - 1] + [Last(levels).(ret := ret), w]
  }

  /** The call looked at is performed. */
  lemma PushOK<S(!new), V>(M: Model<S, V>, h: Entries<V>, levels: seq<Level<S>>, pairs: set<Pair<S>>, ret: nat, w: Level<S>)
    requires WellFormed(h) && StackOK(M, h, levels) && CacheOK(M, h, levels, pairs)
    requires Pushed(M, h, Last(levels).(ret := ret), w) && w.at == 1
    ensures StackOK(M, h, Grown(levels, ret, w)) && CacheOK(M, h, Grown(levels, ret, w), pairs + {PairOf(w)})
  {
    var next, v := Grown(levels, ret, w), Last(levels);
    assert LevelOK(M, h, v);
    DropOK(h, v.done, v.list, v.at, ret);
    forall d | 0 <= d < |next| ensures LevelOK(M, h, next[d]) {
      if d < |levels| {
        assert LevelOK(M, h, levels[d]);
        SameLevel(M, h, levels[d], next[d]);
      }
    }
    forall d | 0 <= d < |next| - 1 ensures PushedAt(M, h, next, d) {
      assert d < |levels| - 1 ==> PushedAt(M, h, levels, d);
    }
    forall p | p in pairs + {PairOf(w)} ensures Settled(M, h, next, p) {
      if p == PairOf(w) {
        assert PairOf(next[|levels|]) == p;
      } else {
        assert Settled(M, h, levels, p);
        if OnStack(levels, p) {
          var d :| 1 <= d < |levels| && PairOf(levels[d]) == p;
          assert PairOf(next[d]) == p;
        }
      }
    }
  }

  lemma SameLevel<S, V>(M: Model<S, V>, h: Entries<V>, v: Level<S>, w: Level<S>)
    requires WellFormed(h) && LevelOK(M, h, v) && w == v.(ret := w.ret)
    ensures LevelOK(M, h, w)
  {
    forall k | 1 <= k < w.at ensures DeadEnd(M, h, w, k) {
      assert DeadEnd(M, h, v, k);
    }
  }

  /** The top level has nothing left: its call is undone and the level below moves on. */
  lemma PopOK<S(!new), V>(M: Model<S, V>, h: Entries<V>, levels: seq<Level<S>>, pairs: set<Pair<S>>)
    requires WellFormed(h) && StackOK(M, h, levels) && CacheOK(M, h, levels, pairs) && |levels| > 1
    requires Last(levels).at < |Last(levels).list| && !IsCall(h, Last(levels).list, Last(levels).at)
    ensures var below := levels[..|levels| - 1];
            StackOK(M, h, Moved(below)) && CacheOK(M, h, Moved(below), pairs)
  {
    var below := levels[..|levels| - 1];
    assert LevelOK(M, h, Last(levels)) && LevelOK(M, h, Last(below));
    NoneLeft(M, h, Last(levels));
    assert PushedAt(M, h, levels, |levels| - 2);
    forall p | p in pairs ensures Settled(M, h, below, p) {
      assert Settled(M, h, levels, p);
      if OnStack(levels, p) {
        var d :| 1 <= d < |levels| && PairOf(levels[d]) == p;
        assert d < |below| ==> PairOf(below[d]) == p;
      }
    }
    forall d | 0 <= d < |below| ensures LevelOK(M, h, below[d]) {
      assert LevelOK(M, h, levels[d]);
    }
    forall d | 0 <= d < |below| - 1 ensures PushedAt(M, h, below, d) {
      assert PushedAt(M, h, levels, d);
    }
    assert DeadEnd(M, h, Last(below), Last(below).at);
    AdvanceOK(M, h, below, pairs);
  }

  // ----- Verdicts --------------------------------------------------------------------

  /** A stack whose top can finish shows that the whole history can. */
  lemma {:induction false} TopFinishes<S, V>(M: Model<S, V>, h: Entries<V>, levels: seq<Level<S>>, d: nat)
    requires WellFormed(h) && StackOK(M, h, levels) && d < |levels|
    requires CanFinish(M, OpsOf(h), levels[d].done, levels[d].state)
    ensures CanFinish(M, OpsOf(h), {}, M.init)
  {
    if d > 0 {
      assert PushedAt(M, h, levels, d - 1) && LevelOK(M, h, levels[d - 1]);
      var v := levels[d - 1];
      CallEnabled(M, h, v);
      assert Extends(M, OpsOf(h), v.done, v.state, IdAt(h, v.list, v.at));
      TopFinishes(M, h, levels, d - 1);
    }
  }

  /** Nothing but the head is left: every operation is done. */
  lemma AllDone<S, V>(M: Model<S, V>, h: Entries<V>, levels: seq<Level<S>>)
    requires WellFormed(h) && StackOK(M, h, levels) && |Last(levels).list| == 1
    ensures Last(levels).done == Ids(OpsOf(h))
  {
    var v := Last(levels);
    assert LevelOK(M, h, levels[|levels| - 1]);
    DoneGrows(M, h, levels, 0, |levels| - 1);
    forall a | a in Ids(OpsOf(h)) ensures a in v.done {
      var p := CallAt(h, a) + 1;
      assert CallAt(h, a) < ReturnAt(h, a);
      assert !InList(v.list, p);
    }
  }

  lemma EmptyListFinishes<S, V>(M: Model<S, V>, h: Entries<V>, levels: seq<Level<S>>)
    requires WellFormed(h) && StackOK(M, h, levels) && |Last(levels).list| == 1
    ensures Linearizable(M, OpsOf(h))
  {
    AllDone(M, h, levels);
    TopFinishes(M, h, levels, |levels| - 1);
    FinishIffLinearizable(M, OpsOf(h));
  }

  /** The bottom level is at a return: there is no linearization. */
  lemma BottomFails<S, V>(M: Model<S, V>, h: Entries<V>, levels: seq<Level<S>>)
    requires WellFormed(h) && StackOK(M, h, levels) && |levels| == 1
    requires levels[0].at < |levels[0].list| && !IsCall(h, levels[0].list, levels[0].at)
    ensures !Linearizable(M, OpsOf(h))
  {
    assert LevelOK(M, h, levels[0]);
    NoneLeft(M, h, levels[0]);
    FinishIffLinearizable(M, OpsOf(h));
  }
}
