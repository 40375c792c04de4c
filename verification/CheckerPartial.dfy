/**
 Why the partial linearizations that a failed search reports are the longest ones.  The
 search leaves no legal beginning out: when it is over, the set and state that any beginning
 leads to were on the stack at some time, and when they left it, the stack was reported for
 every operation on it.  A cached pair hides no longer beginning, since equal sets are
 equally long.
 */
module CheckerPartial {
  import opened Linearization
  import opened EntryHistory
  import opened EntryList
  import opened CheckerSearch
  import opened CheckerPaths

  type Longest = seq<Option<seq<nat>>>

  // ----- What has been tried ---------------------------------------------------------

  /** The k-th entry is a call that the model refuses or that leads to a known pair. */
  ghost predicate Tried<S, V>(M: Model<S, V>, h: Entries<V>, v: Level<S>, k: nat, pairs: set<Pair<S>>)
    requires WellFormed(h) && k < |v.list|
  {
    IsCall(h, v.list, k) && IdAt(h, v.list, k) < |h| / 2 &&
    var a := IdAt(h, v.list, k);
    var next := StepOf(M, OpsOf(h), v.state, a);
    next.0 ==> (v.done + {a}, next.1) in pairs
  }

  ghost predicate LevelTried<S, V>(M: Model<S, V>, h: Entries<V>, v: Level<S>, pairs: set<Pair<S>>)
    requires WellFormed(h)
  {
    forall k {:trigger Tried(M, h, v, k, pairs)} :: 1 <= k < v.at && k < |v.list| ==> Tried(M, h, v, k, pairs)
  }

  /** Everything that may go next from the pair leads to a known pair. */
  ghost predicate Closed<S, V>(M: Model<S, V>, H: History<V>, p: Pair<S>, pairs: set<Pair<S>>) {
    forall a {:trigger Enabled(H, p.0, a)} ::
      Enabled(H, p.0, a) && StepOf(M, H, p.1, a).0 ==> (p.0 + {a}, StepOf(M, H, p.1, a).1) in pairs
  }

  ghost predicate PairDone<S, V>(M: Model<S, V>, h: Entries<V>, levels: seq<Level<S>>, pairs: set<Pair<S>>, p: Pair<S>)
    requires WellFormed(h)
  {
    OnStack(levels, p) || Closed(M, OpsOf(h), p, pairs)
  }

  ghost predicate Explored<S(!new), V>(M: Model<S, V>, h: Entries<V>, levels: seq<Level<S>>, pairs: set<Pair<S>>)
    requires WellFormed(h)
  {
    && (forall d {:trigger LevelTried(M, h, levels[d], pairs)} :: 0 <= d < |levels| ==> LevelTried(M, h, levels[d], pairs))
    && (forall d {:trigger levels[d]} :: 1 <= d < |levels| ==> PairOf(levels[d]) in pairs)
    && (forall p {:trigger PairDone(M, h, levels, pairs, p)} :: p in pairs ==> PairDone(M, h, levels, pairs, p))
  }

  // ----- What has been reported ------------------------------------------------------

  /** For each operation of the pair something at least as long has been reported. */
  predicate Covered<S>(p: Pair<S>, longest: Longest) {
    forall i :: i in p.0 ==> i < |longest| && longest[i].Some? && |longest[i].value| >= |p.0|
  }

  ghost predicate PairReported<S>(levels: seq<Level<S>>, longest: Longest, p: Pair<S>) {
    OnStack(levels, p) || Covered(p, longest)
  }

  /** With `partial`, all that has left the stack has been reported; else nothing has. */
  ghost predicate Reported<S(!new)>(levels: seq<Level<S>>, pairs: set<Pair<S>>, longest: Longest, partial: bool) {
    if partial then
      forall p {:trigger PairReported(levels, longest, p)} :: p in pairs ==> PairReported(levels, longest, p)
    else forall i :: 0 <= i < |longest| ==> longest[i].None?
  }

  ghost predicate Thorough<S(!new), V>(M: Model<S, V>, h: Entries<V>, levels: seq<Level<S>>, pairs: set<Pair<S>>, longest: Longest,
                                       partial: bool)
  {
    WellFormed(h) && Explored(M, h, levels, pairs) && Reported(levels, pairs, longest, partial)
  }

  // ----- Rounds ----------------------------------------------------------------------

  lemma BeginThorough<S(!new), V>(M: Model<S, V>, h: Entries<V>, levels: seq<Level<S>>, longest: Longest, partial: bool)
    requires WellFormed(h) && |levels| == 1 && levels[0].at == 1 && forall i :: 0 <= i < |longest| ==> longest[i].None?
    ensures Thorough(M, h, levels, {}, longest, partial)
  {
  }

  lemma OnStackMoved<S>(levels: seq<Level<S>>, p: Pair<S>)
    requires |levels| > 0 && OnStack(levels, p)
    ensures OnStack(Moved(levels), p)
  {
    var d :| 1 <= d < |levels| && PairOf(levels[d]) == p;
    assert PairOf(Moved(levels)[d]) == p;
  }

  lemma MovedTried<S, V>(M: Model<S, V>, h: Entries<V>, v: Level<S>, pairs: set<Pair<S>>)
    requires WellFormed(h) && LevelTried(M, h, v, pairs) && v.at < |v.list| && Tried(M, h, v, v.at, pairs)
    ensures LevelTried(M, h, v.(at := v.at + 1), pairs)
  {
    var w := v.(at := v.at + 1);
    forall k | 1 <= k < w.at && k < |w.list| ensures Tried(M, h, w, k, pairs) {
      assert Tried(M, h, v, k, pairs);
    }
  }

  /** The entry looked at has been tried: look at the next. */
  lemma MovedThorough<S(!new), V>(M: Model<S, V>, h: Entries<V>, levels: seq<Level<S>>, pairs: set<Pair<S>>, longest: Longest, partial: bool)
    requires Thorough(M, h, levels, pairs, longest, partial) && |levels| > 0
    requires Last(levels).at < |Last(levels).list| && Tried(M, h, Last(levels), Last(levels).at, pairs)
    ensures Thorough(M, h, Moved(levels), pairs, longest, partial)
  {
    var next := Moved(levels);
    assert LevelTried(M, h, levels[|levels| - 1], pairs);
    MovedTried(M, h, Last(levels), pairs);
    forall d | 0 <= d < |next| ensures LevelTried(M, h, next[d], pairs) {
      assert d < |levels| - 1 ==> LevelTried(M, h, levels[d], pairs);
    }
    forall p | p in pairs ensures PairDone(M, h, next, pairs, p) && (partial ==> PairReported(next, longest, p)) {
      assert PairDone(M, h, levels, pairs, p) && (partial ==> PairReported(levels, longest, p));
      if OnStack(levels, p) {
        OnStackMoved(levels, p);
      }
    }
    forall d | 1 <= d < |next| ensures PairOf(next[d]) in pairs {
      assert PairOf(levels[d]) in pairs;
    }
  }

  lemma TriedMore<S, V>(M: Model<S, V>, h: Entries<V>, v: Level<S>, w: Level<S>, pairs: set<Pair<S>>, more: set<Pair<S>>)
    requires WellFormed(h) && LevelTried(M, h, v, pairs) && pairs <= more && w == v.(ret := w.ret)
    ensures LevelTried(M, h, w, more)
  {
    forall k | 1 <= k < w.at && k < |w.list| ensures Tried(M, h, w, k, more) {
      assert Tried(M, h, v, k, pairs);
    }
  }

  lemma OnStackGrown<S>(levels: seq<Level<S>>, ret: nat, w: Level<S>, p: Pair<S>)
    requires |levels| > 0 && (OnStack(levels, p) || p == PairOf(w))
    ensures OnStack(Grown(levels, ret, w), p)
  {
    var next := Grown(levels, ret, w);
    if OnStack(levels, p) {
      var d :| 1 <= d < |levels| && PairOf(levels[d]) == p;
      assert PairOf(next[d]) == p;
    } else {
      assert PairOf(next[|levels|]) == p;
    }
  }

  /** A call goes on the stack. */
  lemma GrownThorough<S(!new), V>(M: Model<S, V>, h: Entries<V>, levels: seq<Level<S>>, pairs: set<Pair<S>>, longest: Longest, partial: bool,
                                  ret: nat, w: Level<S>)
    requires Thorough(M, h, levels, pairs, longest, partial) && |levels| > 0 && w.at == 1
    ensures Thorough(M, h, Grown(levels, ret, w), pairs + {PairOf(w)}, longest, partial)
  {
    var next, more := Grown(levels, ret, w), pairs + {PairOf(w)};
    forall d | 0 <= d < |next| ensures LevelTried(M, h, next[d], more) {
      if d < |levels| {
        assert LevelTried(M, h, levels[d], pairs);
        TriedMore(M, h, levels[d], next[d], pairs, more);
      }
    }
    forall p | p in more ensures PairDone(M, h, next, more, p) && (partial ==> PairReported(next, longest, p)) {
      if OnStack(levels, p) || p == PairOf(w) {
        OnStackGrown(levels, ret, w, p);
      } else {
        assert PairDone(M, h, levels, pairs, p) && (partial ==> PairReported(levels, longest, p));
      }
    }
    forall d | 1 <= d < |next| ensures PairOf(next[d]) in more {
      assert d < |levels| ==> PairOf(levels[d]) in pairs;
    }
  }

  /** At a return every call that may go next has been tried. */
  lemma ReturnCloses<S(!new), V>(M: Model<S, V>, h: Entries<V>, v: Level<S>, pairs: set<Pair<S>>)
    requires WellFormed(h) && LevelOK(M, h, v) && v.at < |v.list| && !IsCall(h, v.list, v.at) && LevelTried(M, h, v, pairs)
    ensures Closed(M, OpsOf(h), PairOf(v), pairs)
  {
    var H, b := OpsOf(h), h[v.list[v.at] - 1].id;
    Listed(h, v.done, v.list, v.at);
    Placed(h, v.list[v.at] - 1);
    forall a | Enabled(H, v.done, a) && StepOf(M, H, v.state, a).0 ensures (v.done + {a}, StepOf(M, H, v.state, a).1) in pairs {
      var p := CallAt(h, a) + 1;
      assert CallAt(h, a) < ReturnAt(h, a);
      assert h[p - 1].id == a;
      assert a == b || !Before(H, b, a);
      assert InList(v.list, p);
      var k := Place(v.list, p);
      Ordered(v.list, k, v.at);
      assert Tried(M, h, v, k, pairs);
    }
  }

  /** Nothing that was reported gets shorter. */
  predicate Longer(longest: Longest, next: Longest) {
    |next| == |longest| && forall i :: 0 <= i < |longest| && longest[i].Some? ==> next[i].Some? && |next[i].value| >= |longest[i].value|
  }

  lemma OffTop<S>(levels: seq<Level<S>>, p: Pair<S>)
    requires |levels| > 1 && OnStack(levels, p)
    ensures OnStack(Moved(levels[..|levels| - 1]), p) || p == PairOf(Last(levels))
  {
    var below := levels[..|levels| - 1];
    var d :| 1 <= d < |levels| && PairOf(levels[d]) == p;
    if d < |below| {
      assert PairOf(below[d]) == p;
      OnStackMoved(below, p);
    }
  }

  /** The top level leaves the stack, closed and reported. */
  lemma PoppedThorough<S(!new), V>(M: Model<S, V>, h: Entries<V>, levels: seq<Level<S>>, pairs: set<Pair<S>>, longest: Longest,
                                   next: Longest, partial: bool)
    requires Thorough(M, h, levels, pairs, longest, partial) && StackOK(M, h, levels) && |levels| > 1
    requires Last(levels).at < |Last(levels).list| && !IsCall(h, Last(levels).list, Last(levels).at)
    requires if partial then Longer(longest, next) && Covered(PairOf(Last(levels)), next) else next == longest
    ensures Thorough(M, h, Moved(levels[..|levels| - 1]), pairs, next, partial)
  {
    var below, top := levels[..|levels| - 1], Last(levels);
    assert LevelOK(M, h, levels[|levels| - 1]) && LevelTried(M, h, levels[|levels| - 1], pairs);
    ReturnCloses(M, h, top, pairs);
    BelowTried(M, h, levels, pairs);
    var rest := Moved(below);
    forall p | p in pairs ensures PairDone(M, h, rest, pairs, p) && (partial ==> PairReported(rest, next, p)) {
      assert PairDone(M, h, levels, pairs, p) && (partial ==> PairReported(levels, longest, p));
      if OnStack(levels, p) {
        OffTop(levels, p);
      }
    }
    forall d | 1 <= d < |rest| ensures PairOf(rest[d]) in pairs {
      assert PairOf(levels[d]) in pairs;
    }
  }

  lemma BelowTried<S(!new), V>(M: Model<S, V>, h: Entries<V>, levels: seq<Level<S>>, pairs: set<Pair<S>>)
    requires WellFormed(h) && Explored(M, h, levels, pairs) && StackOK(M, h, levels) && |levels| > 1
    ensures var rest := Moved(levels[..|levels| - 1]);
            forall d {:trigger LevelTried(M, h, rest[d], pairs)} :: 0 <= d < |rest| ==> LevelTried(M, h, rest[d], pairs)
  {
    var below := levels[..|levels| - 1];
    var rest, m := Moved(below), |levels| - 2;
    assert PushedAt(M, h, levels, m) && LevelTried(M, h, levels[m], pairs);
    assert PairOf(levels[m + 1]) in pairs;
    assert Tried(M, h, levels[m], levels[m].at, pairs);
    MovedTried(M, h, levels[m], pairs);
    forall d | 0 <= d < |rest| ensures LevelTried(M, h, rest[d], pairs) {
      assert d < m ==> LevelTried(M, h, levels[d], pairs);
    }
  }

  // ----- The end ---------------------------------------------------------------------

  lemma SetSnoc(front: seq<nat>, a: nat)
    ensures SetOf(front + [a]) == SetOf(front) + {a}
  {
    forall x ensures x in SetOf(front + [a]) <==> x in SetOf(front) + {a} {
    }
  }

  lemma FrontEnabled<S, V>(M: Model<S, V>, H: History<V>, front: seq<nat>, a: nat)
    requires forall k :: 0 <= k < |front + [a]| ==> Enabled(H, SetOf((front + [a])[..k]), (front + [a])[k])
    ensures Enabled(H, SetOf(front), a) && forall k :: 0 <= k < |front| ==> Enabled(H, SetOf(front[..k]), front[k])
  {
    var order := front + [a];
    assert order[..|front|] == front && order[|front|] == a;
    forall k | 0 <= k < |front| ensures Enabled(H, SetOf(front[..k]), front[k]) {
      assert front[..k] == order[..k] && front[k] == order[k];
    }
  }

  lemma BeginningFront<S, V>(M: Model<S, V>, H: History<V>, order: seq<nat>)
    requires Beginning(M, H, order) && order != []
    ensures var front, a := order[..|order| - 1], order[|order| - 1];
            && Beginning(M, H, front) && Within(H, front) && Enabled(H, SetOf(front), a)
            && StepOf(M, H, EndState(M, H, M.init, front), a).0
            && EndState(M, H, M.init, order) == StepOf(M, H, EndState(M, H, M.init, front), a).1
            && SetOf(order) == SetOf(front) + {a}
  {
    var front, a := order[..|order| - 1], order[|order| - 1];
    assert order == front + [a];
    FrontEnabled(M, H, front, a);
    RunsFront(M, H, M.init, front, a);
    SetSnoc(front, a);
  }

  lemma {:induction false} RunsFront<S, V>(M: Model<S, V>, H: History<V>, q: S, front: seq<nat>, a: nat)
    requires Within(H, front + [a]) && Runs(M, H, q, front + [a])
    ensures Within(H, front) && a < |H| && Runs(M, H, q, front) && StepOf(M, H, EndState(M, H, q, front), a).0
    ensures EndState(M, H, q, front + [a]) == StepOf(M, H, EndState(M, H, q, front), a).1
    decreases |front|
  {
    assert (front + [a])[|front|] == a;
    forall i | 0 <= i < |front| ensures front[i] < |H| {
      assert (front + [a])[i] == front[i];
    }
    if front == [] {
      assert front + [a] == [a] && [a][1..] == [];
    } else {
      assert (front + [a])[0] == front[0] && (front + [a])[1..] == front[1..] + [a];
      RunsFront(M, H, StepOf(M, H, q, front[0]).1, front[1..], a);
    }
  }

  lemma BeginningWithin<S, V>(M: Model<S, V>, H: History<V>, order: seq<nat>)
    requires forall k :: 0 <= k < |order| ==> Enabled(H, SetOf(order[..k]), order[k])
    ensures Within(H, order)
  {
    forall k | 0 <= k < |order| ensures order[k] < |H| {
      assert Enabled(H, SetOf(order[..k]), order[k]);
    }
  }

  lemma {:induction false} BeginningSize<S, V>(M: Model<S, V>, H: History<V>, order: seq<nat>)
    requires Beginning(M, H, order)
    ensures |SetOf(order)| == |order|
  {
    if order != [] {
      BeginningFront(M, H, order);
      BeginningSize(M, H, order[..|order| - 1]);
    }
  }

  /** Every legal beginning leads to a known pair. */
  lemma {:induction false} BeginningKnown<S(!new), V>(M: Model<S, V>, H: History<V>, pairs: set<Pair<S>>, order: seq<nat>)
    requires Closed(M, H, ({}, M.init), pairs) && forall p {:trigger Closed(M, H, p, pairs)} :: p in pairs ==> Closed(M, H, p, pairs)
    requires Beginning(M, H, order) && order != []
    ensures Within(H, order) && (SetOf(order), EndState(M, H, M.init, order)) in pairs
  {
    var front, a := order[..|order| - 1], order[|order| - 1];
    BeginningWithin(M, H, order);
    BeginningFront(M, H, order);
    var p := (SetOf(front), EndState(M, H, M.init, front));
    if front == [] {
      assert SetOf(front) == {};
    } else {
      BeginningKnown(M, H, pairs, front);
    }
    assert Closed(M, H, p, pairs);
  }

  /** longest[i] is a longest legal beginning with i in it, or there is none. */
  ghost predicate Maximal<S, V>(M: Model<S, V>, H: History<V>, longest: Longest) {
    && |longest| == |H|
    && (forall i :: 0 <= i < |H| && longest[i].Some? ==> i in longest[i].value && Beginning(M, H, longest[i].value))
    && (forall order, i {:trigger Beginning(M, H, order), i in order} :: Beginning(M, H, order) && i in order ==>
          i < |H| && longest[i].Some? && |order| <= |longest[i].value|)
  }

  /** The search is over at the bottom: what was reported is longest. */
  lemma EndMaximal<S(!new), V>(M: Model<S, V>, h: Entries<V>, levels: seq<Level<S>>, pairs: set<Pair<S>>, longest: Longest)
    requires Thorough(M, h, levels, pairs, longest, true) && StackOK(M, h, levels) && |levels| == 1
    requires levels[0].at < |levels[0].list| && !IsCall(h, levels[0].list, levels[0].at)
    requires |longest| == |OpsOf(h)|
    requires forall i :: 0 <= i < |longest| && longest[i].Some? ==> i in longest[i].value && Beginning(M, OpsOf(h), longest[i].value)
    ensures Maximal(M, OpsOf(h), longest)
  {
    var H := OpsOf(h);
    assert LevelOK(M, h, levels[0]) && LevelTried(M, h, levels[0], pairs);
    ReturnCloses(M, h, levels[0], pairs);
    forall p | p in pairs ensures Closed(M, H, p, pairs) {
      assert PairDone(M, h, levels, pairs, p);
    }
    forall order, i | Beginning(M, H, order) && i in order
      ensures i < |H| && longest[i].Some? && |order| <= |longest[i].value|
    {
      BeginningKnown(M, H, pairs, order);
      BeginningSize(M, H, order);
      var p := (SetOf(order), EndState(M, H, M.init, order));
      assert PairReported(levels, longest, p);
      assert Covered(p, longest) && i in p.0;
    }
  }
}
