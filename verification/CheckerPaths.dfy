/**
 What the stack of the search stands for: the calls on it are a legal beginning of a
 linearization.  Also why the search ends: only finitely many pairs can be reached.
 */
module CheckerPaths {
  import opened Linearization
  import opened EntryHistory
  import opened CheckerSearch

  function SetOf(s: seq<nat>): set<nat> {
    set x | x in s
  }

  function EndState<S, V>(M: Model<S, V>, H: History<V>, q: S, order: seq<nat>): S
    requires Within(H, order)
  {
    if order == [] then q else EndState(M, H, StepOf(M, H, q, order[0]).1, order[1..])
  }

  /** A legal beginning: each operation was free to go next and the model accepts it. */
  ghost predicate Beginning<S, V>(M: Model<S, V>, H: History<V>, order: seq<nat>) {
    && (forall k :: 0 <= k < |order| ==> Enabled(H, SetOf(order[..k]), order[k]))
    && Runs(M, H, M.init, order)
  }

  lemma {:induction false} RunsAppend<S, V>(M: Model<S, V>, H: History<V>, q: S, order: seq<nat>, a: nat)
    requires Within(H, order) && a < |H| && Runs(M, H, q, order) && StepOf(M, H, EndState(M, H, q, order), a).0
    ensures Runs(M, H, q, order + [a])
    ensures EndState(M, H, q, order + [a]) == StepOf(M, H, EndState(M, H, q, order), a).1
    decreases |order|
  {
    if order == [] {
      assert (order + [a])[1..] == [];
    } else {
      assert (order + [a])[1..] == order[1..] + [a];
      RunsAppend(M, H, StepOf(M, H, q, order[0]).1, order[1..], a);
    }
  }

  lemma BeginningAppend<S, V>(M: Model<S, V>, H: History<V>, order: seq<nat>, a: nat)
    requires Beginning(M, H, order) && Enabled(H, SetOf(order), a)
    requires StepOf(M, H, EndState(M, H, M.init, order), a).0
    ensures Beginning(M, H, order + [a])
  {
    RunsAppend(M, H, M.init, order, a);
    forall k | 0 <= k < |order + [a]| ensures Enabled(H, SetOf((order + [a])[..k]), (order + [a])[k]) {
      if k < |order| {
        assert (order + [a])[..k] == order[..k];
      } else {
        assert (order + [a])[..k] == order;
      }
    }
  }

  /** A legal beginning with every operation in it is a linearization. */
  lemma BeginningComplete<S, V>(M: Model<S, V>, H: History<V>, order: seq<nat>)
    requires Beginning(M, H, order) && SetOf(order) == Ids(H)
    ensures Orders(M, H, Ids(H), M.init, order)
  {
    forall i, j | 0 <= i < j < |order| ensures order[i] != order[j] && !Before(H, order[j], order[i]) {
      assert Enabled(H, SetOf(order[..j]), order[j]) && Enabled(H, SetOf(order[..i]), order[i]);
      assert order[..j][i] == order[i];
      assert forall k :: 0 <= k < i ==> order[..j][k] == order[..i][k];
    }
    forall a ensures a in Ids(H) <==> a in order {
      assert a in SetOf(order) <==> a in order;
    }
  }

  // ----- The path of a stack ---------------------------------------------------------

  /** The operations the levels below d have performed, in order. */
  function Path<S, V>(h: Entries<V>, levels: seq<Level<S>>, d: nat): (r: seq<nat>)
    requires d < |levels|
    ensures |r| == d
  {
    if d == 0 then [] else Path(h, levels, d - 1) + [ChosenId(h, levels[d - 1])]
  }

  lemma {:induction false} PathBegins<S, V>(M: Model<S, V>, h: Entries<V>, levels: seq<Level<S>>, d: nat)
    requires WellFormed(h) && StackOK(M, h, levels) && d < |levels|
    ensures Beginning(M, OpsOf(h), Path(h, levels, d)) && SetOf(Path(h, levels, d)) == levels[d].done
    ensures EndState(M, OpsOf(h), M.init, Path(h, levels, d)) == levels[d].state
  {
    if d > 0 {
      PathBegins(M, h, levels, d - 1);
      assert PushedAt(M, h, levels, d - 1) && LevelOK(M, h, levels[d - 1]);
      CallEnabled(M, h, levels[d - 1]);
      var order, a := Path(h, levels, d - 1), ChosenId(h, levels[d - 1]);
      BeginningAppend(M, OpsOf(h), order, a);
      RunsAppend(M, OpsOf(h), M.init, order, a);
      forall x ensures x in SetOf(order + [a]) <==> x in SetOf(order) + {a} {
      }
    }
  }

  // ----- The pairs that can be reached -----------------------------------------------

  ghost function Successor<S, V>(M: Model<S, V>, H: History<V>, p: Pair<S>, a: nat): Pair<S> {
    if a < |H| then (p.0 + {a}, StepOf(M, H, p.1, a).1) else p
  }

  ghost function Reachable<S, V>(M: Model<S, V>, H: History<V>, d: nat): set<Pair<S>> {
    if d == 0 then {({}, M.init)}
    else set p, a | p in Reachable(M, H, d - 1) && a in Ids(H) :: Successor(M, H, p, a)
  }

  ghost function Universe<S, V>(M: Model<S, V>, H: History<V>, d: nat): set<Pair<S>> {
    if d == 0 then Reachable(M, H, 0) else Universe(M, H, d - 1) + Reachable(M, H, d)
  }

  lemma {:induction false} InUniverse<S, V>(M: Model<S, V>, H: History<V>, d: nat, n: nat)
    requires d <= n
    ensures Reachable(M, H, d) <= Universe(M, H, n)
  {
    if d < n {
      InUniverse(M, H, d, n - 1);
    }
  }

  lemma {:induction false} LevelReachable<S, V>(M: Model<S, V>, h: Entries<V>, levels: seq<Level<S>>, d: nat)
    requires WellFormed(h) && StackOK(M, h, levels) && d < |levels|
    ensures PairOf(levels[d]) in Reachable(M, OpsOf(h), d)
  {
    if d > 0 {
      LevelReachable(M, h, levels, d - 1);
      assert PushedAt(M, h, levels, d - 1) && LevelOK(M, h, levels[d - 1]);
      var v := levels[d - 1];
      CallEnabled(M, h, v);
      assert PairOf(levels[d]) == Successor(M, OpsOf(h), PairOf(v), IdAt(h, v.list, v.at));
    }
  }

  lemma {:induction false} Bounded(n: nat, s: set<nat>)
    requires forall x :: x in s ==> x < n
    ensures |s| <= n
  {
    if n > 0 {
      Bounded(n - 1, s - {n - 1});
    } else {
      assert s == {};
    }
  }

  /** Every level's pair lies in one finite set. */
  lemma LevelInUniverse<S, V>(M: Model<S, V>, h: Entries<V>, levels: seq<Level<S>>, d: nat)
    requires WellFormed(h) && StackOK(M, h, levels) && d < |levels|
    ensures PairOf(levels[d]) in Universe(M, OpsOf(h), |h| / 2)
  {
    DoneGrows(M, h, levels, 0, d);
    forall x | x in levels[d].done ensures x < |h| / 2 {
      assert x in Ids(OpsOf(h));
    }
    Bounded(|h| / 2, levels[d].done);
    LevelReachable(M, h, levels, d);
    InUniverse(M, OpsOf(h), d, |h| / 2);
  }
}
