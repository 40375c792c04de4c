/**
 What porcupine decides (porcupine/model.go): whether the operations of a history can be
 put in one order that agrees with real time and that the model accepts.  `CanFinish` is
 the same question asked from the middle of a search.
 */
module Linearization {

  datatype Operation<V> = Operation(input: V, call: int, output: V, ret: int)

  datatype Model<!S, !V> = Model(init: S, step: (S, V, V) -> (bool, S))

  type History<V> = seq<Operation<V>>

  predicate Before<V>(H: History<V>, a: nat, b: nat)
    requires a < |H| && b < |H|
  {
    H[a].ret < H[b].call
  }

  predicate Index<V>(H: History<V>, i: int) {
    0 <= i < |H|
  }

  function Ids<V>(H: History<V>): set<nat> {
    set i | 0 <= i < |H| && Index(H, i)
  }

  function StepOf<S, V>(M: Model<S, V>, H: History<V>, q: S, a: nat): (bool, S)
    requires a < |H|
  {
    M.step(q, H[a].input, H[a].output)
  }

  // ----- The definition --------------------------------------------------------------

  predicate Distinct(order: seq<nat>) {
    forall i, j :: 0 <= i < j < |order| ==> order[i] != order[j]
  }

  predicate Within<V>(H: History<V>, order: seq<nat>) {
    forall i :: 0 <= i < |order| ==> order[i] < |H|
  }

  /** No operation is placed after one that began only after it had returned. */
  predicate RespectsTime<V>(H: History<V>, order: seq<nat>)
    requires Within(H, order)
  {
    forall i, j :: 0 <= i < j < |order| ==> !Before(H, order[j], order[i])
  }

  predicate Runs<S, V>(M: Model<S, V>, H: History<V>, q: S, order: seq<nat>)
    requires Within(H, order)
  {
    order == [] || (StepOf(M, H, q, order[0]).0 && Runs(M, H, StepOf(M, H, q, order[0]).1, order[1..]))
  }

  /** `order` takes exactly the operations `ids`, from state q. */
  ghost predicate Orders<S, V>(M: Model<S, V>, H: History<V>, ids: set<nat>, q: S, order: seq<nat>) {
    && Within(H, order) && Distinct(order)
    && (forall a :: a in ids <==> a in order)
    && RespectsTime(H, order) && Runs(M, H, q, order)
  }

  ghost predicate Linearizable<S, V>(M: Model<S, V>, H: History<V>) {
    exists order :: Orders(M, H, Ids(H), M.init, order)
  }

  // ----- The search ------------------------------------------------------------------

  /** a may be next when every other operation that returned before its call is done. */
  predicate Enabled<V>(H: History<V>, done: set<nat>, a: nat) {
    a < |H| && a !in done && forall b: nat :: b < |H| && b != a && Before(H, b, a) ==> b in done
  }

  ghost predicate CanFinish<S, V>(M: Model<S, V>, H: History<V>, done: set<nat>, q: S)
    decreases Ids(H) - done
  {
    Ids(H) <= done ||
    exists a :: Enabled(H, done, a) && StepOf(M, H, q, a).0 && Extends(M, H, done, q, a)
  }

  /** The search can go on through a. */
  ghost predicate Extends<S, V>(M: Model<S, V>, H: History<V>, done: set<nat>, q: S, a: nat)
    requires Enabled(H, done, a)
    decreases Ids(H) - done, 0
  {
    assert a in Ids(H) - done;
    CanFinish(M, H, done + {a}, StepOf(M, H, q, a).1)
  }

  lemma {:induction false} OrderCanFinish<S, V>(M: Model<S, V>, H: History<V>, done: set<nat>, q: S, order: seq<nat>)
    requires Orders(M, H, Ids(H) - done, q, order)
    ensures CanFinish(M, H, done, q)
    decreases |order|
  {
    if order != [] {
      var a, rest := order[0], order[1..];
      assert order == [a] + rest;
      assert a in Ids(H) - done;
      forall b: nat | b < |H| && b != a && Before(H, b, a) ensures b in done {
        assert b !in order;
      }
      forall i, j | 0 <= i < j < |rest| ensures !Before(H, rest[j], rest[i]) && rest[i] != rest[j] {
        assert rest[i] == order[i + 1] && rest[j] == order[j + 1];
      }
      forall b ensures b in Ids(H) - (done + {a}) <==> b in rest {
        assert b in order <==> b == a || b in rest;
        if b in rest {
          var i :| 0 <= i < |rest| && rest[i] == b;
          assert order[i + 1] == b;
        }
      }
      OrderCanFinish(M, H, done + {a}, StepOf(M, H, q, a).1, rest);
      assert Enabled(H, done, a) && Extends(M, H, done, q, a);
    } else {
      forall a | a in Ids(H) ensures a in done {
        assert a in Ids(H) - done <==> a in order;
      }
    }
  }

  lemma {:induction false} FinishHasOrder<S, V>(M: Model<S, V>, H: History<V>, done: set<nat>, q: S) returns (order: seq<nat>)
    requires CanFinish(M, H, done, q)
    ensures Orders(M, H, Ids(H) - done, q, order)
    decreases Ids(H) - done
  {
    if Ids(H) <= done {
      order := [];
    } else {
      var a :| Enabled(H, done, a) && StepOf(M, H, q, a).0 && Extends(M, H, done, q, a);
      assert a in Ids(H) - done;
      var rest := FinishHasOrder(M, H, done + {a}, StepOf(M, H, q, a).1);
      order := [a] + rest;
      assert order[1..] == rest;
      forall j | 0 <= j < |rest| ensures rest[j] in Ids(H) && rest[j] !in done && rest[j] != a {
        assert rest[j] in rest;
      }
      forall b ensures b in Ids(H) - done <==> b in order {
        assert b in order <==> b == a || b in rest;
      }
    }
  }

  /** Searching from nothing decides linearizability. */
  lemma FinishIffLinearizable<S, V>(M: Model<S, V>, H: History<V>)
    ensures CanFinish(M, H, {}, M.init) <==> Linearizable(M, H)
  {
    assert Ids(H) - {} == Ids(H);
    if CanFinish(M, H, {}, M.init) {
      var order := FinishHasOrder(M, H, {}, M.init);
    }
    if Linearizable(M, H) {
      var order :| Orders(M, H, Ids(H), M.init, order);
      OrderCanFinish(M, H, {}, M.init, order);
    }
  }
}
