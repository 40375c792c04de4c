/**
 What the verdict on a key/value history means, without the model's step function: the
 operations can be put in an order that agrees with real time and in which every get
 returns the text of the last put to its key followed by what was appended since.
 */
module KvMeaning {
  import opened Linearization
  import opened EntryHistory
  import opened KvLocality
  import W = Writes

  type Log = seq<W.Write<Str, char>>

  /** The write that an operation is; a get is none. */
  function WritesAt(H: History<KvValue>, a: nat): Log
    requires a < |H|
  {
    var v := H[a].input;
    if !v.Input? || v.op == 0 then [] else [W.Write(v.key, v.op == 1, v.value)]
  }

  function WritesOf(H: History<KvValue>, order: seq<nat>): Log
    requires Within(H, order)
  {
    if order == [] then [] else WritesOf(H, order[..|order| - 1]) + WritesAt(H, order[|order| - 1])
  }

  /** A key without a write reads as the empty text. */
  function Text(w: Log, key: Str): Str {
    if W.ValueAfter(w, key).Some? then W.ValueAfter(w, key).value else ""
  }

  /** After the writes w, operation a is an input with an output, and right if it is a get. */
  predicate Right(H: History<KvValue>, w: Log, a: nat)
    requires a < |H|
  {
    && H[a].input.Input? && H[a].output.Output?
    && (H[a].input.op == 0 ==> H[a].output.result == Text(w, H[a].input.key))
  }

  /** Every get of the order returns what was written before it. */
  predicate AllRight(H: History<KvValue>, order: seq<nat>)
    requires Within(H, order)
  {
    forall k :: 0 <= k < |order| ==> Right(H, WritesOf(H, order[..k]), order[k])
  }

  /** The order takes every operation once, agrees with real time, and explains the gets. */
  ghost predicate Explains(H: History<KvValue>, order: seq<nat>) {
    && Within(H, order) && Distinct(order) && (forall a :: a in Ids(H) <==> a in order)
    && RespectsTime(H, order) && AllRight(H, order)
  }

  // ----- The model's step ------------------------------------------------------------

  /** The map holds what the writes have left. */
  ghost predicate Holds(m: map<Str, Str>, w: Log) {
    forall key :: At(m, key) == Text(w, key)
  }

  lemma StepRight(H: History<KvValue>, m: map<Str, Str>, w: Log, a: nat)
    requires a < |H| && Holds(m, w)
    ensures var r := StepOf(MapModel(), H, m, a);
            (r.0 <==> Right(H, w, a)) && (r.0 ==> Holds(r.1, w + WritesAt(H, a)))
  {
    var r, v := StepOf(MapModel(), H, m, a), H[a].input;
    if r.0 {
      forall key ensures At(r.1, key) == Text(w + WritesAt(H, a), key) {
        assert At(m, key) == Text(w, key);
        if v.op == 0 {
          assert w + [] == w;
        } else {
          W.ValueMore(w, WritesAt(H, a)[0], key);
          assert v.key == key && v.op != 1 ==> "" + v.value == v.value;
        }
      }
    }
  }

  lemma WritesSnoc(H: History<KvValue>, front: seq<nat>, last: nat)
    requires Within(H, front) && last < |H|
    ensures Within(H, front + [last]) && WritesOf(H, front + [last]) == WritesOf(H, front) + WritesAt(H, last)
  {
    assert (front + [last])[..|front|] == front;
  }

  lemma Associates(a: Log, b: Log, c: Log)
    ensures a + (b + c) == a + b + c
  {
  }

  lemma WritesOfOne(H: History<KvValue>, a: nat)
    requires a < |H|
    ensures Within(H, [a]) && WritesOf(H, [a]) == WritesAt(H, a)
  {
    assert [a][..0] == [] && [] + WritesAt(H, a) == WritesAt(H, a);
  }

  lemma {:induction false} WritesSplit(H: History<KvValue>, a: nat, rest: seq<nat>)
    requires a < |H| && Within(H, rest)
    ensures Within(H, [a] + rest) && WritesOf(H, [a] + rest) == WritesAt(H, a) + WritesOf(H, rest)
  {
    if rest == [] {
      WritesOfOne(H, a);
      assert [a] + rest == [a] && WritesAt(H, a) + [] == WritesAt(H, a);
    } else {
      var front, last := rest[..|rest| - 1], rest[|rest| - 1];
      WritesSplit(H, a, front);
      assert rest == front + [last] && [a] + rest == ([a] + front) + [last];
      WritesSnoc(H, front, last);
      WritesSnoc(H, [a] + front, last);
      Associates(WritesAt(H, a), WritesOf(H, front), WritesAt(H, last));
    }
  }

  /** Every operation of the order is right after w and the operations before it. */
  predicate RightFrom(H: History<KvValue>, w: Log, order: seq<nat>)
    requires Within(H, order)
  {
    forall k :: 0 <= k < |order| ==> Right(H, w + WritesOf(H, order[..k]), order[k])
  }

  lemma RightShift(H: History<KvValue>, w: Log, order: seq<nat>, k: nat)
    requires Within(H, order) && k + 1 < |order|
    ensures Within(H, order[1..][..k])
    ensures w + WritesOf(H, order[..k + 1]) == w + WritesAt(H, order[0]) + WritesOf(H, order[1..][..k])
    ensures order[k + 1] == order[1..][k]
  {
    var a, rest := order[0], order[1..][..k];
    WritesSplit(H, a, rest);
    assert order[..k + 1] == [a] + rest;
  }

  lemma RightTail(H: History<KvValue>, w: Log, order: seq<nat>)
    requires Within(H, order) && order != [] && RightFrom(H, w, order)
    ensures Right(H, w, order[0]) && RightFrom(H, w + WritesAt(H, order[0]), order[1..])
  {
    var rest := order[1..];
    assert Right(H, w + WritesOf(H, order[..0]), order[0]) && w + WritesOf(H, order[..0]) == w;
    forall k | 0 <= k < |rest| ensures Right(H, w + WritesAt(H, order[0]) + WritesOf(H, rest[..k]), rest[k]) {
      assert Right(H, w + WritesOf(H, order[..k + 1]), order[k + 1]);
      RightShift(H, w, order, k);
    }
  }

  lemma RightHead(H: History<KvValue>, w: Log, order: seq<nat>)
    requires Within(H, order) && order != []
    requires Right(H, w, order[0]) && RightFrom(H, w + WritesAt(H, order[0]), order[1..])
    ensures RightFrom(H, w, order)
  {
    var rest := order[1..];
    assert w + WritesOf(H, order[..0]) == w;
    forall k | 0 <= k < |order| ensures Right(H, w + WritesOf(H, order[..k]), order[k]) {
      if k > 0 {
        assert Right(H, w + WritesAt(H, order[0]) + WritesOf(H, rest[..k - 1]), rest[k - 1]);
        RightShift(H, w, order, k - 1);
      }
    }
  }

  lemma RightCons(H: History<KvValue>, w: Log, order: seq<nat>)
    requires Within(H, order) && order != []
    ensures RightFrom(H, w, order) <==> Right(H, w, order[0]) && RightFrom(H, w + WritesAt(H, order[0]), order[1..])
  {
    if RightFrom(H, w, order) {
      RightTail(H, w, order);
    }
    if Right(H, w, order[0]) && RightFrom(H, w + WritesAt(H, order[0]), order[1..]) {
      RightHead(H, w, order);
    }
  }

  lemma {:induction false} RunsIffRight(H: History<KvValue>, m: map<Str, Str>, w: Log, order: seq<nat>)
    requires Within(H, order) && Holds(m, w)
    ensures Runs(MapModel(), H, m, order) <==> RightFrom(H, w, order)
    decreases |order|
  {
    if order != [] {
      StepRight(H, m, w, order[0]);
      RightCons(H, w, order);
      if Right(H, w, order[0]) {
        RunsIffRight(H, StepOf(MapModel(), H, m, order[0]).1, w + WritesAt(H, order[0]), order[1..]);
      }
    }
  }

  lemma FromNothing(H: History<KvValue>, order: seq<nat>)
    requires Within(H, order)
    ensures Runs(MapModel(), H, map[], order) <==> AllRight(H, order)
  {
    RunsIffRight(H, map[], [], order);
    forall k | 0 <= k < |order| ensures [] + WritesOf(H, order[..k]) == WritesOf(H, order[..k]) {
    }
    if RightFrom(H, [], order) {
      forall k | 0 <= k < |order| ensures Right(H, WritesOf(H, order[..k]), order[k]) {
        assert Right(H, [] + WritesOf(H, order[..k]), order[k]);
      }
    }
    if AllRight(H, order) {
      forall k | 0 <= k < |order| ensures Right(H, [] + WritesOf(H, order[..k]), order[k]) {
        assert Right(H, WritesOf(H, order[..k]), order[k]);
      }
    }
  }

  /** Linearizable as a whole map means that some order explains every get. */
  lemma LinearizableMeans(H: History<KvValue>)
    ensures Linearizable(MapModel(), H) <==> exists order :: Explains(H, order)
  {
    if Linearizable(MapModel(), H) {
      var order :| Orders(MapModel(), H, Ids(H), map[], order);
      FromNothing(H, order);
      assert Explains(H, order);
    }
    if exists order :: Explains(H, order) {
      var order :| Explains(H, order);
      FromNothing(H, order);
      assert Orders(MapModel(), H, Ids(H), map[], order);
    }
  }

  // ----- One operation after the other -----------------------------------------------

  /** `order` lists the operations as they followed one another in time. */
  ghost predicate InTurn(H: History<KvValue>, order: seq<nat>) {
    && Within(H, order) && (forall a :: a in Ids(H) <==> a in order)
    && forall i, j :: 0 <= i < j < |order| ==> Before(H, order[i], order[j])
  }

  lemma InTurnDistinct(H: History<KvValue>, order: seq<nat>)
    requires Timed(H) && InTurn(H, order)
    ensures Distinct(order) && RespectsTime(H, order) && NoTies(H)
  {
    forall i, j | 0 <= i < j < |order| ensures order[i] != order[j] && !Before(H, order[j], order[i]) {
      assert Before(H, order[i], order[j]);
    }
    forall a, b | 0 <= a < |H| && 0 <= b < |H| ensures H[a].ret != H[b].call {
      assert a in Ids(H) && b in Ids(H);
      var i :| 0 <= i < |order| && order[i] == a;
      var j :| 0 <= j < |order| && order[j] == b;
      assert i < j ==> Before(H, order[i], order[j]);
      assert j < i ==> Before(H, order[j], order[i]);
    }
  }

  /** There is only one order that agrees with real time. */
  lemma {:induction false} OneOrder(H: History<KvValue>, ids: set<nat>, order: seq<nat>, other: seq<nat>)
    requires Within(H, order) && Within(H, other) && Distinct(order) && Distinct(other)
    requires (forall a :: a in ids <==> a in order) && (forall a :: a in ids <==> a in other)
    requires forall i, j :: 0 <= i < j < |order| ==> Before(H, order[i], order[j])
    requires RespectsTime(H, other)
    ensures order == other
    decreases |order|
  {
    FirstThere(order);
    FirstThere(other);
    if order != [] {
      SameHead(H, ids, order, other);
      assert order == [order[0]] + order[1..] && other == [other[0]] + other[1..];
      forall a ensures (a in ids - {order[0]} <==> a in order[1..]) && (a in ids - {order[0]} <==> a in other[1..]) {
        TailMembers(order, a);
        TailMembers(other, a);
      }
      OneOrder(H, ids - {order[0]}, order[1..], other[1..]);
    }
  }

  lemma FirstThere(order: seq<nat>)
    ensures order == [] || order[0] in order
  {
  }

  lemma TailMembers(order: seq<nat>, a: nat)
    requires order != [] && Distinct(order)
    ensures a in order[1..] <==> a in order && a != order[0]
  {
    if a in order && a != order[0] {
      var i :| 0 <= i < |order| && order[i] == a;
      assert order[1..][i - 1] == a;
    }
  }

  lemma SameHead(H: History<KvValue>, ids: set<nat>, order: seq<nat>, other: seq<nat>)
    requires Within(H, order) && Within(H, other) && order != []
    requires (forall a :: a in ids <==> a in order) && (forall a :: a in ids <==> a in other)
    requires forall i, j :: 0 <= i < j < |order| ==> Before(H, order[i], order[j])
    requires RespectsTime(H, other)
    ensures other != [] && other[0] == order[0]
  {
    assert order[0] in order;
    assert order[0] in other;
    var j :| 0 <= j < |other| && other[j] == order[0];
    assert other[0] in other;
    assert other[0] in order;
    var i :| 0 <= i < |order| && order[i] == other[0];
    assert i == 0 || Before(H, order[0], order[i]);
    assert j == 0 || !Before(H, other[j], other[0]);
  }

  /** Operations that followed one another are linearizable exactly if every get returns the
      last put of its key and what was appended since. */
  lemma SequentialMeans(H: History<KvValue>, order: seq<nat>)
    requires Timed(H) && InTurn(H, order)
    ensures Linearizable(MapModel(), H) <==> AllRight(H, order)
  {
    LinearizableMeans(H);
    InTurnDistinct(H, order);
    if exists other :: Explains(H, other) {
      var other :| Explains(H, other);
      OneOrder(H, Ids(H), order, other);
    }
    if AllRight(H, order) {
      assert Explains(H, order);
    }
  }
}
