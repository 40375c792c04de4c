/**
 The key/value model (models/kv.go) checks each key on its own.  That is sound and
 complete: a history of a whole map is linearizable exactly when its part for every key
 is linearizable as a single value.
 */
module KvLocality {
  import opened Linearization
  import opened EntryHistory

  type Str = seq<char>

  /** An input with operation 0 (get), 1 (put) or else append; an output. */
  datatype KvValue = Input(op: nat, key: Str, value: Str) | Output(result: Str)

  function KvStep(st: Str, input: KvValue, output: KvValue): (bool, Str) {
    if !input.Input? || !output.Output? then (false, st)
    else if input.op == 0 then (output.result == st, st)
    else if input.op == 1 then (true, input.value)
    else (true, st + input.value)
  }

  /** models/kv.go: the value of a single key. */
  function KvModel(): Model<Str, KvValue> {
    Model("", (st, i, o) => KvStep(st, i, o))
  }

  function At(m: map<Str, Str>, k: Str): Str {
    if k in m then m[k] else ""
  }

  function KeyOf(v: KvValue): Str {
    if v.Input? then v.key else ""
  }

  function MapStep(m: map<Str, Str>, input: KvValue, output: KvValue): (bool, map<Str, Str>) {
    var r := KvStep(At(m, KeyOf(input)), input, output);
    (r.0, m[KeyOf(input) := r.1])
  }

  /** The whole map, every key at once. */
  function MapModel(): Model<map<Str, Str>, KvValue> {
    Model(map[], (m, i, o) => MapStep(m, i, o))
  }

  function OpKey(H: History<KvValue>, i: nat): Str
    requires i < |H|
  {
    KeyOf(H[i].input)
  }

  function KeyIds(H: History<KvValue>, k: Str): set<nat> {
    set i | 0 <= i < |H| && OpKey(H, i) == k
  }

  // ----- From the map to one key -----------------------------------------------------

  function OfKey(H: History<KvValue>, k: Str, order: seq<nat>): (r: seq<nat>)
    requires Within(H, order)
    ensures Within(H, r)
    ensures forall a :: a in r <==> a in order && OpKey(H, a) == k
  {
    if order == [] then [] else
      var rest := OfKey(H, k, order[1..]);
      assert forall a :: a in order <==> a == order[0] || a in order[1..];
      if OpKey(H, order[0]) == k then [order[0]] + rest else rest
  }

  lemma {:induction false} OfKeyKeeps(H: History<KvValue>, k: Str, order: seq<nat>)
    requires Within(H, order) && Distinct(order) && RespectsTime(H, order)
    ensures Distinct(OfKey(H, k, order)) && RespectsTime(H, OfKey(H, k, order))
  {
    if order != [] {
      var rest, tail := order[1..], OfKey(H, k, order[1..]);
      forall i, j | 0 <= i < j < |rest| ensures rest[i] != rest[j] && !Before(H, rest[j], rest[i]) {
        assert rest[i] == order[i + 1] && rest[j] == order[j + 1];
      }
      OfKeyKeeps(H, k, rest);
      forall j | 0 <= j < |tail| ensures tail[j] != order[0] && !Before(H, tail[j], order[0]) {
        assert tail[j] in tail && tail[j] in rest;
        var i :| 0 <= i < |rest| && rest[i] == tail[j];
        assert order[i + 1] == tail[j];
      }
    }
  }

  lemma {:induction false} OfKeyRuns(H: History<KvValue>, k: Str, m: map<Str, Str>, order: seq<nat>)
    requires Within(H, order) && Runs(MapModel(), H, m, order)
    ensures Runs(KvModel(), H, At(m, k), OfKey(H, k, order))
    decreases |order|
  {
    if order != [] {
      OfKeyRuns(H, k, StepOf(MapModel(), H, m, order[0]).1, order[1..]);
      assert OpKey(H, order[0]) == k ==> OfKey(H, k, order)[1..] == OfKey(H, k, order[1..]);
    }
  }

  lemma MapToKey(H: History<KvValue>, k: Str, order: seq<nat>)
    requires Orders(MapModel(), H, Ids(H), map[], order)
    ensures Orders(KvModel(), H, KeyIds(H, k), "", OfKey(H, k, order))
  {
    OfKeyKeeps(H, k, order);
    OfKeyRuns(H, k, map[], order);
    forall a ensures a in KeyIds(H, k) <==> a in OfKey(H, k, order) {
      assert a in Ids(H) <==> a in order;
    }
  }

  // ----- From the keys to the map ----------------------------------------------------

  /** What is left of key k can be ordered from its present value. */
  ghost predicate KeyReady(H: History<KvValue>, done: set<nat>, m: map<Str, Str>, k: Str) {
    exists rest :: Orders(KvModel(), H, KeyIds(H, k) - done, At(m, k), rest)
  }

  ghost predicate AllReady(H: History<KvValue>, done: set<nat>, m: map<Str, Str>) {
    forall k {:trigger KeyReady(H, done, m, k)} :: KeyReady(H, done, m, k)
  }

  lemma {:induction false} EarliestReturn(H: History<KvValue>, ids: set<nat>) returns (e: nat)
    requires ids != {} && ids <= Ids(H)
    ensures e in ids && forall b :: b in ids ==> H[e].ret <= H[b].ret
    decreases |ids|
  {
    var a :| a in ids;
    if ids - {a} == {} {
      e := a;
      assert ids == {a};
    } else {
      e := EarliestReturn(H, ids - {a});
      if H[a].ret < H[e].ret {
        e := a;
      }
    }
  }

  /** The first operation of the key whose return comes first may go next overall. */
  lemma HeadEnabled(H: History<KvValue>, done: set<nat>, e: nat, rest: seq<nat>)
    requires Timed(H) && e in Ids(H) - done && forall b :: b in Ids(H) - done ==> H[e].ret <= H[b].ret
    requires Within(H, rest) && RespectsTime(H, rest) && e in rest && rest[0] !in done
    ensures Enabled(H, done, rest[0])
  {
    var a := rest[0];
    var i :| 0 <= i < |rest| && rest[i] == e;
    assert H[a].call <= H[e].ret;
    forall b: nat | b < |H| && b != a && Before(H, b, a) ensures b in done {
      assert b in Ids(H);
    }
  }

  lemma TailOrders<S>(M: Model<S, KvValue>, H: History<KvValue>, ids: set<nat>, q: S, order: seq<nat>)
    requires Orders(M, H, ids, q, order) && order != []
    ensures Orders(M, H, ids - {order[0]}, StepOf(M, H, q, order[0]).1, order[1..])
  {
    var rest := order[1..];
    forall i, j | 0 <= i < j < |rest| ensures rest[i] != rest[j] && !Before(H, rest[j], rest[i]) {
      assert rest[i] == order[i + 1] && rest[j] == order[j + 1];
    }
    forall b ensures b in ids - {order[0]} <==> b in rest {
      assert b in order <==> b == order[0] || b in rest;
      if b in rest {
        var i :| 0 <= i < |rest| && rest[i] == b;
        assert order[i + 1] == b;
      }
    }
  }

  lemma ReadyAfter(H: History<KvValue>, done: set<nat>, m: map<Str, Str>, a: nat, rest: seq<nat>, k: Str)
    requires a < |H| && rest != [] && rest[0] == a && Orders(KvModel(), H, KeyIds(H, OpKey(H, a)) - done, At(m, OpKey(H, a)), rest)
    requires KeyReady(H, done, m, k)
    ensures KeyReady(H, done + {a}, StepOf(MapModel(), H, m, a).1, k)
  {
    var next := StepOf(MapModel(), H, m, a).1;
    if k == OpKey(H, a) {
      TailOrders(KvModel(), H, KeyIds(H, k) - done, At(m, k), rest);
      assert KeyIds(H, k) - done - {a} == KeyIds(H, k) - (done + {a});
      assert Orders(KvModel(), H, KeyIds(H, k) - (done + {a}), At(next, k), rest[1..]);
    } else {
      var r :| Orders(KvModel(), H, KeyIds(H, k) - done, At(m, k), r);
      assert KeyIds(H, k) - done == KeyIds(H, k) - (done + {a});
      assert Orders(KvModel(), H, KeyIds(H, k) - (done + {a}), At(next, k), r);
    }
  }

  /** Interleaving the keys by earliest return finishes the map. */
  lemma {:induction false} KeysToMap(H: History<KvValue>, done: set<nat>, m: map<Str, Str>)
    requires Timed(H) && AllReady(H, done, m)
    ensures CanFinish(MapModel(), H, done, m)
    decreases Ids(H) - done
  {
    if !(Ids(H) <= done) {
      var x :| x in Ids(H) && x !in done;
      assert x in Ids(H) - done;
      var e := EarliestReturn(H, Ids(H) - done);
      var k := OpKey(H, e);
      assert KeyReady(H, done, m, k);
      var rest :| Orders(KvModel(), H, KeyIds(H, k) - done, At(m, k), rest);
      assert e in rest;
      var a := rest[0];
      assert a in rest && a in KeyIds(H, k) - done;
      HeadEnabled(H, done, e, rest);
      var next := StepOf(MapModel(), H, m, a).1;
      forall j ensures KeyReady(H, done + {a}, next, j) {
        assert KeyReady(H, done, m, j);
        ReadyAfter(H, done, m, a, rest, j);
      }
      assert a in Ids(H) - done;
      KeysToMap(H, done + {a}, next);
      assert Extends(MapModel(), H, done, m, a);
    }
  }

  /** The map is linearizable if and only if every key is. */
  lemma MapIffKeys(H: History<KvValue>)
    requires Timed(H)
    ensures Linearizable(MapModel(), H) <==> forall k :: KeyReady(H, {}, map[], k)
  {
    if Linearizable(MapModel(), H) {
      var order :| Orders(MapModel(), H, Ids(H), map[], order);
      forall k ensures KeyReady(H, {}, map[], k) {
        MapToKey(H, k, order);
        assert KeyIds(H, k) - {} == KeyIds(H, k);
        assert Orders(KvModel(), H, KeyIds(H, k) - {}, At(map[], k), OfKey(H, k, order));
      }
    }
    if forall k :: KeyReady(H, {}, map[], k) {
      KeysToMap(H, {}, map[]);
      FinishIffLinearizable(MapModel(), H);
    }
  }

  // ----- Sub-histories ---------------------------------------------------------------

  /** The operations on k, in the order of the history. */
  function Select(H: History<KvValue>, k: Str): History<KvValue> {
    if H == [] then []
    else Select(H[..|H| - 1], k) + if OpKey(H, |H| - 1) == k then [H[|H| - 1]] else []
  }

  /** Where in the history each of them is. */
  function Places(H: History<KvValue>, k: Str): (P: seq<nat>)
    ensures Within(H, P)
  {
    if H == [] then []
    else Places(H[..|H| - 1], k) + if OpKey(H, |H| - 1) == k then [|H| - 1] else []
  }

  lemma {:induction false} PlacesOK(H: History<KvValue>, k: Str)
    ensures |Places(H, k)| == |Select(H, k)|
    ensures forall j :: 0 <= j < |Places(H, k)| ==> Select(H, k)[j] == H[Places(H, k)[j]]
    ensures Distinct(Places(H, k))
    ensures forall i :: i in Places(H, k) <==> i in KeyIds(H, k)
  {
    if H != [] {
      PlacesOK(H[..|H| - 1], k);
      forall i ensures i in Places(H, k) <==> i in KeyIds(H, k) {
        assert i in Places(H[..|H| - 1], k) <==> i in KeyIds(H[..|H| - 1], k);
        assert i in Places(H, k) <==> i in Places(H[..|H| - 1], k) || (i == |H| - 1 && OpKey(H, i) == k);
        assert 0 <= i < |H| - 1 ==> OpKey(H[..|H| - 1], i) == OpKey(H, i);
      }
    }
  }

  function Image(P: seq<nat>, order: seq<nat>): seq<nat>
    requires forall t :: 0 <= t < |order| ==> order[t] < |P|
  {
    seq(|order|, t requires 0 <= t < |order| => P[order[t]])
  }

  lemma {:induction false} ImageRuns(H: History<KvValue>, k: Str, q: Str, order: seq<nat>)
    requires Within(Select(H, k), order) && |Places(H, k)| == |Select(H, k)|
    requires forall j :: 0 <= j < |Places(H, k)| ==> Select(H, k)[j] == H[Places(H, k)[j]]
    ensures Within(H, Image(Places(H, k), order))
    ensures Runs(KvModel(), Select(H, k), q, order) == Runs(KvModel(), H, q, Image(Places(H, k), order))
    decreases |order|
  {
    if order != [] {
      ImageRuns(H, k, StepOf(KvModel(), Select(H, k), q, order[0]).1, order[1..]);
      assert Image(Places(H, k), order)[1..] == Image(Places(H, k), order[1..]);
    }
  }

  ghost predicate Exactly(ids: set<nat>, order: seq<nat>) {
    forall a :: a in ids <==> a in order
  }

  lemma ImageMembers(H: History<KvValue>, k: Str, order: seq<nat>)
    requires |Places(H, k)| == |Select(H, k)| && Within(Select(H, k), order)
    ensures Exactly(Ids(Select(H, k)), order) <==> Exactly(KeyIds(H, k), Image(Places(H, k), order))
  {
    var S, P := Select(H, k), Places(H, k);
    var image := Image(P, order);
    PlacesOK(H, k);
    if Exactly(Ids(S), order) {
      forall b ensures b in KeyIds(H, k) <==> b in image {
        if b in KeyIds(H, k) {
          assert b in P;
          var j :| 0 <= j < |P| && P[j] == b;
          assert j in Ids(S);
          var t :| 0 <= t < |order| && order[t] == j;
          assert image[t] == b;
        }
      }
    }
    if Exactly(KeyIds(H, k), image) {
      forall a ensures a in Ids(S) <==> a in order {
        if a in Ids(S) {
          assert P[a] in P;
          var t :| 0 <= t < |image| && image[t] == P[a];
          assert order[t] == a;
        }
      }
    }
  }

  lemma ImageTimes(H: History<KvValue>, k: Str, order: seq<nat>)
    requires |Places(H, k)| == |Select(H, k)| && Within(Select(H, k), order) && Within(H, Image(Places(H, k), order))
    ensures Distinct(order) <==> Distinct(Image(Places(H, k), order))
    ensures RespectsTime(Select(H, k), order) <==> RespectsTime(H, Image(Places(H, k), order))
  {
    var S, image := Select(H, k), Image(Places(H, k), order);
    PlacesOK(H, k);
    forall i, j | 0 <= i < j < |order|
      ensures order[i] != order[j] <==> image[i] != image[j]
      ensures Before(S, order[j], order[i]) == Before(H, image[j], image[i])
    {
    }
  }

  /** An order of the sub-history and the same operations in the history. */
  lemma ImageOrders(H: History<KvValue>, k: Str, order: seq<nat>)
    requires |Places(H, k)| == |Select(H, k)| && Within(Select(H, k), order)
    ensures Orders(KvModel(), Select(H, k), Ids(Select(H, k)), "", order) <==>
            Orders(KvModel(), H, KeyIds(H, k), "", Image(Places(H, k), order))
  {
    PlacesOK(H, k);
    ImageRuns(H, k, "", order);
    ImageMembers(H, k, order);
    ImageTimes(H, k, order);
    assert Exactly(Ids(Select(H, k)), order) <==> forall a :: a in Ids(Select(H, k)) <==> a in order;
  }

  lemma Renumber(H: History<KvValue>, k: Str, image: seq<nat>) returns (order: seq<nat>)
    requires forall i :: i in Places(H, k) <==> i in KeyIds(H, k)
    requires forall t :: 0 <= t < |image| ==> image[t] in KeyIds(H, k)
    ensures forall t :: 0 <= t < |order| ==> order[t] < |Places(H, k)|
    ensures image == Image(Places(H, k), order)
    decreases |image|
  {
    if image == [] {
      order := [];
    } else {
      assert image[0] in Places(H, k);
      var j :| 0 <= j < |Places(H, k)| && Places(H, k)[j] == image[0];
      var rest := Renumber(H, k, image[1..]);
      order := [j] + rest;
    }
  }

  /** Checking the sub-history of k is checking key k within the history. */
  lemma SelectIff(H: History<KvValue>, k: Str)
    ensures Linearizable(KvModel(), Select(H, k)) <==> KeyReady(H, {}, map[], k)
  {
    PlacesOK(H, k);
    assert KeyIds(H, k) - {} == KeyIds(H, k);
    if Linearizable(KvModel(), Select(H, k)) {
      var order :| Orders(KvModel(), Select(H, k), Ids(Select(H, k)), "", order);
      ImageOrders(H, k, order);
      assert Orders(KvModel(), H, KeyIds(H, k) - {}, At(map[], k), Image(Places(H, k), order));
    }
    if KeyReady(H, {}, map[], k) {
      var image :| Orders(KvModel(), H, KeyIds(H, k) - {}, At(map[], k), image);
      forall t | 0 <= t < |image| ensures image[t] in KeyIds(H, k) {
        assert image[t] in image;
      }
      var order := Renumber(H, k, image);
      ImageOrders(H, k, order);
    }
  }

  ghost predicate KeyLinearizable(H: History<KvValue>, k: Str) {
    Linearizable(KvModel(), Select(H, k))
  }

  /** Locality: the whole map is linearizable if and only if each key's sub-history is. */
  lemma Locality(H: History<KvValue>)
    requires Timed(H)
    ensures Linearizable(MapModel(), H) <==> forall k :: KeyLinearizable(H, k)
  {
    MapIffKeys(H);
    forall k ensures KeyLinearizable(H, k) <==> KeyReady(H, {}, map[], k) {
      SelectIff(H, k);
    }
  }
}
