/**
 Histories given as events (porcupine/checker.go): `renumber` gives the operations the ids
 0, 1, ... and `convertEntries` takes positions as times.  The entries that the search gets
 are linearizable exactly when the events are, in the terms of the events alone.
 */
module EventHistory {
  import opened EntryHistory
  import opened Linearization

  datatype Event<V> = Event(kind: Kind, value: V, id: int)

  predicate Pair<V>(e: Event<V>, kind: Kind, id: int) {
    e.kind == kind && e.id == id
  }

  predicate HasCall<V>(events: seq<Event<V>>, i: nat)
    requires i < |events|
  {
    exists j :: 0 <= j < i && Pair(events[j], CallEntry, events[i].id)
  }

  predicate HasReturn<V>(events: seq<Event<V>>, i: nat)
    requires i < |events|
  {
    exists j :: i < j < |events| && Pair(events[j], ReturnEntry, events[i].id)
  }

  /** One call and one later return for each id that occurs. */
  ghost predicate EventsOK<V>(events: seq<Event<V>>) {
    && (forall i, j :: 0 <= i < j < |events| ==> events[i].kind != events[j].kind || events[i].id != events[j].id)
    && (forall i {:trigger HasCall(events, i)} {:trigger HasReturn(events, i)} :: 0 <= i < |events| ==>
          if events[i].kind.ReturnEntry? then HasCall(events, i) else HasReturn(events, i))
  }

  /** `names[k]` is the old id of the operation now numbered k. */
  ghost predicate Renames<V>(events: seq<Event<V>>, e: seq<Event<V>>, names: seq<int>) {
    && |e| == |events|
    && (forall i, j :: 0 <= i < j < |names| ==> names[i] != names[j])
    && (forall i :: 0 <= i < |e| ==>
          && e[i].kind == events[i].kind && e[i].value == events[i].value
          && 0 <= e[i].id < |names| && names[e[i].id] == events[i].id)
    && (forall k :: 0 <= k < |names| ==> Occurs(events, names[k]))
  }

  predicate Occurs<V>(events: seq<Event<V>>, id: int) {
    exists i :: 0 <= i < |events| && events[i].id == id
  }

  method Renumber<V>(events: seq<Event<V>>) returns (e: seq<Event<V>>, ghost names: seq<int>)
    ensures Renames(events, e, names)
  {
    e, names := [], [];
    var m: map<int, int> := map[];
    var id := 0;
    for i := 0 to |events|
      invariant |e| == i && id == |names|
      invariant forall x :: x in m <==> Occurs(events[..i], x)
      invariant forall x :: x in m ==> 0 <= m[x] < id && names[m[x]] == x
      invariant forall k :: 0 <= k < id ==> names[k] in m && m[names[k]] == k
      invariant forall j :: 0 <= j < i ==>
                  && e[j].kind == events[j].kind && e[j].value == events[j].value
                  && 0 <= e[j].id < id && names[e[j].id] == events[j].id
    {
      var v := events[i];
      forall x ensures Occurs(events[..i + 1], x) <==> Occurs(events[..i], x) || x == v.id {
        OccursMore(events, i, x);
      }
      if v.id in m {
        e := e + [Event(v.kind, v.value, m[v.id])];
      } else {
        e := e + [Event(v.kind, v.value, id)];
        m := m[v.id := id];
        names := names + [v.id];
        id := id + 1;
      }
    }
    assert events[..|events|] == events;
  }

  lemma OccursMore<V>(events: seq<Event<V>>, i: nat, x: int)
    requires i < |events|
    ensures Occurs(events[..i + 1], x) <==> Occurs(events[..i], x) || x == events[i].id
  {
    assert events[..i + 1][i] == events[i];
    if Occurs(events[..i], x) {
      var j :| 0 <= j < i && events[..i][j].id == x;
      assert events[..i + 1][j].id == x;
    }
    if Occurs(events[..i + 1], x) {
      var j :| 0 <= j < i + 1 && events[..i + 1][j].id == x;
      assert j < i ==> events[..i][j].id == x;
    }
  }

  method ConvertEntries<V>(e: seq<Event<V>>) returns (h: Entries<V>)
    requires forall i :: 0 <= i < |e| ==> e[i].id >= 0
    ensures Converts(e, h)
  {
    h := [];
    for i := 0 to |e|
      invariant |h| == i && forall j :: 0 <= j < i ==> h[j] == Entry(e[j].kind, e[j].value, e[j].id, j)
    {
      h := h + [Entry(e[i].kind, e[i].value, e[i].id, i)];
    }
  }

  ghost predicate Converts<V>(e: seq<Event<V>>, h: Entries<V>) {
    |h| == |e| && forall i :: 0 <= i < |e| ==> e[i].id >= 0 && h[i] == Entry(e[i].kind, e[i].value, e[i].id, i)
  }

  // ----- Counting --------------------------------------------------------------------

  type Place = (Kind, nat)

  function AllPlaces(n: nat): set<Place> {
    if n == 0 then {} else AllPlaces(n - 1) + {(CallEntry, n - 1), (ReturnEntry, n - 1)}
  }

  lemma {:induction false} AllPlacesHas(n: nat, p: Place)
    ensures p in AllPlaces(n) <==> p.1 < n
  {
    if n > 0 {
      AllPlacesHas(n - 1, p);
      assert p.0 == CallEntry || p.0 == ReturnEntry;
    }
  }

  lemma {:induction false} AllPlacesSize(n: nat)
    ensures |AllPlaces(n)| == 2 * n
  {
    if n > 0 {
      AllPlacesSize(n - 1);
      var c: Place, r: Place := (CallEntry, n - 1), (ReturnEntry, n - 1);
      AllPlacesHas(n - 1, c);
      AllPlacesHas(n - 1, r);
      TwoMore(AllPlaces(n - 1), c, r);
    }
  }

  lemma TwoMore<T>(s: set<T>, a: T, b: T)
    requires a !in s && b !in s && a != b
    ensures |s + {a, b}| == |s| + 2
  {
    assert s + {a, b} == s + {a} + {b};
  }

  function PlacesOf<V>(h: Entries<V>): set<Place> {
    if h == [] then {} else PlacesOf(h[..|h| - 1]) + {(h[|h| - 1].kind, h[|h| - 1].id)}
  }

  predicate Single<V>(h: Entries<V>) {
    forall i, j :: 0 <= i < j < |h| ==> h[i].kind != h[j].kind || h[i].id != h[j].id
  }

  lemma {:induction false} PlaceOf<V>(h: Entries<V>, i: nat)
    requires i < |h|
    ensures (h[i].kind, h[i].id) in PlacesOf(h)
  {
    if i < |h| - 1 {
      PlaceOf(h[..|h| - 1], i);
    }
  }

  lemma {:induction false} PlaceFrom<V>(h: Entries<V>, p: Place) returns (i: nat)
    requires p in PlacesOf(h)
    ensures i < |h| && h[i].kind == p.0 && h[i].id == p.1
  {
    if p in PlacesOf(h[..|h| - 1]) {
      i := PlaceFrom(h[..|h| - 1], p);
    } else {
      i := |h| - 1;
    }
  }

  lemma {:induction false} PlacesSize<V>(h: Entries<V>)
    requires Single(h)
    ensures |PlacesOf(h)| == |h|
  {
    if h != [] {
      var front, p := h[..|h| - 1], (h[|h| - 1].kind, h[|h| - 1].id);
      PlacesSize(front);
      if p in PlacesOf(front) {
        var i := PlaceFrom(front, p);
      }
    }
  }

  // ----- The result is well formed ---------------------------------------------------

  /** Where the call and the return of the operation numbered k are. */
  lemma BothThere<V>(events: seq<Event<V>>, e: seq<Event<V>>, names: seq<int>, k: nat) returns (c: nat, r: nat)
    requires EventsOK(events) && Renames(events, e, names) && k < |names|
    ensures c < r < |e| && Pair(e[c], CallEntry, k) && Pair(e[r], ReturnEntry, k)
  {
    assert Occurs(events, names[k]);
    var i :| 0 <= i < |events| && events[i].id == names[k];
    assert HasReturn(events, i) || HasCall(events, i);
    if events[i].kind.CallEntry? {
      var j :| i < j < |events| && Pair(events[j], ReturnEntry, events[i].id);
      c, r := i, j;
    } else {
      var j :| 0 <= j < i && Pair(events[j], CallEntry, events[i].id);
      c, r := j, i;
    }
    SameName(events, e, names, c, k);
    SameName(events, e, names, r, k);
  }

  lemma SameName<V>(events: seq<Event<V>>, e: seq<Event<V>>, names: seq<int>, i: nat, k: nat)
    requires Renames(events, e, names) && i < |e| && k < |names| && events[i].id == names[k]
    ensures e[i].id == k && e[i].kind == events[i].kind
  {
  }

  lemma RenumberedSingle<V>(events: seq<Event<V>>, e: seq<Event<V>>, names: seq<int>, h: Entries<V>)
    requires EventsOK(events) && Renames(events, e, names) && Converts(e, h)
    ensures Single(h)
  {
    forall i, j | 0 <= i < j < |h| ensures h[i].kind != h[j].kind || h[i].id != h[j].id {
      assert events[i].kind != events[j].kind || events[i].id != events[j].id;
    }
  }

  lemma PlacePair<V>(e: seq<Event<V>>, h: Entries<V>, c: nat, r: nat, p: Place)
    requires Converts(e, h) && c < |e| && r < |e| && Pair(e[c], CallEntry, p.1) && Pair(e[r], ReturnEntry, p.1)
    ensures p in PlacesOf(h)
  {
    PlaceOf(h, c);
    PlaceOf(h, r);
    match p {
      case (CallEntry, k) => assert h[c].kind == CallEntry && h[c].id == k;
      case (ReturnEntry, k) => assert h[r].kind == ReturnEntry && h[r].id == k;
    }
  }

  lemma PlaceBound<V>(events: seq<Event<V>>, e: seq<Event<V>>, names: seq<int>, h: Entries<V>, p: Place)
    requires Renames(events, e, names) && Converts(e, h) && p in PlacesOf(h)
    ensures p.1 < |names|
  {
    var i := PlaceFrom(h, p);
  }

  lemma PlaceIff<V>(events: seq<Event<V>>, e: seq<Event<V>>, names: seq<int>, h: Entries<V>, p: Place)
    requires EventsOK(events) && Renames(events, e, names) && Converts(e, h)
    ensures p in PlacesOf(h) <==> p.1 < |names|
  {
    if p.1 < |names| {
      var c, r := BothThere(events, e, names, p.1);
      PlacePair(e, h, c, r, p);
    } else if p in PlacesOf(h) {
      PlaceBound(events, e, names, h, p);
    }
  }

  lemma RenumberedSize<V>(events: seq<Event<V>>, e: seq<Event<V>>, names: seq<int>, h: Entries<V>)
    requires EventsOK(events) && Renames(events, e, names) && Converts(e, h)
    ensures Single(h) && |h| == 2 * |names|
  {
    RenumberedSingle(events, e, names, h);
    PlacesSize(h);
    AllPlacesSize(|names|);
    forall p ensures p in PlacesOf(h) <==> p in AllPlaces(|names|) {
      AllPlacesHas(|names|, p);
      PlaceIff(events, e, names, h, p);
    }
    assert PlacesOf(h) == AllPlaces(|names|);
  }

  /** Events with one call and one later return per id become well-formed entries. */
  lemma RenumberedWellFormed<V>(events: seq<Event<V>>, e: seq<Event<V>>, names: seq<int>, h: Entries<V>)
    requires EventsOK(events) && Renames(events, e, names) && Converts(e, h)
    ensures WellFormed(h) && SortedByTime(h)
  {
    RenumberedSize(events, e, names, h);
    forall id | 0 <= id < |h| / 2 ensures CallAt(h, id) < ReturnAt(h, id) < |h| {
      var c, r := BothThere(events, e, names, id);
      FindFirst(h, CallEntry, id, c);
      FindFirst(h, ReturnEntry, id, r);
    }
    forall i | 0 <= i < |h| ensures Located(h, i) {
      FindFirst(h, h[i].kind, h[i].id, i);
    }
  }

  // ----- The verdict -----------------------------------------------------------------

  /** Where the event of this kind and id is. */
  predicate Position<V>(events: seq<Event<V>>, kind: Kind, id: int, i: nat) {
    i < |events| && Pair(events[i], kind, id)
  }

  /** The operation `id` ended before the operation `other` began. */
  ghost predicate EndedBefore<V>(events: seq<Event<V>>, id: int, other: int) {
    exists r: nat, c: nat :: Position(events, ReturnEntry, id, r) && Position(events, CallEntry, other, c) && r < c
  }

  /** The model accepts the operations with these ids one after the other. */
  ghost predicate Accepts<S, V>(M: Model<S, V>, events: seq<Event<V>>, q: S, order: seq<int>) {
    order == [] ||
    exists c: nat, r: nat ::
      && Position(events, CallEntry, order[0], c) && Position(events, ReturnEntry, order[0], r)
      && M.step(q, events[c].value, events[r].value).0
      && Accepts(M, events, M.step(q, events[c].value, events[r].value).1, order[1..])
  }

  /** The ids can be put in an order that agrees with the events and that the model accepts. */
  ghost predicate EventOrder<S, V>(M: Model<S, V>, events: seq<Event<V>>, order: seq<int>) {
    && (forall i, j :: 0 <= i < j < |order| ==> order[i] != order[j])
    && (forall id :: id in order <==> Occurs(events, id))
    && (forall i, j :: 0 <= i < j < |order| ==> !EndedBefore(events, order[j], order[i]))
    && Accepts(M, events, M.init, order)
  }

  ghost predicate EventsLinearizable<S, V>(M: Model<S, V>, events: seq<Event<V>>) {
    exists order :: EventOrder(M, events, order)
  }

  /** Numbers and old ids of a renumbering. */
  ghost predicate Renumbered<V>(events: seq<Event<V>>, names: seq<int>, G: History<V>) {
    && |G| == |names|
    && (forall i, j :: 0 <= i < j < |names| ==> names[i] != names[j])
    && (forall id :: id in names <==> Occurs(events, id))
    && (forall k {:trigger OpAt(events, names, G, k)} :: 0 <= k < |names| ==> OpAt(events, names, G, k))
  }

  /** Operation k is the one of its old id, with the positions as times, and these are the
      only events of that id. */
  ghost predicate OpAt<V>(events: seq<Event<V>>, names: seq<int>, G: History<V>, k: nat)
    requires k < |names| == |G|
  {
    && G[k].call >= 0 && G[k].ret >= 0
    && (forall i: nat :: Position(events, CallEntry, names[k], i) <==> i == G[k].call)
    && (forall i: nat :: Position(events, ReturnEntry, names[k], i) <==> i == G[k].ret)
    && Position(events, CallEntry, names[k], G[k].call) && G[k].input == events[G[k].call].value
    && Position(events, ReturnEntry, names[k], G[k].ret) && G[k].output == events[G[k].ret].value
  }

  lemma OnlyThere<V>(events: seq<Event<V>>, kind: Kind, id: int, c: nat, i: nat)
    requires EventsOK(events) && Position(events, kind, id, c)
    ensures Position(events, kind, id, i) <==> i == c
  {
  }

  lemma OperationOf<V>(events: seq<Event<V>>, e: seq<Event<V>>, names: seq<int>, h: Entries<V>, k: nat)
    requires EventsOK(events) && Renames(events, e, names) && Converts(e, h) && WellFormed(h) && |h| == 2 * |names| && k < |names|
    ensures OpAt(events, names, OpsOf(h), k)
  {
    var c, r := BothThere(events, e, names, k);
    FindFirst(h, CallEntry, k, c);
    FindFirst(h, ReturnEntry, k, r);
    assert Located(h, c) && Located(h, r);
    assert names[e[c].id] == names[k] == names[e[r].id];
    forall i: nat
      ensures Position(events, CallEntry, names[k], i) <==> i == c
      ensures Position(events, ReturnEntry, names[k], i) <==> i == r
    {
      OnlyThere(events, CallEntry, names[k], c, i);
      OnlyThere(events, ReturnEntry, names[k], r, i);
    }
  }

  function Named(names: seq<int>, order: seq<nat>): (r: seq<int>)
    requires forall i :: 0 <= i < |order| ==> order[i] < |names|
    ensures |r| == |order|
  {
    seq(|order|, i requires 0 <= i < |order| => names[order[i]])
  }

  lemma {:induction false} SameAccepted<S, V>(M: Model<S, V>, events: seq<Event<V>>, names: seq<int>, G: History<V>, q: S, order: seq<nat>)
    requires Renumbered(events, names, G) && Within(G, order)
    ensures Runs(M, G, q, order) <==> Accepts(M, events, q, Named(names, order))
  {
    if order != [] {
      var k := order[0];
      assert OpAt(events, names, G, k);
      assert Named(names, order)[1..] == Named(names, order[1..]);
      SameAccepted(M, events, names, G, StepOf(M, G, q, k).1, order[1..]);
    }
  }

  lemma SameBefore<V>(events: seq<Event<V>>, names: seq<int>, G: History<V>, a: nat, b: nat)
    requires Renumbered(events, names, G) && a < |names| && b < |names|
    ensures EndedBefore(events, names[a], names[b]) <==> Before(G, a, b)
  {
    assert OpAt(events, names, G, a) && OpAt(events, names, G, b);
    var r: nat, c: nat := G[a].ret, G[b].call;
    assert Position(events, ReturnEntry, names[a], r) && Position(events, CallEntry, names[b], c);
  }

  lemma SameOrder<S, V>(M: Model<S, V>, events: seq<Event<V>>, names: seq<int>, G: History<V>, order: seq<nat>)
    requires Renumbered(events, names, G) && Within(G, order)
    ensures Orders(M, G, Ids(G), M.init, order) <==> EventOrder(M, events, Named(names, order))
  {
    var ids := Named(names, order);
    SameAccepted(M, events, names, G, M.init, order);
    forall i, j | 0 <= i < j < |order|
      ensures EndedBefore(events, ids[j], ids[i]) <==> Before(G, order[j], order[i])
      ensures ids[i] == ids[j] <==> order[i] == order[j]
    {
      SameBefore(events, names, G, order[j], order[i]);
    }
    SameMembers(events, names, G, order);
  }

  lemma SameMembers<V>(events: seq<Event<V>>, names: seq<int>, G: History<V>, order: seq<nat>)
    requires Renumbered(events, names, G) && Within(G, order)
    ensures (forall a :: a in Ids(G) <==> a in order) <==> (forall id :: id in Named(names, order) <==> Occurs(events, id))
  {
    var ids := Named(names, order);
    forall a: nat | a < |names| ensures a in order <==> names[a] in ids {
      if a in order {
        var i :| 0 <= i < |order| && order[i] == a;
        assert ids[i] == names[a];
      }
      if names[a] in ids {
        var i :| 0 <= i < |ids| && ids[i] == names[a];
        assert order[i] == a;
      }
    }
    forall id ensures id in ids ==> id in names {
      if id in ids {
        var i :| 0 <= i < |ids| && ids[i] == id;
        assert names[order[i]] == id;
      }
    }
    if forall a :: a in Ids(G) <==> a in order {
      forall id ensures id in ids <==> Occurs(events, id) {
        if id in names {
          var a :| 0 <= a < |names| && names[a] == id;
          assert a in Ids(G);
        }
      }
    }
    if forall id :: id in ids <==> Occurs(events, id) {
      forall a ensures a in Ids(G) <==> a in order {
        if a in Ids(G) {
          assert names[a] in names;
        }
      }
    }
  }

  function NumberOf(names: seq<int>, id: int): (k: nat)
    requires id in names
    ensures k < |names| && names[k] == id
  {
    if names[0] == id then 0 else NumberOf(names[1..], id) + 1
  }

  lemma NumbersOf<S, V>(M: Model<S, V>, events: seq<Event<V>>, names: seq<int>, G: History<V>, ids: seq<int>) returns (order: seq<nat>)
    requires Renumbered(events, names, G) && EventOrder(M, events, ids)
    ensures Within(G, order) && Named(names, order) == ids
  {
    forall i | 0 <= i < |ids| ensures ids[i] in names {
      assert ids[i] in ids;
    }
    order := seq(|ids|, i requires 0 <= i < |ids| => NumberOf(names, ids[i]));
    assert Named(names, order) == ids;
  }

  /** The entries made of the events are linearizable exactly when the events are. */
  lemma EventsDecide<S, V>(M: Model<S, V>, events: seq<Event<V>>, e: seq<Event<V>>, names: seq<int>, h: Entries<V>)
    requires EventsOK(events) && Renames(events, e, names) && Converts(e, h)
    ensures WellFormed(h) && (Linearizable(M, OpsOf(h)) <==> EventsLinearizable(M, events))
  {
    RenumberedWellFormed(events, e, names, h);
    RenumberedSize(events, e, names, h);
    var G := OpsOf(h);
    forall k | 0 <= k < |names| ensures OpAt(events, names, G, k) {
      OperationOf(events, e, names, h, k);
    }
    NamesOccur(events, e, names);
    assert Renumbered(events, names, G);
    if Linearizable(M, G) {
      var order :| Orders(M, G, Ids(G), M.init, order);
      SameOrder(M, events, names, G, order);
    }
    if EventsLinearizable(M, events) {
      var ids :| EventOrder(M, events, ids);
      var order := NumbersOf(M, events, names, G, ids);
      SameOrder(M, events, names, G, order);
    }
  }

  lemma NamesOccur<V>(events: seq<Event<V>>, e: seq<Event<V>>, names: seq<int>)
    requires Renames(events, e, names)
    ensures forall id :: id in names <==> Occurs(events, id)
  {
    forall id ensures id in names <==> Occurs(events, id) {
      if Occurs(events, id) {
        var i :| 0 <= i < |events| && events[i].id == id;
        assert names[e[i].id] == id;
      }
      if id in names {
        var k :| 0 <= k < |names| && names[k] == id;
      }
    }
  }
}
