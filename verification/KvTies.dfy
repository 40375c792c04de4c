/**
 A return and a call at the same time.  The sort of porcupine compares times only, so that
 the order of the two is left open.  The verdict on a history can be trusted whatever the
 sort does if and only if no return shares its time with a call: for every history with
 such a tie there are key/value operations at the same times that are linearizable, and a
 result of the sort that the search must reject.
 */
module KvTies {
  import opened Linearization
  import opened EntryHistory
  import opened KvLocality

  // ----- A sort that puts returns first ----------------------------------------------

  predicate InOrder<V>(x: Entry<V>, y: Entry<V>) {
    x.time < y.time || (x.time == y.time && (x.kind.ReturnEntry? || y.kind.CallEntry?))
  }

  predicate ReturnsFirst<V>(h: Entries<V>) {
    forall i, j :: 0 <= i < j < |h| ==> InOrder(h[i], h[j])
  }

  function Insert<V>(x: Entry<V>, h: Entries<V>): Entries<V> {
    if h == [] || InOrder(x, h[0]) then [x] + h else [h[0]] + Insert(x, h[1..])
  }

  function Sorted<V>(e: Entries<V>): Entries<V> {
    if e == [] then [] else Insert(e[0], Sorted(e[1..]))
  }

  lemma InsertMembers<V>(x: Entry<V>, h: Entries<V>, y: Entry<V>)
    requires multiset(Insert(x, h)) == multiset(h) + multiset{x} && y in Insert(x, h)
    ensures y == x || y in h
  {
    assert y in multiset(Insert(x, h));
  }

  lemma {:induction false} InsertKeeps<V>(x: Entry<V>, h: Entries<V>)
    requires ReturnsFirst(h)
    ensures ReturnsFirst(Insert(x, h)) && multiset(Insert(x, h)) == multiset(h) + multiset{x}
  {
    if h != [] && !InOrder(x, h[0]) {
      var rest := Insert(x, h[1..]);
      InsertKeeps(x, h[1..]);
      assert h == [h[0]] + h[1..];
      forall j | 0 <= j < |rest| ensures InOrder(h[0], rest[j]) {
        InsertMembers(x, h[1..], rest[j]);
      }
    }
  }

  lemma {:induction false} SortedKeeps<V>(e: Entries<V>)
    ensures ReturnsFirst(Sorted(e)) && multiset(Sorted(e)) == multiset(e)
  {
    if e != [] {
      SortedKeeps(e[1..]);
      InsertKeeps(e[0], Sorted(e[1..]));
      assert e == [e[0]] + e[1..];
    }
  }

  /** One of the results the sort may have, with every tie decided against the call. */
  lemma TieSorted<V>(H: History<V>, a: nat, b: nat) returns (h: Entries<V>)
    requires Timed(H) && a < |H| && b < |H| && H[a].ret == H[b].call
    ensures EntriesOf(H, h) && WellFormed(h) && |OpsOf(h)| == |H| && Before(OpsOf(h), a, b)
  {
    h := Sorted(RawEntries(H));
    SortedKeeps(RawEntries(H));
    SortedByTimes(h);
    MadeWellFormed(H, h);
    TieBefore(H, h, a, b);
  }

  lemma SortedByTimes<V>(h: Entries<V>)
    requires ReturnsFirst(h)
    ensures SortedByTime(h)
  {
    assert forall i, j :: 0 <= i < j < |h| && InOrder(h[i], h[j]) ==> h[i].time <= h[j].time;
  }

  /** Returns first: the return of a stands before the call of b. */
  lemma TieBefore<V>(H: History<V>, h: Entries<V>, a: nat, b: nat)
    requires EntriesOf(H, h) && Timed(H) && ReturnsFirst(h) && WellFormed(h) && |h| == 2 * |H|
    requires a < |H| && b < |H| && H[a].ret == H[b].call
    ensures |OpsOf(h)| == |H| && Before(OpsOf(h), a, b)
  {
    Paired(H, h, a);
    Paired(H, h, b);
    assert ReturnAt(h, a) != CallAt(h, b);
  }

  // ----- Operations that feel the tie ------------------------------------------------

  function ProbeInput(i: nat, a: nat, b: nat): KvValue {
    if i == a then Input(0, "k", "") else if i == b then Input(1, "k", "v") else Input(2, "k", "")
  }

  function ProbeOutput(i: nat, a: nat): KvValue {
    Output(if i == a then "v" else "")
  }

  /** At the times of H: a reads "v", b puts it, and the others append nothing. */
  function Probe<V>(H: History<V>, a: nat, b: nat): History<KvValue> {
    seq(|H|, i requires 0 <= i < |H| => Operation(ProbeInput(i, a, b), H[i].call, ProbeOutput(i, a), H[i].ret))
  }

  predicate SameTimes<V, W>(H: History<V>, G: History<W>) {
    |H| == |G| && forall i :: 0 <= i < |H| ==> H[i].call == G[i].call && H[i].ret == G[i].ret
  }

  predicate Probes(G: History<KvValue>, a: nat, b: nat) {
    forall i :: 0 <= i < |G| ==> G[i].input == ProbeInput(i, a, b) && G[i].output == ProbeOutput(i, a)
  }

  function ProbeState(done: set<nat>, b: nat): Str {
    if b in done then "v" else ""
  }

  lemma ProbeStep(G: History<KvValue>, a: nat, b: nat, done: set<nat>, i: nat)
    requires Probes(G, a, b) && a != b && i < |G|
    ensures var r := StepOf(KvModel(), G, ProbeState(done, b), i);
            r.0 == (i != a || b in done) && (r.0 ==> r.1 == ProbeState(done + {i}, b))
  {
    assert "" + "" == "" && "v" + "" == "v";
  }

  lemma Remaining(done: set<nat>, all: set<nat>)
    requires done <= all && done != all
    ensures all - done != {}
  {
    if forall x :: x in all ==> x in done {
      assert false;
    }
    var x :| x in all && x !in done;
    assert x in all - done;
  }

  /** Of the operations that b waits for, and b itself, the earliest may go next; once b is
      done, the earliest of all. */
  lemma ProbeNext(G: History<KvValue>, a: nat, b: nat, done: set<nat>) returns (c: nat)
    requires Timed(G) && a < |G| && b < |G| && a != b && !Before(G, a, b)
    requires done <= Ids(G) && done != Ids(G)
    ensures Enabled(G, done, c) && (c == a ==> b in done)
  {
    var left := Ids(G) - done;
    if b in done {
      Remaining(done, Ids(G));
      c := EarliestReturn(G, left);
    } else {
      assert b in Ids(G);
      var first := set i | i in left && (i == b || Before(G, i, b));
      assert b in first;
      c := EarliestReturn(G, first);
    }
  }

  lemma {:induction false} ProbeFinishes(G: History<KvValue>, a: nat, b: nat, done: set<nat>)
    requires Timed(G) && Probes(G, a, b) && a < |G| && b < |G| && a != b && !Before(G, a, b)
    requires done <= Ids(G) && (a in done ==> b in done)
    ensures CanFinish(KvModel(), G, done, ProbeState(done, b))
    decreases Ids(G) - done
  {
    if done != Ids(G) {
      var c := ProbeNext(G, a, b, done);
      assert c in Ids(G) - done;
      ProbeStep(G, a, b, done, c);
      ProbeFinishes(G, a, b, done + {c});
      assert Extends(KvModel(), G, done, ProbeState(done, b), c);
    }
  }

  lemma {:induction false} ProbeStuck(G: History<KvValue>, a: nat, b: nat, done: set<nat>)
    requires Probes(G, a, b) && a < |G| && b < |G| && a != b && Before(G, a, b)
    requires a !in done && b !in done
    ensures !CanFinish(KvModel(), G, done, "")
    decreases Ids(G) - done
  {
    assert a in Ids(G);
    forall c | Enabled(G, done, c) && StepOf(KvModel(), G, "", c).0 ensures !Extends(KvModel(), G, done, "", c) {
      ProbeStep(G, a, b, done, c);
      assert c in Ids(G) - done;
      ProbeStuck(G, a, b, done + {c});
    }
  }

  /** A tie in any history: at its times there are linearizable key/value operations and a
      result of the sort that is not linearizable. */
  lemma TieMisleads<V>(H: History<V>, a: nat, b: nat) returns (G: History<KvValue>, h: Entries<KvValue>)
    requires Timed(H) && a < |H| && b < |H| && H[a].ret == H[b].call
    ensures SameTimes(H, G) && Linearizable(KvModel(), G)
    ensures EntriesOf(G, h) && WellFormed(h) && !Linearizable(KvModel(), OpsOf(h))
  {
    G := Probe(H, a, b);
    ProbeFinishes(G, a, b, {});
    FinishIffLinearizable(KvModel(), G);
    h := TieSorted(G, a, b);
    ProbeRejected(G, h, a, b);
  }

  lemma ProbeRejected(G: History<KvValue>, h: Entries<KvValue>, a: nat, b: nat)
    requires Timed(G) && Probes(G, a, b) && a < |G| && b < |G| && a != b
    requires EntriesOf(G, h) && WellFormed(h) && |OpsOf(h)| == |G| && Before(OpsOf(h), a, b)
    ensures !Linearizable(KvModel(), OpsOf(h))
  {
    var F := OpsOf(h);
    forall i | 0 <= i < |F| ensures F[i].input == ProbeInput(i, a, b) && F[i].output == ProbeOutput(i, a) {
      Paired(G, h, i);
    }
    ProbeStuck(F, a, b, {});
    FinishIffLinearizable(KvModel(), F);
  }

  /** Every result of the sort gives the right verdict on G. */
  ghost predicate Trustworthy(G: History<KvValue>) {
    forall h :: EntriesOf(G, h) ==> WellFormed(h) && (Linearizable(KvModel(), OpsOf(h)) <==> Linearizable(KvModel(), G))
  }

  /** The verdict on key/value operations at given times can be trusted, whatever the sort
      does and whatever the operations are, exactly when no return and call coincide. */
  lemma TrustIffNoTies<V>(H: History<V>)
    requires Timed(H)
    ensures NoTies(H) <==> forall G :: SameTimes(H, G) ==> Trustworthy(G)
  {
    if NoTies(H) {
      forall G | SameTimes(H, G) ensures Trustworthy(G) {
        forall h | EntriesOf(G, h) ensures WellFormed(h) && (Linearizable(KvModel(), OpsOf(h)) <==> Linearizable(KvModel(), G)) {
          EntriesDecide(KvModel(), G, h);
        }
      }
    } else {
      var a, b :| 0 <= a < |H| && 0 <= b < |H| && H[a].ret == H[b].call;
      var G, h := TieMisleads(H, a, b);
      assert !Trustworthy(G);
    }
  }
}
