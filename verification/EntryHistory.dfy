/**
 The time-ordered call and return entries that porcupine's checker works on
 (porcupine/checker.go), and what they say about the operations they came from.
 */
module EntryHistory {
  import opened Linearization

  datatype Kind = CallEntry | ReturnEntry
  datatype Entry<V> = Entry(kind: Kind, value: V, id: nat, time: int)

  type Entries<V> = seq<Entry<V>>

  /** The first entry of this kind and id, or the length. */
  function Find<V>(h: Entries<V>, kind: Kind, id: nat): (p: nat)
    ensures p <= |h|
    ensures p < |h| ==> h[p].kind == kind && h[p].id == id
  {
    if h == [] || (h[0].kind == kind && h[0].id == id) then 0 else Find(h[1..], kind, id) + 1
  }

  lemma {:induction false} FindFirst<V>(h: Entries<V>, kind: Kind, id: nat, i: nat)
    requires i < |h| && h[i].kind == kind && h[i].id == id
    ensures Find(h, kind, id) <= i
  {
    if i > 0 {
      FindFirst(h[1..], kind, id, i - 1);
    }
  }

  function CallAt<V>(h: Entries<V>, id: nat): nat {
    Find(h, CallEntry, id)
  }

  function ReturnAt<V>(h: Entries<V>, id: nat): nat {
    Find(h, ReturnEntry, id)
  }

  /** One call and one later return for each of the ids 0, 1, ... */
  ghost predicate WellFormed<V>(h: Entries<V>) {
    && |h| == 2 * (|h| / 2)
    && (forall id {:trigger CallAt(h, id)} {:trigger ReturnAt(h, id)} ::
          0 <= id < |h| / 2 ==> CallAt(h, id) < ReturnAt(h, id) < |h|)
    && (forall i {:trigger Located(h, i)} :: 0 <= i < |h| ==> Located(h, i))
  }

  predicate Located<V>(h: Entries<V>, i: nat)
    requires i < |h|
  {
    h[i].id < |h| / 2 && i == Find(h, h[i].kind, h[i].id)
  }

  lemma Placed<V>(h: Entries<V>, i: nat)
    requires WellFormed(h) && i < |h|
    ensures h[i].id < |h| / 2 && CallAt(h, h[i].id) < ReturnAt(h, h[i].id) < |h|
    ensures i == if h[i].kind.CallEntry? then CallAt(h, h[i].id) else ReturnAt(h, h[i].id)
  {
    assert Located(h, i);
  }

  /** The operations of the entries, with positions as times. */
  ghost function OpsOf<V>(h: Entries<V>): (H: History<V>)
    requires WellFormed(h)
    ensures |H| == |h| / 2
  {
    seq(|h| / 2, id requires 0 <= id < |h| / 2 =>
      Operation(h[CallAt(h, id)].value, CallAt(h, id), h[ReturnAt(h, id)].value, ReturnAt(h, id)))
  }

  // ----- makeEntries -----------------------------------------------------------------

  function RawEntries<V>(H: History<V>): Entries<V> {
    seq(2 * |H|, k requires 0 <= k < 2 * |H| => RawEntry(H, k))
  }

  function RawEntry<V>(H: History<V>, k: nat): Entry<V>
    requires k < 2 * |H|
  {
    var op := H[k / 2];
    if k % 2 == 0 then Entry(CallEntry, op.input, k / 2, op.call) else Entry(ReturnEntry, op.output, k / 2, op.ret)
  }

  predicate SortedByTime<V>(h: Entries<V>) {
    forall i, j :: 0 <= i < j < |h| ==> h[i].time <= h[j].time
  }

  /** Any order that a sort by time may leave the entries in. */
  ghost predicate EntriesOf<V>(H: History<V>, h: Entries<V>) {
    multiset(h) == multiset(RawEntries(H)) && SortedByTime(h)
  }

  predicate Timed<V>(H: History<V>) {
    forall i :: 0 <= i < |H| ==> H[i].call < H[i].ret
  }

  /** No operation returns at the very time another is called. */
  predicate NoTies<V>(H: History<V>) {
    forall a, b :: 0 <= a < |H| && 0 <= b < |H| ==> H[a].ret != H[b].call
  }

  lemma {:induction false} CountedOnce<T>(s: seq<T>, k: nat)
    requires k < |s| && forall i :: 0 <= i < |s| && i != k ==> s[i] != s[k]
    ensures multiset(s)[s[k]] == 1
  {
    var x := s[k];
    assert s == s[..k] + [x] + s[k + 1..];
    assert x !in s[..k] && x !in s[k + 1..];
  }

  lemma {:induction false} CountedTwice<T>(s: seq<T>, i: nat, j: nat)
    requires i < j < |s| && s[i] == s[j]
    ensures multiset(s)[s[i]] >= 2
  {
    var x := s[i];
    assert s == s[..j] + [x] + s[j + 1..];
    assert x in s[..j] by {
      assert s[..j][i] == x;
    }
  }

  /** Every entry is one of the raw ones. */
  lemma FromRaw<V>(H: History<V>, h: Entries<V>, p: nat)
    requires EntriesOf(H, h) && p < |h|
    ensures h[p].id < |H| && h[p] == RawEntry(H, 2 * h[p].id + if h[p].kind.CallEntry? then 0 else 1)
  {
    assert h[p] in multiset(h);
    assert h[p] in RawEntries(H);
    var k :| 0 <= k < 2 * |H| && RawEntries(H)[k] == h[p];
  }

  lemma OccursOnce<V>(H: History<V>, h: Entries<V>, p: nat, q: nat)
    requires EntriesOf(H, h) && p < q < |h|
    ensures h[p].kind != h[q].kind || h[p].id != h[q].id
  {
    FromRaw(H, h, p);
    FromRaw(H, h, q);
    if h[p].kind == h[q].kind && h[p].id == h[q].id {
      var k := 2 * h[p].id + if h[p].kind.CallEntry? then 0 else 1;
      CountedTwice(h, p, q);
      CountedOnce(RawEntries(H), k);
      assert false;
    }
  }

  lemma Occurs<V>(H: History<V>, h: Entries<V>, k: nat)
    requires EntriesOf(H, h) && k < 2 * |H|
    ensures var e := RawEntry(H, k); Find(h, e.kind, e.id) < |h| && h[Find(h, e.kind, e.id)] == e
  {
    var e := RawEntry(H, k);
    assert RawEntries(H)[k] == e;
    assert e in multiset(RawEntries(H));
    assert e in h;
    var i :| 0 <= i < |h| && h[i] == e;
    FindFirst(h, e.kind, e.id, i);
    FromRaw(H, h, Find(h, e.kind, e.id));
  }

  /** An operation's entries are there, with its values and times, in order. */
  lemma Paired<V>(H: History<V>, h: Entries<V>, id: nat)
    requires EntriesOf(H, h) && Timed(H) && id < |H|
    ensures CallAt(h, id) < ReturnAt(h, id) < |h|
    ensures h[CallAt(h, id)] == RawEntry(H, 2 * id) && h[ReturnAt(h, id)] == RawEntry(H, 2 * id + 1)
  {
    Occurs(H, h, 2 * id);
    Occurs(H, h, 2 * id + 1);
  }

  lemma FoundThere<V>(H: History<V>, h: Entries<V>, i: nat)
    requires EntriesOf(H, h) && i < |h|
    ensures h[i].id < |H| && i == Find(h, h[i].kind, h[i].id)
  {
    FromRaw(H, h, i);
    var p := Find(h, h[i].kind, h[i].id);
    FindFirst(h, h[i].kind, h[i].id, i);
    if p < i {
      OccursOnce(H, h, p, i);
    }
  }

  /** Operations that return after their call become well-formed entries, however the sort
      orders equal times. */
  lemma MadeWellFormed<V>(H: History<V>, h: Entries<V>)
    requires EntriesOf(H, h) && Timed(H)
    ensures WellFormed(h) && |h| == 2 * |H|
  {
    assert |h| == |multiset(h)| == |RawEntries(H)|;
    forall id | 0 <= id < |H| ensures CallAt(h, id) < ReturnAt(h, id) < |h| {
      Paired(H, h, id);
    }
    forall i | 0 <= i < |h| ensures Located(h, i) {
      FoundThere(H, h, i);
    }
  }

  /** Positions order a return and a call as their times do, up to equal times. */
  lemma PositionsAgree<V>(H: History<V>, h: Entries<V>, a: nat, b: nat)
    requires EntriesOf(H, h) && Timed(H) && a < |H| && b < |H|
    ensures H[a].ret < H[b].call ==> ReturnAt(h, a) < CallAt(h, b)
    ensures ReturnAt(h, a) < CallAt(h, b) ==> H[a].ret <= H[b].call
  {
    Paired(H, h, a);
    Paired(H, h, b);
  }

  // ----- Entries and operations agree ------------------------------------------------

  lemma {:induction false} SameRuns<S, V>(M: Model<S, V>, H: History<V>, G: History<V>, q: S, order: seq<nat>)
    requires |H| == |G| && Within(H, order)
    requires forall i :: 0 <= i < |H| ==> H[i].input == G[i].input && H[i].output == G[i].output
    ensures Runs(M, H, q, order) == Runs(M, G, q, order)
  {
    if order != [] {
      SameRuns(M, H, G, StepOf(M, H, q, order[0]).1, order[1..]);
    }
  }

  lemma SameOrders<S, V>(M: Model<S, V>, H: History<V>, G: History<V>, order: seq<nat>)
    requires |H| == |G|
    requires forall i :: 0 <= i < |H| ==> H[i].input == G[i].input && H[i].output == G[i].output
    requires forall a: nat, b: nat :: a < |H| && b < |H| && Before(G, a, b) ==> Before(H, a, b)
    ensures Orders(M, H, Ids(H), M.init, order) ==> Orders(M, G, Ids(G), M.init, order)
  {
    if Within(H, order) {
      SameRuns(M, H, G, M.init, order);
    }
  }

  lemma Transfer<S, V>(M: Model<S, V>, H: History<V>, G: History<V>)
    requires |H| == |G|
    requires forall i :: 0 <= i < |H| ==> H[i].input == G[i].input && H[i].output == G[i].output
    requires forall a: nat, b: nat :: a < |H| && b < |H| && Before(G, a, b) ==> Before(H, a, b)
    ensures Linearizable(M, H) ==> Linearizable(M, G)
  {
    if Linearizable(M, H) {
      var order :| Orders(M, H, Ids(H), M.init, order);
      SameOrders(M, H, G, order);
    }
  }

  /** What is linearizable as entries is linearizable as operations, and conversely when
      no return coincides with a call. */
  lemma EntriesDecide<S, V>(M: Model<S, V>, H: History<V>, h: Entries<V>)
    requires EntriesOf(H, h) && Timed(H)
    ensures WellFormed(h)
    ensures Linearizable(M, OpsOf(h)) ==> Linearizable(M, H)
    ensures NoTies(H) ==> (Linearizable(M, OpsOf(h)) <==> Linearizable(M, H))
  {
    MadeWellFormed(H, h);
    var G := OpsOf(h);
    forall i | 0 <= i < |H| ensures G[i].input == H[i].input && G[i].output == H[i].output {
      Paired(H, h, i);
    }
    forall a: nat, b: nat | a < |H| && b < |H|
      ensures Before(H, a, b) ==> Before(G, a, b)
      ensures NoTies(H) && Before(G, a, b) ==> Before(H, a, b)
    {
      PositionsAgree(H, h, a, b);
    }
    Transfer(M, G, H);
    if NoTies(H) {
      Transfer(M, H, G);
    }
  }
}
