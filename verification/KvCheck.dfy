/**
 Checking a key/value history end to end (porcupine/checker.go, models/kv.go): split by
 key, turn each part into sorted entries, search each part, and combine the verdicts.
 */
module KvCheck {
  import opened Linearization
  import opened EntryHistory
  import opened KvLocality
  import opened KvMeaning
  import EntryList
  import Checker

  datatype CheckResult = Unknown | Ok | Illegal

  // ----- makeEntries -----------------------------------------------------------------

  lemma Spliced<V>(s: Entries<V>, x: Entry<V>, k: nat)
    requires SortedByTime(s) && k <= |s|
    requires (k > 0 ==> s[k - 1].time <= x.time) && (k < |s| ==> x.time <= s[k].time)
    ensures SortedByTime(s[..k] + [x] + s[k..])
  {
    var r := s[..k] + [x] + s[k..];
    forall i, j | 0 <= i < j < |r| ensures r[i].time <= r[j].time {
      assert i < k ==> r[i] == s[i];
      assert j > k ==> r[j] == s[j - 1];
    }
  }

  lemma SplicedElements<V>(s: Entries<V>, x: Entry<V>, k: nat)
    requires k <= |s|
    ensures multiset(s[..k] + [x] + s[k..]) == multiset(s) + multiset{x}
  {
    assert s == s[..k] + s[k..];
  }

  method InsertByTime<V>(s: Entries<V>, x: Entry<V>) returns (r: Entries<V>)
    requires SortedByTime(s)
    ensures multiset(r) == multiset(s) + multiset{x} && SortedByTime(r)
  {
    var k := |s|;
    while k > 0 && x.time < s[k - 1].time
      invariant 0 <= k <= |s| && (k < |s| ==> x.time <= s[k].time)
    {
      k := k - 1;
    }
    Spliced(s, x, k);
    SplicedElements(s, x, k);
    r := s[..k] + [x] + s[k..];
  }

  /** An insertion sort in the place of the library's sort. */
  method SortByTime<V>(e: Entries<V>) returns (s: Entries<V>)
    ensures multiset(s) == multiset(e) && SortedByTime(s)
  {
    s := [];
    for i := 0 to |e|
      invariant multiset(s) == multiset(e[..i]) && SortedByTime(s)
    {
      assert e[..i + 1] == e[..i] + [e[i]];
      s := InsertByTime(s, e[i]);
    }
    assert e[..|e|] == e;
  }

  method MakeEntries<V>(H: History<V>) returns (h: Entries<V>)
    ensures EntriesOf(H, h)
  {
    var entries: Entries<V> := [];
    for id := 0 to |H|
      invariant entries == RawEntries(H)[..2 * id]
    {
      entries := entries + [Entry(CallEntry, H[id].input, id, H[id].call)];
      entries := entries + [Entry(ReturnEntry, H[id].output, id, H[id].ret)];
    }
    assert RawEntries(H)[..2 * |H|] == RawEntries(H);
    h := SortByTime(entries);
  }

  // ----- Partition -------------------------------------------------------------------

  predicate HasKey(H: History<KvValue>, k: Str) {
    exists i :: 0 <= i < |H| && OpKey(H, i) == k
  }

  lemma {:induction false} NoKeyNoPart(H: History<KvValue>, k: Str)
    ensures HasKey(H, k) <==> Select(H, k) != []
  {
    if H != [] {
      var front := H[..|H| - 1];
      NoKeyNoPart(front, k);
      assert forall i :: 0 <= i < |front| ==> OpKey(front, i) == OpKey(H, i);
      assert OpKey(H, |H| - 1) == k ==> HasKey(H, k);
    }
  }

  lemma OneMore(H: History<KvValue>, i: nat, k: Str)
    requires i < |H|
    ensures HasKey(H[..i + 1], k) <==> HasKey(H[..i], k) || OpKey(H, i) == k
    ensures Select(H[..i + 1], k) == Select(H[..i], k) + if OpKey(H, i) == k then [H[i]] else []
    ensures !HasKey(H[..i], k) ==> Select(H[..i], k) == []
  {
    NoKeyNoPart(H[..i], k);
    NoKeyNoPart(H[..i + 1], k);
    assert H[..i + 1][..i] == H[..i] && OpKey(H[..i + 1], i) == OpKey(H, i);
  }

  ghost predicate GroupedAt(m: map<Str, History<KvValue>>, H: History<KvValue>, k: Str) {
    && (k in m <==> HasKey(H, k))
    && (k in m ==> m[k] == Select(H, k))
  }

  lemma GroupStep(m: map<Str, History<KvValue>>, H: History<KvValue>, i: nat, k: Str)
    requires i < |H| && GroupedAt(m, H[..i], k) && GroupedAt(m, H[..i], OpKey(H, i))
    ensures var key := OpKey(H, i);
            GroupedAt(m[key := (if key in m then m[key] else []) + [H[i]]], H[..i + 1], k)
  {
    OneMore(H, i, k);
    assert Select(H[..i], k) + [] == Select(H[..i], k);
  }

  method GroupByKey(H: History<KvValue>) returns (m: map<Str, History<KvValue>>)
    ensures forall k :: k in m <==> HasKey(H, k)
    ensures forall k :: k in m ==> m[k] == Select(H, k)
  {
    m := map[];
    ghost var done: History<KvValue> := [];
    for i := 0 to |H|
      invariant done == H[..i] && forall k :: GroupedAt(m, done, k)
    {
      var key := KeyOf(H[i].input);
      ghost var was, next := m, H[..i + 1];
      m := m[key := (if key in m then m[key] else []) + [H[i]]];
      forall k ensures GroupedAt(m, next, k) {
        assert GroupedAt(was, done, k) && GroupedAt(was, done, OpKey(H, i));
        GroupStep(was, H, i, k);
      }
      done := next;
    }
    assert H[..|H|] == H;
    forall k ensures (k in m <==> HasKey(H, k)) && (k in m ==> m[k] == Select(H, k)) {
      assert GroupedAt(m, done, k);
    }
  }

  function KeySet(H: History<KvValue>): set<Str> {
    set i | 0 <= i < |H| :: OpKey(H, i)
  }

  /** The byte order of strings. */
  predicate Smaller(a: Str, b: Str) {
    b != [] && (a == [] || a[0] < b[0] || (a[0] == b[0] && Smaller(a[1..], b[1..])))
  }

  lemma {:induction false} Trichotomy(a: Str, b: Str)
    ensures a == b || Smaller(a, b) || Smaller(b, a)
  {
    if a != [] && b != [] && a[0] == b[0] {
      Trichotomy(a[1..], b[1..]);
      assert a == [a[0]] + a[1..] && b == [b[0]] + b[1..];
    }
  }

  lemma {:induction false} SmallerTrans(a: Str, b: Str, c: Str)
    requires Smaller(a, b) && Smaller(b, c)
    ensures Smaller(a, c)
  {
    if a != [] && a[0] == b[0] && b[0] == c[0] {
      SmallerTrans(a[1..], b[1..], c[1..]);
    }
  }

  lemma {:induction false} SmallerNotEqual(a: Str)
    ensures !Smaller(a, a)
  {
    if a != [] {
      SmallerNotEqual(a[1..]);
    }
  }

  /** Strictly increasing, so without repetition. */
  predicate Increasing(keys: seq<Str>) {
    forall i, j :: 0 <= i < j < |keys| ==> Smaller(keys[i], keys[j])
  }

  lemma {:induction false} IncreasingCount(keys: seq<Str>, all: set<Str>)
    requires Increasing(keys) && forall k :: k in keys <==> k in all
    ensures |keys| == |all|
  {
    if keys != [] {
      var front, last := keys[..|keys| - 1], keys[|keys| - 1];
      forall i | 0 <= i < |front| ensures front[i] != last {
        SmallerNotEqual(last);
      }
      assert keys == front + [last];
      forall k ensures k in front <==> k in all - {last} {
        assert k in keys <==> k in front || k == last;
      }
      IncreasingCount(front, all - {last});
      assert last in all && all == (all - {last}) + {last};
    }
  }

  lemma SplicedKeys(s: seq<Str>, k: Str, p: nat)
    requires Increasing(s) && p <= |s|
    requires (forall j :: p <= j < |s| ==> Smaller(k, s[j])) && (forall i :: 0 <= i < p ==> Smaller(s[i], k))
    ensures Increasing(s[..p] + [k] + s[p..])
    ensures forall x :: x in s[..p] + [k] + s[p..] <==> x in s || x == k
  {
    var r := s[..p] + [k] + s[p..];
    forall i, j | 0 <= i < j < |r| ensures Smaller(r[i], r[j]) {
      assert i < p ==> r[i] == s[i];
      assert j > p ==> r[j] == s[j - 1];
      assert i > p ==> r[i] == s[i - 1];
    }
    assert s == s[..p] + s[p..];
  }

  lemma BelowAll(s: seq<Str>, k: Str, p: nat, j: nat)
    requires Increasing(s) && p <= j < |s| && Smaller(k, s[p])
    ensures Smaller(k, s[j])
  {
    if p < j {
      SmallerTrans(k, s[p], s[j]);
    }
  }

  lemma AboveAll(s: seq<Str>, k: Str, i: nat, p: nat)
    requires Increasing(s) && i < p <= |s| && Smaller(s[p - 1], k)
    ensures Smaller(s[i], k)
  {
    if i < p - 1 {
      SmallerTrans(s[i], s[p - 1], k);
    }
  }

  /** Insertion into an increasing list. */
  method InsertKey(s: seq<Str>, k: Str) returns (r: seq<Str>)
    requires Increasing(s) && k !in s
    ensures Increasing(r) && forall x :: x in r <==> x in s || x == k
  {
    var p := |s|;
    while p > 0 && Smaller(k, s[p - 1])
      invariant 0 <= p <= |s| && (p < |s| ==> Smaller(k, s[p]))
    {
      p := p - 1;
    }
    forall j | p <= j < |s| ensures Smaller(k, s[j]) {
      BelowAll(s, k, p, j);
    }
    forall i | 0 <= i < p ensures Smaller(s[i], k) {
      Trichotomy(s[p - 1], k);
      AboveAll(s, k, i, p);
    }
    SplicedKeys(s, k, p);
    r := s[..p] + [k] + s[p..];
  }

  /** The keys in any order that the map yields them, sorted. */
  method SortedKeys(left0: set<Str>) returns (keys: seq<Str>)
    ensures Increasing(keys) && forall k :: k in keys <==> k in left0
  {
    keys := [];
    var left := left0;
    while left != {}
      invariant left <= left0 && Increasing(keys) && forall k :: k in keys <==> k in left0 - left
    {
      var k :| k in left;
      keys := InsertKey(keys, k);
      left := left - {k};
    }
  }

  /** One part per key that occurs, in increasing order of the keys. */
  method Partition(H: History<KvValue>) returns (keys: seq<Str>, parts: seq<History<KvValue>>)
    ensures |keys| == |parts| && forall i :: 0 <= i < |parts| ==> parts[i] == Select(H, keys[i])
    ensures Increasing(keys) && forall k :: k in keys <==> HasKey(H, k)
  {
    var m := GroupByKey(H);
    keys := SortedKeys(m.Keys);
    parts := [];
    for i := 0 to |keys|
      invariant |parts| == i && forall j :: 0 <= j < i ==> parts[j] == Select(H, keys[j])
    {
      assert keys[i] in keys;
      parts := parts + [m[keys[i]]];
    }
  }

  // ----- checkParallel ---------------------------------------------------------------

  /** The order in which the n searches report. */
  predicate Arrives(arrival: seq<nat>, n: nat) {
    && |arrival| == n
    && (forall c :: 0 <= c < n ==> arrival[c] < n)
    && (forall i :: 0 <= i < n ==> i in arrival)
  }

  ghost predicate PartOK<S, V>(M: Model<S, V>, h: Entries<V>)
    requires WellFormed(h)
  {
    Linearizable(M, OpsOf(h))
  }

  /** How many of n reports can be received before the timeout. */
  function Received(n: nat, timeout: EntryList.Option<nat>): nat {
    if timeout.Some? then timeout.value else n
  }

  /** The timeout comes before the last report, or there is none to wait for. */
  predicate Fires(n: nat, timeout: EntryList.Option<nat>) {
    timeout.Some? && (timeout.value < n || n == 0)
  }

  /** One of the first count reports is bad. */
  ghost predicate BadAmong<S, V>(M: Model<S, V>, history: seq<Entries<V>>, arrival: seq<nat>, count: nat)
    requires (forall i :: 0 <= i < |history| ==> WellFormed(history[i])) && Arrives(arrival, |history|)
  {
    exists c :: 0 <= c < count && c < |history| && !PartOK(M, history[arrival[c]])
  }

  /** The searches run with the kill flag down until the loop is left.  With Some(d) the
      timeout fires when d results have been received. */
  method CheckParallel<S(==, !new), V>(M: Model<S, V>, history: seq<Entries<V>>, computeInfo: bool, arrival: seq<nat>,
                                       timeout: EntryList.Option<nat>)
      returns (result: CheckResult)
    requires forall i :: 0 <= i < |history| ==> WellFormed(history[i])
    requires Arrives(arrival, |history|)
    requires timeout.Some? ==> timeout.value <= |history|
    requires |history| == 0 ==> timeout.Some?
    ensures result.Ok? ==> forall i :: 0 <= i < |history| ==> PartOK(M, history[i])
    ensures result.Illegal? ==> exists i :: 0 <= i < |history| && !PartOK(M, history[i])
    ensures result == if BadAmong(M, history, arrival, Received(|history|, timeout)) then Illegal
                      else if Fires(|history|, timeout) then Unknown else Ok
  {
    var ok, timedOut, count := true, false, 0;
    while true
      invariant 0 <= count <= |history| && (|history| > 0 ==> count < |history|)
      invariant count <= Received(|history|, timeout)
      invariant ok <==> !BadAmong(M, history, arrival, count)
      decreases |history| - count
    {
      if timeout == EntryList.Some(count) {
        timedOut := true;
        break;
      }
      if |history| == 0 {
        assert false;
      }
      var r, partial;
      ghost var rounds, killed;
      r, partial, rounds, killed := Checker.CheckSingle(M, history[arrival[count]], computeInfo, EntryList.None);
      count := count + 1;
      ok := ok && r;
      if !ok && !computeInfo {
        break;
      }
      if count >= |history| {
        break;
      }
    }
    if !ok {
      result := Illegal;
    } else if timedOut {
      result := Unknown;
    } else {
      result := Ok;
      forall i | 0 <= i < |history| ensures PartOK(M, history[i]) {
        assert i in arrival;
        var c :| 0 <= c < |arrival| && arrival[c] == i;
      }
    }
  }

  // ----- checkOperations -------------------------------------------------------------

  lemma SelectTimes(H: History<KvValue>, k: Str)
    requires Timed(H)
    ensures Timed(Select(H, k)) && (NoTies(H) ==> NoTies(Select(H, k)))
  {
    PlacesOK(H, k);
  }

  /** The parts that occur decide the map. */
  lemma PartsDecide(H: History<KvValue>, keys: seq<Str>)
    requires Timed(H) && forall k :: k in keys <==> HasKey(H, k)
    ensures Linearizable(MapModel(), H) <==> forall i :: 0 <= i < |keys| ==> KeyLinearizable(H, keys[i])
  {
    Locality(H);
    forall k | k !in keys ensures KeyLinearizable(H, k) {
      NoKeyNoPart(H, k);
      assert Orders(KvModel(), Select(H, k), Ids(Select(H, k)), "", []);
    }
    if forall i :: 0 <= i < |keys| ==> KeyLinearizable(H, keys[i]) {
      forall k ensures KeyLinearizable(H, k) {
        if k in keys {
          var i :| 0 <= i < |keys| && keys[i] == k;
        }
      }
    }
  }

  /** What the entries of a part say about its key. */
  ghost predicate Decides(H: History<KvValue>, key: Str, h: Entries<KvValue>) {
    && WellFormed(h)
    && (PartOK(KvModel(), h) ==> KeyLinearizable(H, key))
    && (NoTies(H) && KeyLinearizable(H, key) ==> PartOK(KvModel(), h))
  }

  lemma PartDecides(H: History<KvValue>, key: Str, h: Entries<KvValue>)
    requires Timed(H) && EntriesOf(Select(H, key), h)
    ensures Decides(H, key, h)
  {
    SelectTimes(H, key);
    EntriesDecide(KvModel(), Select(H, key), h);
  }

  method EntriesOfParts(H: History<KvValue>, keys: seq<Str>, parts: seq<History<KvValue>>) returns (l: seq<Entries<KvValue>>)
    requires Timed(H) && |keys| == |parts| && forall i :: 0 <= i < |parts| ==> parts[i] == Select(H, keys[i])
    ensures |l| == |parts| && forall i :: 0 <= i < |l| ==> Decides(H, keys[i], l[i])
  {
    l := [];
    for i := 0 to |parts|
      invariant |l| == i && forall j :: 0 <= j < |l| ==> Decides(H, keys[j], l[j])
    {
      var h := MakeEntries(parts[i]);
      PartDecides(H, keys[i], h);
      l := l + [h];
    }
  }

  /** Ok means that some order of the operations explains every get; Illegal means that none
      does, unless a return and a call share a time; Unknown needs a timeout. */
  method CheckOperations(H: History<KvValue>, verbose: bool, arrival: seq<nat>, timeout: EntryList.Option<nat>)
      returns (result: CheckResult)
    requires Timed(H)
    requires Arrives(arrival, |KeySet(H)|)
    requires timeout.Some? ==> timeout.value <= |KeySet(H)|
    requires H == [] ==> timeout.Some?
    ensures result.Ok? ==> exists order :: Explains(H, order)
    ensures result.Illegal? && NoTies(H) ==> !exists order :: Explains(H, order)
    ensures result.Unknown? ==> Fires(|KeySet(H)|, timeout)
  {
    LinearizableMeans(H);
    var keys, parts := Partition(H);
    CountKeys(H, keys);
    var l := EntriesOfParts(H, keys, parts);
    PartsDecide(H, keys);
    result := CheckParallel(KvModel(), l, verbose, arrival, timeout);
    if result.Ok? {
      assert forall i :: 0 <= i < |l| ==> Decides(H, keys[i], l[i]) && PartOK(KvModel(), l[i]);
    }
    if result.Illegal? && NoTies(H) {
      ghost var i :| 0 <= i < |l| && !PartOK(KvModel(), l[i]);
      assert Decides(H, keys[i], l[i]);
    }
  }

  lemma CountKeys(H: History<KvValue>, keys: seq<Str>)
    requires Increasing(keys) && forall k :: k in keys <==> HasKey(H, k)
    ensures |keys| == |KeySet(H)| && (|keys| == 0 ==> H == [])
  {
    forall k ensures k in keys <==> k in KeySet(H) {
      assert HasKey(H, k) <==> k in KeySet(H);
    }
    IncreasingCount(keys, KeySet(H));
    assert H != [] ==> HasKey(H, OpKey(H, 0));
  }
}
