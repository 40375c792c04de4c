/**
 MapReduce (mr/worker.go) against the sequential program (main/mrsequential.go): hashing
 the intermediate pairs into buckets, sorting and reducing each bucket on its own yields
 exactly the lines of the sequential run, for every reduce function that does not depend
 on the order of its values.
 */
module MapReduce {

  newtype Byte = x: int | 0 <= x < 256
  type Str = seq<Byte>

  datatype KeyValue = KeyValue(key: Str, value: Str)

  type Pairs = seq<KeyValue>
  type Line = (Str, Str)
  type Reducer = (Str, seq<Str>) -> Str

  // ----- Hashing ---------------------------------------------------------------------

  function FnvByte(h: bv32, b: Byte): bv32 {
    (h ^ ((b as int) as bv32)) * 16777619
  }

  /** FNV-1a, 32 bit, starting from h. */
  function Fnv(h: bv32, key: Str): bv32
    decreases |key|
  {
    if key == [] then h else Fnv(FnvByte(h, key[0]), key[1..])
  }

  function Ihash(key: Str): nat {
    (Fnv(2166136261, key) & 0x7fffffff) as nat
  }

  lemma Remainder(x: nat, n: nat)
    requires n > 0
    ensures exists q: nat :: x == n * q + x % n
  {
    assert x == n * (x / n) + x % n;
  }

  function ReducerOf(key: Str, n: nat): (r: nat)
    requires n > 0
    ensures r < n && exists q: nat :: Ihash(key) == n * q + r
  {
    var hash := Ihash(key);
    Remainder(hash, n);
    hash % n
  }

  /** The published values of FNV-1a for no byte, for "a" and for "foo". */
  lemma FnvValues()
    ensures Fnv(0x811c9dc5, []) == 0x811c9dc5 && Fnv(0x811c9dc5, [97]) == 0xe40c292c
    ensures Fnv(0x811c9dc5, [102, 111, 111]) == 0xa9f37ed7
  {
    var key: Str := [102, 111, 111];
    assert key[1..] == [111, 111] && key[1..][1..] == [111];
    assert FnvByte(0x811c9dc5, 102) == 0xe30c2799;
    assert FnvByte(0xe30c2799, 111) == 0x6222e842;
    assert FnvByte(0x6222e842, 111) == 0xa9f37ed7;
  }

  /** The sign bit is dropped. */
  lemma HashOfFoo()
    ensures Ihash([102, 111, 111]) == 0x29f37ed7
  {
    FnvValues();
    assert 0xa9f37ed7 as bv32 & 0x7fffffff == 0x29f37ed7;
  }

  // ----- Order -----------------------------------------------------------------------

  /** Go's order on strings. */
  predicate Less(a: Str, b: Str) {
    b != [] && (a == [] || a[0] < b[0] || (a[0] == b[0] && Less(a[1..], b[1..])))
  }

  lemma {:induction false} Comparable(a: Str, b: Str)
    ensures Less(a, b) || Less(b, a) || a == b
  {
    if a != [] && b != [] && a[0] == b[0] {
      Comparable(a[1..], b[1..]);
      assert a == [a[0]] + a[1..] && b == [b[0]] + b[1..];
    }
  }

  predicate SortedByKey(s: Pairs) {
    forall i, j :: 0 <= i < j < |s| ==> !Less(s[j].key, s[i].key)
  }

  /** Equal keys are next to each other. */
  lemma Adjacent(s: Pairs, i: nat, j: nat, k: nat)
    requires SortedByKey(s) && i <= j <= k < |s| && s[i].key == s[k].key
    ensures s[j].key == s[i].key
  {
    Comparable(s[i].key, s[j].key);
  }

  // ----- Values of a key -------------------------------------------------------------

  function ValuesOf(s: Pairs, k: Str): seq<Str> {
    if s == [] then [] else
      ValuesOf(s[..|s| - 1], k) + if s[|s| - 1].key == k then [s[|s| - 1].value] else []
  }

  predicate HasKey(s: Pairs, k: Str) {
    exists i :: 0 <= i < |s| && s[i].key == k
  }

  lemma {:induction false} ValuesConcat(s: Pairs, t: Pairs, k: Str)
    ensures ValuesOf(s + t, k) == ValuesOf(s, k) + ValuesOf(t, k)
  {
    if t == [] {
      assert s + t == s;
    } else {
      assert (s + t)[..|s + t| - 1] == s + t[..|t| - 1];
      ValuesConcat(s, t[..|t| - 1], k);
    }
  }

  lemma {:induction false} NoValues(s: Pairs, k: Str)
    requires !HasKey(s, k)
    ensures ValuesOf(s, k) == []
  {
    if s != [] {
      assert forall i :: 0 <= i < |s| - 1 ==> s[..|s| - 1][i] == s[i];
      NoValues(s[..|s| - 1], k);
    }
  }

  /** Each pair contributes its value to its key. */
  lemma {:induction false} ValueCount(s: Pairs, k: Str, v: Str)
    ensures multiset(ValuesOf(s, k))[v] == multiset(s)[KeyValue(k, v)]
  {
    if s != [] {
      ValueCount(s[..|s| - 1], k, v);
      assert s == s[..|s| - 1] + [s[|s| - 1]];
    }
  }

  lemma SameValues(s: Pairs, t: Pairs, k: Str)
    requires multiset(s) == multiset(t)
    ensures multiset(ValuesOf(s, k)) == multiset(ValuesOf(t, k))
    ensures HasKey(s, k) <==> HasKey(t, k)
  {
    forall v ensures multiset(ValuesOf(s, k))[v] == multiset(ValuesOf(t, k))[v] {
      ValueCount(s, k, v);
      ValueCount(t, k, v);
    }
    if HasKey(s, k) {
      SameKeys(s, t, k);
    }
    if HasKey(t, k) {
      SameKeys(t, s, k);
    }
  }

  lemma SameKeys(s: Pairs, t: Pairs, k: Str)
    requires multiset(s) == multiset(t) && HasKey(s, k)
    ensures HasKey(t, k)
  {
    var i :| 0 <= i < |s| && s[i].key == k;
    assert s[i] in multiset(s);
    assert s[i] in t;
    var j :| 0 <= j < |t| && t[j] == s[i];
  }

  // ----- What a run should print -----------------------------------------------------

  /** The result does not depend on the order of the values. */
  ghost predicate Unordered(reduce: Reducer) {
    forall k, v, w :: multiset(v) == multiset(w) ==> reduce(k, v) == reduce(k, w)
  }

  ghost predicate IsLine(s: Pairs, reduce: Reducer, line: Line) {
    HasKey(s, line.0) && line.1 == reduce(line.0, ValuesOf(s, line.0))
  }

  predicate Ascending(out: seq<Line>) {
    forall i, j :: 0 <= i < j < |out| ==> Less(out[i].0, out[j].0)
  }

  /** One line for each key, in the order of the keys, and nothing else. */
  ghost predicate Prints(out: seq<Line>, s: Pairs, reduce: Reducer) {
    (forall line :: line in out <==> IsLine(s, reduce, line)) && Ascending(out)
  }

  lemma FirstLine(a: seq<Line>, b: seq<Line>)
    requires Ascending(a) && Ascending(b) && a != [] && (forall x :: x in a <==> x in b)
    ensures b != [] && a[0] == b[0]
  {
    assert a[0] in b && (b != [] ==> b[0] in a);
    var i :| 0 <= i < |b| && b[i] == a[0];
    var j :| 0 <= j < |a| && a[j] == b[0];
    if i > 0 && j > 0 {
      Asymmetric(a[0].0, b[0].0);
      assert false;
    }
  }

  lemma OtherLines(a: seq<Line>, x: Line)
    requires Ascending(a) && a != []
    ensures x in a[1..] <==> x in a && x != a[0]
  {
    if x in a[1..] {
      var i :| 0 <= i < |a[1..]| && a[1..][i] == x;
      LessIrreflexive(a[0].0);
      assert Less(a[0].0, a[i + 1].0);
    }
    if x in a && x != a[0] {
      var i :| 0 <= i < |a| && a[i] == x;
      assert a[1..][i - 1] == x;
    }
  }

  lemma SomeLine(b: seq<Line>)
    requires b != []
    ensures exists x :: x in b
  {
    assert b[0] in b;
  }

  lemma {:induction false} SameLists(a: seq<Line>, b: seq<Line>)
    requires Ascending(a) && Ascending(b) && (forall x :: x in a <==> x in b)
    ensures a == b
  {
    if a == [] {
      if b != [] {
        SomeLine(b);
      }
    } else {
      FirstLine(a, b);
      forall x ensures x in a[1..] <==> x in b[1..] {
        OtherLines(a, x);
        OtherLines(b, x);
      }
      SameLists(a[1..], b[1..]);
      assert a == [a[0]] + a[1..] && b == [b[0]] + b[1..];
    }
  }

  /** The pairs leave one output, line by line. */
  lemma OneOutput(a: seq<Line>, b: seq<Line>, s: Pairs, reduce: Reducer)
    requires Prints(a, s, reduce) && Prints(b, s, reduce)
    ensures a == b
  {
    SameLists(a, b);
  }

  /** Rearranging the pairs does not change the lines. */
  lemma SameLines(s: Pairs, t: Pairs, reduce: Reducer, line: Line)
    requires multiset(s) == multiset(t) && Unordered(reduce)
    ensures IsLine(s, reduce, line) <==> IsLine(t, reduce, line)
  {
    SameValues(s, t, line.0);
  }

  // ----- Buckets ---------------------------------------------------------------------

  function Bucket(s: Pairs, r: nat, n: nat): Pairs
    requires n > 0
  {
    if s == [] then [] else
      Bucket(s[..|s| - 1], r, n) + if ReducerOf(s[|s| - 1].key, n) == r then [s[|s| - 1]] else []
  }

  function Concat(parts: seq<Pairs>): Pairs {
    if parts == [] then [] else Concat(parts[..|parts| - 1]) + parts[|parts| - 1]
  }

  function Files(parts: seq<Pairs>, r: nat, n: nat): seq<Pairs>
    requires n > 0
  {
    seq(|parts|, m requires 0 <= m < |parts| => Bucket(parts[m], r, n))
  }

  lemma {:induction false} BucketConcat(s: Pairs, t: Pairs, r: nat, n: nat)
    requires n > 0
    ensures Bucket(s + t, r, n) == Bucket(s, r, n) + Bucket(t, r, n)
  {
    if t == [] {
      assert s + t == s;
    } else {
      assert (s + t)[..|s + t| - 1] == s + t[..|t| - 1];
      BucketConcat(s, t[..|t| - 1], r, n);
    }
  }

  lemma FilesFront(parts: seq<Pairs>, r: nat, n: nat)
    requires n > 0 && parts != []
    ensures Files(parts, r, n)[..|parts| - 1] == Files(parts[..|parts| - 1], r, n)
    ensures Files(parts, r, n)[|parts| - 1] == Bucket(parts[|parts| - 1], r, n)
  {
  }

  /** Reading one column of the files is splitting everything at once. */
  lemma {:induction false} FilesAreBucket(parts: seq<Pairs>, r: nat, n: nat)
    requires n > 0
    ensures Concat(Files(parts, r, n)) == Bucket(Concat(parts), r, n)
  {
    if parts != [] {
      var front := parts[..|parts| - 1];
      FilesAreBucket(front, r, n);
      FilesFront(parts, r, n);
      BucketConcat(Concat(front), parts[|parts| - 1], r, n);
    }
  }

  /** A bucket has all of a key's values or none. */
  lemma {:induction false} BucketValues(s: Pairs, r: nat, n: nat, k: Str)
    requires n > 0
    ensures ReducerOf(k, n) == r ==> ValuesOf(Bucket(s, r, n), k) == ValuesOf(s, k) && (HasKey(Bucket(s, r, n), k) <==> HasKey(s, k))
    ensures ReducerOf(k, n) != r ==> !HasKey(Bucket(s, r, n), k)
  {
    if s != [] {
      var front, last := s[..|s| - 1], s[|s| - 1];
      BucketValues(front, r, n, k);
      KeySnoc(front, last, k);
      KeySnoc(Bucket(front, r, n), last, k);
      assert s == front + [last];
      ValuesConcat(Bucket(front, r, n), [last], k);
      ValuesConcat(front, [last], k);
      assert Bucket(front, r, n) + [] == Bucket(front, r, n);
    }
  }

  lemma KeySnoc(s: Pairs, x: KeyValue, k: Str)
    ensures HasKey(s + [x], k) <==> HasKey(s, k) || x.key == k
  {
    if HasKey(s, k) {
      var i :| 0 <= i < |s| && s[i].key == k;
      assert (s + [x])[i].key == k;
    }
    assert (s + [x])[|s|] == x;
  }

  /** A line of the whole run is a line of exactly the bucket its key hashes to. */
  lemma LineInBucket(s: Pairs, n: nat, reduce: Reducer, line: Line, r: nat)
    requires n > 0 && r < n
    ensures IsLine(Bucket(s, r, n), reduce, line) <==> IsLine(s, reduce, line) && ReducerOf(line.0, n) == r
  {
    BucketValues(s, r, n, line.0);
  }

  // ----- The worker ------------------------------------------------------------------

  /** createTempFiles: every pair goes to the file of its reducer. */
  method CreateTempFiles(kva: Pairs, n: nat) returns (files: seq<Pairs>)
    requires n > 0
    ensures |files| == n && forall r :: 0 <= r < n ==> files[r] == Bucket(kva, r, n)
  {
    files := [];
    for i := 0 to n
      invariant |files| == i && forall r :: 0 <= r < i ==> files[r] == []
    {
      files := files + [[]];
    }
    for i := 0 to |kva|
      invariant |files| == n && forall r :: 0 <= r < n ==> files[r] == Bucket(kva[..i], r, n)
    {
      var id := ReducerOf(kva[i].key, n);
      assert kva[..i + 1][..i] == kva[..i];
      files := files[id := files[id] + [kva[i]]];
    }
    assert kva[..|kva|] == kva;
  }

  /** readTempFiles: the files of one reducer, map task by map task. */
  method ReadTempFiles(files: seq<Pairs>) returns (temp: Pairs)
    ensures temp == Concat(files)
  {
    temp := [];
    for m := 0 to |files|
      invariant temp == Concat(files[..m])
    {
      assert files[..m + 1][..m] == files[..m];
      temp := temp + files[m];
    }
    assert files[..|files|] == files;
  }

  lemma {:induction false} LessTrans(a: Str, b: Str, c: Str)
    requires !Less(b, a) && !Less(c, b)
    ensures !Less(c, a)
  {
    if c != [] && a != [] && b != [] && a[0] == b[0] == c[0] {
      LessTrans(a[1..], b[1..], c[1..]);
    }
  }

  lemma LessIrreflexive(a: Str)
    ensures !Less(a, a)
  {
    if a != [] {
      LessIrreflexive(a[1..]);
    }
  }

  predicate Fits(s: Pairs, x: KeyValue, k: nat)
    requires k <= |s|
  {
    (k > 0 ==> !Less(x.key, s[k - 1].key)) && (k < |s| ==> !Less(s[k].key, x.key))
  }

  lemma FitsAll(s: Pairs, x: KeyValue, k: nat, i: nat)
    requires SortedByKey(s) && k <= |s| && Fits(s, x, k) && i < |s|
    ensures i < k ==> !Less(x.key, s[i].key)
    ensures i >= k ==> !Less(s[i].key, x.key)
  {
    LessIrreflexive(s[i].key);
    if i < k {
      LessTrans(s[i].key, s[k - 1].key, x.key);
    } else {
      LessTrans(x.key, s[k].key, s[i].key);
    }
  }

  lemma Inserted(s: Pairs, x: KeyValue, k: nat)
    requires SortedByKey(s) && k <= |s| && Fits(s, x, k)
    ensures SortedByKey(s[..k] + [x] + s[k..])
  {
    var r := s[..k] + [x] + s[k..];
    forall i | 0 <= i < |s| ensures (i < k ==> !Less(x.key, s[i].key)) && (i >= k ==> !Less(s[i].key, x.key)) {
      FitsAll(s, x, k, i);
    }
    forall i, j | 0 <= i < j < |r| ensures !Less(r[j].key, r[i].key) {
      assert r[i] == if i < k then s[i] else if i == k then x else s[i - 1];
      assert r[j] == if j < k then s[j] else if j == k then x else s[j - 1];
    }
  }

  lemma InsertedElements(s: Pairs, x: KeyValue, k: nat)
    requires k <= |s|
    ensures multiset(s[..k] + [x] + s[k..]) == multiset(s) + multiset{x}
  {
    assert s == s[..k] + s[k..];
  }

  method Insert(s: Pairs, x: KeyValue) returns (r: Pairs)
    requires SortedByKey(s)
    ensures SortedByKey(r) && multiset(r) == multiset(s) + multiset{x}
  {
    var k := |s|;
    while k > 0 && Less(x.key, s[k - 1].key)
      invariant 0 <= k <= |s| && (k < |s| ==> !Less(s[k].key, x.key))
    {
      k := k - 1;
      Asymmetric(x.key, s[k].key);
    }
    Inserted(s, x, k);
    InsertedElements(s, x, k);
    r := s[..k] + [x] + s[k..];
  }

  lemma {:induction false} Asymmetric(a: Str, b: Str)
    requires Less(a, b)
    ensures !Less(b, a)
  {
    if a != [] && a[0] == b[0] {
      Asymmetric(a[1..], b[1..]);
    }
  }

  /** An insertion sort in the place of the library's sort. */
  method SortPairs(s: Pairs) returns (r: Pairs)
    ensures SortedByKey(r) && multiset(r) == multiset(s)
  {
    r := [];
    for i := 0 to |s|
      invariant SortedByKey(r) && multiset(r) == multiset(s[..i])
    {
      assert s[..i + 1] == s[..i] + [s[i]];
      r := Insert(r, s[i]);
    }
    assert s[..|s|] == s;
  }

  // ----- Reducing sorted pairs -------------------------------------------------------

  /** No key occurs on both sides of position i. */
  predicate Boundary(s: Pairs, i: nat)
    requires i <= |s|
  {
    forall a, b :: 0 <= a < i <= b < |s| ==> s[a].key != s[b].key
  }

  function Vals(s: Pairs): seq<Str> {
    if s == [] then [] else Vals(s[..|s| - 1]) + [s[|s| - 1].value]
  }

  lemma {:induction false} RunValues(s: Pairs, k: Str)
    requires forall a :: 0 <= a < |s| ==> s[a].key == k
    ensures ValuesOf(s, k) == Vals(s)
  {
    if s != [] {
      RunValues(s[..|s| - 1], k);
    }
  }

  lemma ThreeParts(a: Pairs, b: Pairs, c: Pairs, k: Str)
    requires !HasKey(a, k) && !HasKey(c, k)
    ensures ValuesOf(a + b + c, k) == ValuesOf(b, k)
  {
    ValuesConcat(a + b, c, k);
    ValuesConcat(a, b, k);
    NoValues(a, k);
    NoValues(c, k);
  }

  lemma KeyInside(s: Pairs, i: nat, j: nat, a: nat)
    requires i <= a < j <= |s| && Boundary(s, i) && Boundary(s, j)
    ensures !HasKey(s[..i], s[a].key) && !HasKey(s[j..], s[a].key)
  {
    assert forall b :: 0 <= b < |s| - j ==> s[j..][b] == s[j + b];
  }

  /** Between two boundaries with one key lie all its values. */
  lemma GroupValues(s: Pairs, i: nat, j: nat)
    requires i < j <= |s| && Boundary(s, i) && Boundary(s, j) && forall a :: i <= a < j ==> s[a].key == s[i].key
    ensures ValuesOf(s, s[i].key) == Vals(s[i..j])
  {
    KeyInside(s, i, j, i);
    SplitAt(s, i, j);
    ThreeParts(s[..i], s[i..j], s[j..], s[i].key);
    RunValues(s[i..j], s[i].key);
  }

  lemma SplitAt(s: Pairs, i: nat, j: nat)
    requires i <= j <= |s|
    ensures s == s[..i] + s[i..j] + s[j..]
  {
  }

  /** The lines for the keys before position i. */
  ghost predicate PrintsUpTo(out: seq<Line>, s: Pairs, reduce: Reducer, i: nat)
    requires i <= |s|
  {
    && (forall line :: line in out <==> HasKey(s[..i], line.0) && line.1 == reduce(line.0, ValuesOf(s, line.0)))
    && Ascending(out)
  }

  lemma KeysUpTo(s: Pairs, i: nat, j: nat, k: Str)
    requires i < j <= |s| && forall a :: i <= a < j ==> s[a].key == s[i].key
    ensures HasKey(s[..j], k) <==> HasKey(s[..i], k) || k == s[i].key
  {
    assert s[..j][i] == s[i];
    if HasKey(s[..i], k) {
      var a :| 0 <= a < i && s[..i][a].key == k;
      assert s[..j][a].key == k;
    }
    if HasKey(s[..j], k) {
      var a :| 0 <= a < j && s[..j][a].key == k;
      assert a < i ==> s[..i][a].key == k;
    }
  }

  lemma PrintsStep(out: seq<Line>, s: Pairs, reduce: Reducer, i: nat, j: nat, line: Line)
    requires SortedByKey(s) && i < j <= |s| && !HasKey(s[..i], s[i].key) && PrintsUpTo(out, s, reduce, i)
    requires forall a :: i <= a < j ==> s[a].key == s[i].key
    requires line == (s[i].key, reduce(s[i].key, ValuesOf(s, s[i].key)))
    ensures PrintsUpTo(out + [line], s, reduce, j)
  {
    LinesStep(out, s, reduce, i, j, line);
    forall a | 0 <= a < |out| ensures Less(out[a].0, line.0) {
      assert out[a] in out;
      LaterKey(s, i, out[a].0);
    }
    AscendingMore(out, line);
  }

  lemma LinesStep(out: seq<Line>, s: Pairs, reduce: Reducer, i: nat, j: nat, line: Line)
    requires i < j <= |s| && PrintsUpTo(out, s, reduce, i)
    requires forall a :: i <= a < j ==> s[a].key == s[i].key
    requires line == (s[i].key, reduce(s[i].key, ValuesOf(s, s[i].key)))
    ensures forall x :: x in out + [line] <==> HasKey(s[..j], x.0) && x.1 == reduce(x.0, ValuesOf(s, x.0))
  {
    forall x ensures x in out + [line] <==> HasKey(s[..j], x.0) && x.1 == reduce(x.0, ValuesOf(s, x.0)) {
      KeysUpTo(s, i, j, x.0);
      assert x in out + [line] <==> x in out || x == line;
    }
  }

  lemma AscendingMore(out: seq<Line>, line: Line)
    requires Ascending(out) && forall a :: 0 <= a < |out| ==> Less(out[a].0, line.0)
    ensures Ascending(out + [line])
  {
  }

  lemma LaterKey(s: Pairs, i: nat, k: Str)
    requires SortedByKey(s) && i < |s| && HasKey(s[..i], k) && !HasKey(s[..i], s[i].key)
    ensures Less(k, s[i].key)
  {
    var a :| 0 <= a < i && s[..i][a].key == k;
    Comparable(s[a].key, s[i].key);
    assert s[..i][a].key != s[i].key;
  }

  lemma NextBoundary(s: Pairs, i: nat, j: nat)
    requires SortedByKey(s) && i < j <= |s| && Boundary(s, i) && forall a :: i <= a < j ==> s[a].key == s[i].key
    requires j == |s| || s[j].key != s[i].key
    ensures Boundary(s, j)
  {
    forall a, b | 0 <= a < j <= b < |s| ensures s[a].key != s[b].key {
      if a >= i && s[b].key == s[i].key {
        Adjacent(s, i, j, b);
      }
    }
  }

  /** The run of equal keys from i on, and its values. */
  method Gather(temp: Pairs, i: nat) returns (j: nat, values: seq<Str>)
    requires i < |temp|
    ensures i < j <= |temp| && forall a :: i <= a < j ==> temp[a].key == temp[i].key
    ensures j == |temp| || temp[j].key != temp[i].key
    ensures values == Vals(temp[i..j])
  {
    j := i + 1;
    while j < |temp| && temp[j].key == temp[i].key
      invariant i < j <= |temp| && forall a :: i <= a < j ==> temp[a].key == temp[i].key
    {
      j := j + 1;
    }
    values := [];
    for k := i to j
      invariant values == Vals(temp[i..k])
    {
      assert temp[i..k + 1][..k - i] == temp[i..k];
      values := values + [temp[k].value];
    }
  }

  /** The grouping loops of ReduceTask and of the sequential program. */
  method ReduceSorted(temp: Pairs, reduce: Reducer) returns (out: seq<Line>)
    requires SortedByKey(temp)
    ensures Prints(out, temp, reduce)
  {
    out := [];
    var i := 0;
    while i < |temp|
      invariant i <= |temp| && Boundary(temp, i) && PrintsUpTo(out, temp, reduce, i)
    {
      var j, values := Gather(temp, i);
      assert !HasKey(temp[..i], temp[i].key);
      NextBoundary(temp, i, j);
      GroupValues(temp, i, j);
      var line := (temp[i].key, reduce(temp[i].key, values));
      PrintsStep(out, temp, reduce, i, j, line);
      out := out + [line];
      i := j;
    }
    assert temp[..|temp|] == temp;
  }

  // ----- Both programs ---------------------------------------------------------------

  /** main/mrsequential.go on the map outputs of all files. */
  method Sequential(parts: seq<Pairs>, reduce: Reducer) returns (out: seq<Line>)
    requires Unordered(reduce)
    ensures Prints(out, Concat(parts), reduce)
  {
    var intermediate := ReadTempFiles(parts);
    var sorted := SortPairs(intermediate);
    out := ReduceSorted(sorted, reduce);
    forall line ensures line in out <==> IsLine(intermediate, reduce, line) {
      SameLines(sorted, intermediate, reduce, line);
    }
  }

  /** ReduceTask r, with files[m][r] written by map task m. */
  method ReduceTask(parts: seq<Pairs>, files: seq<seq<Pairs>>, r: nat, n: nat, reduce: Reducer) returns (out: seq<Line>)
    requires Unordered(reduce) && r < n && |files| == |parts|
    requires forall m :: 0 <= m < |parts| ==> Wrote(files[m], parts[m], n)
    ensures Reduced(out, Concat(parts), r, n, reduce)
  {
    var column := seq(|files|, m requires 0 <= m < |files| => files[m][r]);
    assert column == Files(parts, r, n);
    var temp := ReadTempFiles(column);
    FilesAreBucket(parts, r, n);
    var sorted := SortPairs(temp);
    out := ReduceSorted(sorted, reduce);
    forall line ensures line in out <==> IsLine(temp, reduce, line) {
      SameLines(sorted, temp, reduce, line);
    }
  }

  predicate Wrote(file: seq<Pairs>, kva: Pairs, n: nat)
    requires n > 0
  {
    |file| == n && forall r :: 0 <= r < n ==> file[r] == Bucket(kva, r, n)
  }

  method MapTasks(parts: seq<Pairs>, n: nat) returns (files: seq<seq<Pairs>>)
    requires n > 0
    ensures |files| == |parts| && forall m :: 0 <= m < |parts| ==> Wrote(files[m], parts[m], n)
  {
    files := [];
    for m := 0 to |parts|
      invariant |files| == m && forall k :: 0 <= k < m ==> Wrote(files[k], parts[k], n)
    {
      var written := CreateTempFiles(parts[m], n);
      files := files + [written];
    }
  }

  /** Reducer r has printed its bucket of the pairs. */
  ghost predicate Reduced(out: seq<Line>, all: Pairs, r: nat, n: nat, reduce: Reducer)
    requires n > 0
  {
    Prints(out, Bucket(all, r, n), reduce)
  }

  /** All map tasks, then all reduce tasks. */
  method Distributed(parts: seq<Pairs>, n: nat, reduce: Reducer) returns (outs: seq<seq<Line>>)
    requires n > 0 && Unordered(reduce)
    ensures |outs| == n && forall r {:trigger outs[r]} :: 0 <= r < n ==> Reduced(outs[r], Concat(parts), r, n, reduce)
  {
    var files := MapTasks(parts, n);
    outs := [];
    for r := 0 to n
      invariant |outs| == r && forall k {:trigger outs[k]} :: 0 <= k < r ==> Reduced(outs[k], Concat(parts), k, n, reduce)
    {
      var out := ReduceTask(parts, files, r, n, reduce);
      outs := outs + [out];
    }
  }

  ghost predicate Printed(outs: seq<seq<Line>>, r: nat, line: Line) {
    r < |outs| && line in outs[r]
  }

  /** The files mr-out-0 .. mr-out-(n-1) together hold the lines of the sequential run, each
      key in the one file its hash names and on one line there. */
  lemma DistributedIsSequential(parts: seq<Pairs>, n: nat, reduce: Reducer, outs: seq<seq<Line>>, out: seq<Line>, line: Line)
    requires n > 0 && |outs| == n
    requires forall r {:trigger outs[r]} :: 0 <= r < n ==> Reduced(outs[r], Concat(parts), r, n, reduce)
    requires Prints(out, Concat(parts), reduce)
    ensures line in out <==> exists r :: Printed(outs, r, line)
    ensures forall r :: Printed(outs, r, line) ==> r == ReducerOf(line.0, n)
  {
    var s := Concat(parts);
    forall r: nat ensures Printed(outs, r, line) <==> line in out && r == ReducerOf(line.0, n) {
      if r < n {
        LineInBucket(s, n, reduce, line, r);
        assert Reduced(outs[r], s, r, n, reduce);
      }
    }
    assert line in out ==> Printed(outs, ReducerOf(line.0, n), line);
  }

  // ----- Which reduce functions are safe ---------------------------------------------

  function Keyed(k: Str, values: seq<Str>): Pairs {
    if values == [] then [] else Keyed(k, values[..|values| - 1]) + [KeyValue(k, values[|values| - 1])]
  }

  lemma {:induction false} KeyedFacts(k: Str, values: seq<Str>)
    ensures ValuesOf(Keyed(k, values), k) == values && |Keyed(k, values)| == |values|
    ensures forall i :: 0 <= i < |values| ==> Keyed(k, values)[i].key == k
  {
    if values != [] {
      var front := values[..|values| - 1];
      KeyedFacts(k, front);
      assert Keyed(k, values)[..|front|] == Keyed(k, front);
    }
  }

  lemma {:induction false} KeyedCount(k: Str, values: seq<Str>, x: KeyValue)
    ensures multiset(Keyed(k, values))[x] == if x.key == k then multiset(values)[x.value] else 0
  {
    if values != [] {
      KeyedCount(k, values[..|values| - 1], x);
      assert values == values[..|values| - 1] + [values[|values| - 1]];
    }
  }

  /** The sort may leave equal keys in any order; no line depends on it. */
  ghost predicate StableLines(reduce: Reducer) {
    forall s, t, line ::
      SortedByKey(s) && SortedByKey(t) && multiset(s) == multiset(t) ==> (IsLine(s, reduce, line) <==> IsLine(t, reduce, line))
  }

  lemma KeyedSame(k: Str, v: seq<Str>, w: seq<Str>)
    requires multiset(v) == multiset(w)
    ensures multiset(Keyed(k, v)) == multiset(Keyed(k, w))
  {
    forall x ensures multiset(Keyed(k, v))[x] == multiset(Keyed(k, w))[x] {
      KeyedCount(k, v, x);
      KeyedCount(k, w, x);
    }
  }

  lemma KeyedSorted(k: Str, v: seq<Str>, reduce: Reducer)
    ensures SortedByKey(Keyed(k, v)) && |Keyed(k, v)| == |v|
    ensures v != [] ==> IsLine(Keyed(k, v), reduce, (k, reduce(k, v)))
    ensures forall line :: IsLine(Keyed(k, v), reduce, line) ==> line.1 == reduce(k, v)
  {
    KeyedFacts(k, v);
    LessIrreflexive(k);
    assert v != [] ==> Keyed(k, v)[0].key == k;
  }

  lemma OrderShows(reduce: Reducer, k: Str, v: seq<Str>, w: seq<Str>)
    requires StableLines(reduce) && multiset(v) == multiset(w) && v != []
    ensures reduce(k, v) == reduce(k, w)
  {
    KeyedSame(k, v, w);
    KeyedSorted(k, v, reduce);
    KeyedSorted(k, w, reduce);
    var line := (k, reduce(k, v));
    assert IsLine(Keyed(k, v), reduce, line);
    assert IsLine(Keyed(k, w), reduce, line);
  }

  /** The output is independent of the unstable sort exactly for the reduce functions that
      do not depend on the order of their values. */
  lemma StableIffUnordered(reduce: Reducer)
    ensures StableLines(reduce) <==> Unordered(reduce)
  {
    if Unordered(reduce) {
      forall s, t, line | SortedByKey(s) && SortedByKey(t) && multiset(s) == multiset(t)
        ensures IsLine(s, reduce, line) <==> IsLine(t, reduce, line)
      {
        SameLines(s, t, reduce, line);
      }
    }
    if StableLines(reduce) {
      forall k, v, w | multiset(v) == multiset(w) ensures reduce(k, v) == reduce(k, w) {
        if v != [] {
          OrderShows(reduce, k, v, w);
        } else {
          assert |w| == |multiset(w)| == 0;
        }
      }
    }
  }
}
