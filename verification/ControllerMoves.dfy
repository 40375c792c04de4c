/**
 When a join moves as few shards as any even assignment could.  The controller gives the
 remainder to the groups with the lowest gids, old or new.  If a new group takes one of the
 extra shards while an old group gives up one that it could have kept, one move is wasted;
 otherwise none is.
 */
module ControllerMoves {
  import opened Rebalance
  import opened Handout
  import opened ShardController
  import opened ControllerHistory

  /** Every shard has a group, and shares differ by at most one. */
  predicate Even(keys: set<nat>, s: Shards) {
    && (forall i :: 0 <= i < |s| ==> s[i] in keys)
    && (forall g, h :: g in keys && h in keys ==> Count(s, g) <= Count(s, h) + 1)
  }

  // ----- Shares of an even assignment ------------------------------------------------

  lemma {:induction false} CountInBounds(s: seq<nat>, part: set<nat>, lo: nat, hi: nat)
    requires forall g :: g in part ==> lo <= Count(s, g) <= hi
    ensures lo * |part| <= CountIn(s, part) <= hi * |part|
    decreases |part|
  {
    if part == {} {
      NoneIn(s);
    } else {
      var g := Least(part);
      CountInBounds(s, part - {g}, lo, hi);
      CountInSplit(s, part, g);
      assert lo * |part| == lo * (|part| - 1) + lo && hi * |part| == hi * (|part| - 1) + hi;
    }
  }

  lemma LowShare(n: nat, m: nat, c: nat, rest: nat)
    requires m > 0 && n == c + rest && rest <= (c + 1) * (m - 1)
    ensures c >= n / m
  {
    var q := n / m;
    assert n == q * m + n % m;
    assert (c + 1) * m == (c + 1) * (m - 1) + c + 1;
    if c < q {
      MulGrows(c + 1, q, m);
    }
  }

  lemma HighShare(n: nat, m: nat, c: nat, rest: nat)
    requires m > 0 && n == c + rest && c > 0 && rest >= (c - 1) * (m - 1)
    ensures c <= n / m + 1
  {
    var q := n / m;
    assert n == q * m + n % m;
    assert (c - 1) * m == (c - 1) * (m - 1) + c - 1;
    assert (q + 1) * m == q * m + m;
    if c > q + 1 {
      MulGrows(q + 1, c - 1, m);
    }
  }

  /** What the other groups of an even assignment hold. */
  lemma OthersHold(keys: set<nat>, s: Shards, g: nat, c: nat, m: nat)
    requires Even(keys, s) && g in keys && c == Count(s, g) && m == |keys|
    ensures m > 0 && |s| == c + CountIn(s, keys - {g})
    ensures CountIn(s, keys - {g}) <= (c + 1) * (m - 1)
    ensures c > 0 ==> CountIn(s, keys - {g}) >= (c - 1) * (m - 1)
  {
    var lo := if c == 0 then 0 else c - 1;
    forall h | h in keys - {g} ensures lo <= Count(s, h) <= c + 1 {
    }
    CountInBounds(s, keys - {g}, lo, c + 1);
    CountInSplit(s, keys, g);
    CountInBound(s, keys);
    assert |keys - {g}| == m - 1;
  }

  /** The shares of an even assignment are the quotient or one more. */
  lemma EvenShare(keys: set<nat>, s: Shards, g: nat)
    requires Even(keys, s) && g in keys
    ensures |keys| > 0 && |s| / |keys| <= Count(s, g) <= |s| / |keys| + 1
  {
    var c := Count(s, g);
    OthersHold(keys, s, g, c, |keys|);
    LowShare(|s|, |keys|, c, CountIn(s, keys - {g}));
    if c > 0 {
      HighShare(|s|, |keys|, c, CountIn(s, keys - {g}));
    }
  }

  // ----- What stays in place ---------------------------------------------------------

  /** Shards that keep their group, one of `keys`. */
  function KeptIn(s: seq<nat>, r: seq<nat>, keys: set<nat>): nat
    requires |s| == |r|
  {
    if s == [] then 0 else (if s[0] == r[0] && s[0] in keys then 1 else 0) + KeptIn(s[1..], r[1..], keys)
  }

  lemma {:induction false} KeptOrMoved(s: seq<nat>, r: seq<nat>, keys: set<nat>)
    requires |s| == |r| && forall i :: 0 <= i < |s| && r[i] == s[i] ==> r[i] in keys
    ensures Moved(s, r) + KeptIn(s, r, keys) == |s|
  {
    if s != [] {
      assert r[0] == s[0] ==> r[0] in keys;
      forall i | 0 <= i < |s[1..]| && r[1..][i] == s[1..][i] ensures r[1..][i] in keys {
        assert r[i + 1] == s[i + 1];
      }
      KeptOrMoved(s[1..], r[1..], keys);
    }
  }

  lemma {:induction false} KeptSplit(s: seq<nat>, r: seq<nat>, keys: set<nat>, g: nat)
    requires |s| == |r| && g in keys
    ensures KeptIn(s, r, keys) == KeptIn(s, r, {g}) + KeptIn(s, r, keys - {g})
  {
    if s != [] {
      KeptSplit(s[1..], r[1..], keys, g);
    }
  }

  lemma {:induction false} KeptOne(s: seq<nat>, r: seq<nat>, g: nat)
    requires |s| == |r|
    ensures KeptIn(s, r, {g}) <= Count(s, g) && KeptIn(s, r, {g}) <= Count(r, g)
  {
    if s != [] {
      KeptOne(s[1..], r[1..], g);
    }
  }

  lemma {:induction false} KeptNone(s: seq<nat>, r: seq<nat>)
    requires |s| == |r|
    ensures KeptIn(s, r, {}) == 0
  {
    if s != [] {
      KeptNone(s[1..], r[1..]);
    }
  }

  /** If no group can keep more than its target, all together cannot. */
  lemma {:induction false} KeptBound(s: seq<nat>, r: seq<nat>, more: set<nat>, part: set<nat>)
    requires |s| == |r| && part <= more
    requires forall g :: g in part ==> Count(s, g) <= Target(|s|, more, g) || Count(r, g) <= Target(|s|, more, g)
    ensures KeptIn(s, r, part) <= SumTargets(|s|, more, part)
    decreases |part|
  {
    if part == {} {
      KeptNone(s, r);
    } else {
      var g := Least(part);
      KeptBound(s, r, more, part - {g});
      KeptSplit(s, r, part, g);
      KeptOne(s, r, g);
    }
  }

  lemma {:induction false} MovedUpdate(s: seq<nat>, r: seq<nat>, i: nat, x: nat)
    requires |s| == |r| && i < |r|
    ensures Moved(s, r[i := x]) == Moved(s, r) - (if r[i] != s[i] then 1 else 0) + if x != s[i] then 1 else 0
  {
    if i == 0 {
      assert r[i := x][1..] == r[1..];
    } else {
      assert r[i := x][1..] == r[1..][i - 1 := x];
      MovedUpdate(s[1..], r[1..], i - 1, x);
    }
  }

  lemma {:induction false} FindDropped(s: seq<nat>, r: seq<nat>, g: nat) returns (i: nat)
    requires |s| == |r| && Count(r, g) < Count(s, g)
    ensures i < |s| && s[i] == g && r[i] != g
  {
    if s[0] == g && r[0] != g {
      i := 0;
    } else {
      i := FindDropped(s[1..], r[1..], g);
      i := i + 1;
    }
  }

  lemma {:induction false} FindHeld(r: seq<nat>, g: nat) returns (i: nat)
    requires Count(r, g) > 0
    ensures i < |r| && r[i] == g
  {
    if r[0] == g {
      i := 0;
    } else {
      i := FindHeld(r[1..], g);
      i := i + 1;
    }
  }

  // ----- The condition ---------------------------------------------------------------

  /** No extra shard goes to a new group, or every old group that holds more than the
      smaller share keeps one more. */
  predicate NoWaste(old_: set<nat>, more: set<nat>, s: Shards)
    requires old_ <= more
  {
    || (forall g :: g in more - old_ ==> Target(|s|, more, g) == |s| / |more|)
    || (forall g :: g in old_ && Count(s, g) > |s| / |more| ==> Target(|s|, more, g) > |s| / |more|)
  }

  /** s is balanced over the old groups, r over all, and r moves shards only to new groups. */
  predicate Step(old_: set<nat>, more: set<nat>, s: Shards, r: Shards) {
    && |s| == |r| && old_ <= more && more != {} && 0 !in more && AtTarget(old_, s) && AtTarget(more, r)
    && forall i :: 0 <= i < |r| && r[i] in old_ ==> r[i] == s[i]
  }

  lemma {:induction false} CountInLess(r: seq<nat>, other: seq<nat>, part: set<nat>)
    requires forall g :: g in part ==> Count(r, g) <= Count(other, g)
    ensures CountIn(r, part) <= CountIn(other, part)
    decreases |part|
  {
    if part == {} {
      NoneIn(r);
    } else {
      var g := Least(part);
      CountInLess(r, other, part - {g});
      CountInSplit(r, part, g);
      CountInSplit(other, part, g);
    }
  }

  lemma MovesToFresh(old_: set<nat>, more: set<nat>, s: Shards, r: Shards)
    requires Step(old_, more, s, r)
    ensures Moved(s, r) <= CountIn(r, more - old_)
  {
    MovedAtMost(s, r, old_);
    SplitIn(r, more, old_);
    CountInBound(r, more);
  }

  lemma MovesAtLeastFresh(old_: set<nat>, more: set<nat>, s: Shards, r: Shards, other: Shards)
    requires Step(old_, more, s, r) && Even(more, other) && |other| == |s|
    ensures Moved(s, other) >= CountIn(other, more - old_)
  {
    MovedAtLeast(s, other, old_);
    SplitIn(other, more, old_);
    CountInBound(other, more);
  }

  lemma ExtrasStay(old_: set<nat>, more: set<nat>, s: Shards, r: Shards, other: Shards)
    requires Step(old_, more, s, r) && Even(more, other) && |other| == |s|
    requires forall g :: g in more - old_ ==> Target(|s|, more, g) == |s| / |more|
    ensures Moved(s, r) <= Moved(s, other)
  {
    MovesToFresh(old_, more, s, r);
    MovesAtLeastFresh(old_, more, s, r, other);
    forall g | g in more - old_ ensures Count(r, g) <= Count(other, g) {
      EvenShare(more, other, g);
    }
    CountInLess(r, other, more - old_);
  }

  lemma {:induction false} SplitIn(s: seq<nat>, keys: set<nat>, part: set<nat>)
    requires part <= keys
    ensures CountIn(s, keys) == CountIn(s, part) + CountIn(s, keys - part)
  {
    if s != [] {
      SplitIn(s[1..], keys, part);
    }
  }

  lemma HoldersKeep(old_: set<nat>, more: set<nat>, s: Shards, r: Shards, other: Shards)
    requires Step(old_, more, s, r) && Even(more, other) && |other| == |s|
    requires forall g :: g in old_ && Count(s, g) > |s| / |more| ==> Target(|s|, more, g) > |s| / |more|
    ensures Moved(s, r) <= Moved(s, other)
  {
    forall g | g in old_ ensures Count(s, g) <= Target(|s|, more, g) || Count(other, g) <= Target(|s|, more, g) {
      EvenShare(more, other, g);
    }
    KeptBound(s, other, more, old_);
    KeptOrMoved(s, other, old_);
    MovedAtMost(s, r, old_);
    CountInTarget(more, old_, r);
  }

  lemma SharesEven(more: set<nat>, s: Shards, q: nat)
    requires (forall i :: 0 <= i < |s| ==> s[i] in more) && forall g :: g in more ==> q <= Count(s, g) <= q + 1
    ensures Even(more, s)
  {
  }

  /** One extra shard of a new group a goes back to the old group h. */
  lemma WasteSaved(old_: set<nat>, more: set<nat>, s: Shards, r: Shards, a: nat, h: nat) returns (other: Shards)
    requires Step(old_, more, s, r) && a in more - old_ && h in old_
    requires Target(|s|, more, a) == |s| / |more| + 1 && Target(|s|, more, h) == |s| / |more| < Count(s, h)
    ensures |other| == |s| && Even(more, other) && Moved(s, other) < Moved(s, r)
  {
    var q := |s| / |more|;
    var i := FindDropped(s, r, h);
    var j := FindHeld(r, a);
    var mid := r[j := r[i]];
    other := mid[i := h];
    MovedUpdate(s, r, j, r[i]);
    MovedUpdate(s, mid, i, h);
    forall g | g in more ensures q <= Count(other, g) <= q + 1 {
      CountUpdate(r, j, r[i], g);
      CountUpdate(mid, i, h, g);
    }
    SharesEven(more, other, q);
  }

  lemma LeastIff(old_: set<nat>, more: set<nat>, s: Shards, r: Shards)
    requires Step(old_, more, s, r)
    ensures NoWaste(old_, more, s) <==>
            forall other :: |other| == |s| && Even(more, other) ==> Moved(s, r) <= Moved(s, other)
  {
    if NoWaste(old_, more, s) {
      forall other | |other| == |s| && Even(more, other) ensures Moved(s, r) <= Moved(s, other) {
        if forall g :: g in more - old_ ==> Target(|s|, more, g) == |s| / |more| {
          ExtrasStay(old_, more, s, r, other);
        } else {
          HoldersKeep(old_, more, s, r, other);
        }
      }
    } else {
      var a :| a in more - old_ && Target(|s|, more, a) != |s| / |more|;
      var h :| h in old_ && Count(s, h) > |s| / |more| && Target(|s|, more, h) <= |s| / |more|;
      var other := WasteSaved(old_, more, s, r, a, h);
    }
  }

  /** A join from balance moves no more shards than any even assignment, exactly when it
      wastes no extra shard on a new group. */
  lemma JoinLeastIff(prev: Config, servers: map<nat, Servers>)
    requires Balanced(prev) && 0 !in servers && Joined(prev, servers).Keys != {}
    ensures NoWaste(prev.groups.Keys, Joined(prev, servers).Keys, prev.shards) <==>
            forall other :: |other| == |prev.shards| && Even(Joined(prev, servers).Keys, other) ==>
              Moved(prev.shards, JoinConfig(prev, servers).shards) <= Moved(prev.shards, other)
  {
    var r := JoinConfig(prev, servers).shards;
    JoinKeepsBalance(prev, servers);
    forall i | 0 <= i < |prev.shards| ensures |r| == |prev.shards| && (r[i] in prev.groups.Keys ==> r[i] == prev.shards[i]) {
      OldGroupsKeep(prev, servers, i);
    }
    LeastIff(prev.groups.Keys, Joined(prev, servers).Keys, prev.shards, r);
  }
}
