/**
 The loops of applyJoin and applyLeave that pick the shards to move and hand them out
 (shardctrler/server.go), as functions, and when their result is balanced.
 */
module Handout {
  import opened Rebalance

  // ----- Handing out -----------------------------------------------------------------

  /** Donors still waiting that are owned by g. */
  function Left(s: seq<nat>, donors: seq<nat>, g: nat): nat
    requires Donors(s, donors)
  {
    if donors == [] then 0 else (if s[donors[0]] == g then 1 else 0) + Left(s, donors[1..], g)
  }

  predicate Donors(s: seq<nat>, donors: seq<nat>) {
    && (forall i :: 0 <= i < |donors| ==> donors[i] < |s|)
    && (forall i, j :: 0 <= i < j < |donors| ==> donors[i] != donors[j])
  }

  /** What g holds for good: its shards without those waiting to move. */
  function Firm(s: seq<nat>, donors: seq<nat>, g: nat): int
    requires Donors(s, donors)
  {
    Count(s, g) - Left(s, donors, g)
  }

  /** Up to `need` donors go to g. */
  function Give(s: seq<nat>, donors: seq<nat>, g: nat, need: int): (r: (seq<nat>, seq<nat>))
    requires Donors(s, donors)
    ensures |r.0| == |s| && Donors(r.0, r.1)
    decreases |donors|
  {
    if need <= 0 || donors == [] then (s, donors)
    else Give(s[donors[0] := g], donors[1..], g, need - 1)
  }

  function NeedOf(needs: map<nat, int>, g: nat): int {
    if g in needs then needs[g] else 0
  }

  function Fill(s: seq<nat>, donors: seq<nat>, gids: seq<nat>, needs: map<nat, int>): (r: (seq<nat>, seq<nat>))
    requires Donors(s, donors)
    ensures |r.0| == |s| && Donors(r.0, r.1)
    decreases |gids|
  {
    if gids == [] then (s, donors)
    else
      var next := Give(s, donors, gids[0], NeedOf(needs, gids[0]));
      Fill(next.0, next.1, gids[1..], needs)
  }

  lemma {:induction false} LeftUpdate(s: seq<nat>, donors: seq<nat>, p: nat, x: nat, g: nat)
    requires Donors(s, donors) && p < |s| && p !in donors
    ensures Left(s[p := x], donors, g) == Left(s, donors, g)
  {
    if donors != [] {
      LeftUpdate(s, donors[1..], p, x, g);
    }
  }

  function Min(a: int, b: int): int {
    if a <= b then a else b
  }

  function Max(a: int, b: int): int {
    if a >= b then a else b
  }

  /** How many donors Give hands out. */
  function Given(donors: seq<nat>, need: int): nat {
    Min(Max(need, 0), |donors|)
  }

  lemma {:induction false} GiveFirm(s: seq<nat>, donors: seq<nat>, g: nat, need: int, x: nat)
    requires Donors(s, donors)
    ensures var r := Give(s, donors, g, need);
            && Firm(r.0, r.1, x) == Firm(s, donors, x) + (if x == g then Given(donors, need) else 0)
            && |r.1| == |donors| - Given(donors, need)
    decreases |donors|
  {
    if need > 0 && donors != [] {
      var p := donors[0];
      CountUpdate(s, p, g, x);
      LeftUpdate(s, donors[1..], p, g, x);
      GiveFirm(s[p := g], donors[1..], g, need - 1, x);
    }
  }

  /** Only donors change, and only to a group in need. */
  lemma {:induction false} GiveChanges(s: seq<nat>, donors: seq<nat>, g: nat, need: int, i: nat)
    requires Donors(s, donors) && i < |s|
    ensures var r := Give(s, donors, g, need);
            && (r.0[i] == s[i] || (r.0[i] == g && need > 0))
            && (i !in donors ==> r.0[i] == s[i] && i !in r.1)
            && (r.0[i] != s[i] ==> i !in r.1)
            && (i in donors ==> i in r.1 || (r.0[i] == g && need > 0))
    decreases |donors|
  {
    if need > 0 && donors != [] {
      GiveChanges(s[donors[0] := g], donors[1..], g, need - 1, i);
    }
  }

  lemma {:induction false} FillChanges(s: seq<nat>, donors: seq<nat>, gids: seq<nat>, needs: map<nat, int>, i: nat)
    requires Donors(s, donors) && i < |s|
    ensures var r := Fill(s, donors, gids, needs);
            && (r.0[i] == s[i] || (r.0[i] in gids && NeedOf(needs, r.0[i]) > 0 && i in donors))
            && (i in donors ==> i in r.1 || (r.0[i] in gids && NeedOf(needs, r.0[i]) > 0))
            && (i in r.1 ==> i in donors && r.0[i] == s[i])
    decreases |gids|
  {
    if gids != [] {
      var next := Give(s, donors, gids[0], NeedOf(needs, gids[0]));
      GiveChanges(s, donors, gids[0], NeedOf(needs, gids[0]), i);
      FillChanges(next.0, next.1, gids[1..], needs, i);
      assert forall g :: g in gids[1..] ==> g in gids;
    }
  }

  /** Each group in the list comes up to its need unless the donors run out. */
  lemma {:induction false} FillFirm(s: seq<nat>, donors: seq<nat>, gids: seq<nat>, needs: map<nat, int>, x: nat)
    requires Donors(s, donors)
    requires forall i, j :: 0 <= i < j < |gids| ==> gids[i] != gids[j]
    ensures var r, before, after := Fill(s, donors, gids, needs), Firm(s, donors, x), Firm(Fill(s, donors, gids, needs).0, Fill(s, donors, gids, needs).1, x);
            && (x !in gids ==> after == before)
            && (x in gids ==> before <= after <= before + Max(NeedOf(needs, x), 0))
            && (x in gids && r.1 != [] ==> after == before + Max(NeedOf(needs, x), 0))
            && (donors == [] ==> r.1 == [])
    decreases |gids|
  {
    if gids != [] {
      var next := Give(s, donors, gids[0], NeedOf(needs, gids[0]));
      GiveFirm(s, donors, gids[0], NeedOf(needs, gids[0]), x);
      FillFirm(next.0, next.1, gids[1..], needs, x);
      assert x in gids <==> x == gids[0] || x in gids[1..];
      assert gids[0] !in gids[1..];
    }
  }

  // ----- Joining ---------------------------------------------------------------------

  /** Unassigned, or more of its group's shards from here on than the group may keep. */
  predicate JoinDonor(keys: set<nat>, s: seq<nat>, i: nat)
    requires i < |s|
  {
    s[i] == 0 || (s[i] in keys && Count(s[i..], s[i]) > Target(|s|, keys, s[i]))
  }

  function JoinDonors(keys: set<nat>, s: seq<nat>, i: nat): (r: seq<nat>)
    requires i <= |s|
    ensures forall k :: 0 <= k < |r| ==> i <= r[k] < |s|
    ensures Donors(s, r)
    decreases |s| - i
  {
    if i == |s| then [] else (if JoinDonor(keys, s, i) then [i] else []) + JoinDonors(keys, s, i + 1)
  }

  lemma {:induction false} JoinDonorsAll(keys: set<nat>, s: seq<nat>, i: nat, k: nat)
    requires i <= |s| && k < |s|
    ensures k in JoinDonors(keys, s, i) <==> i <= k && JoinDonor(keys, s, k)
    decreases |s| - i
  {
    if i < |s| {
      JoinDonorsAll(keys, s, i + 1, k);
    }
  }

  lemma LeftCons(s: seq<nat>, i: nat, rest: seq<nat>, g: nat)
    requires i < |s| && Donors(s, [i] + rest) && Donors(s, rest)
    ensures Left(s, [i] + rest, g) == (if s[i] == g then 1 else 0) + Left(s, rest, g)
  {
    assert ([i] + rest)[1..] == rest;
  }

  /** What g has to give up of c shards. */
  function Surplus(n: nat, keys: set<nat>, g: nat, c: nat): nat {
    if g == 0 then c else if g in keys && c > Target(n, keys, g) then c - Target(n, keys, g) else 0
  }

  /** A group gives up exactly its surplus; unassigned shards all go. */
  lemma {:induction false} JoinLeft(keys: set<nat>, s: seq<nat>, i: nat, g: nat)
    requires i <= |s| && 0 !in keys
    ensures Left(s, JoinDonors(keys, s, i), g) == Surplus(|s|, keys, g, Count(s[i..], g))
    decreases |s| - i
  {
    if i < |s| {
      JoinLeft(keys, s, i + 1, g);
      assert s[i..][1..] == s[i + 1..];
      var rest := JoinDonors(keys, s, i + 1);
      if JoinDonor(keys, s, i) {
        assert JoinDonors(keys, s, i) == [i] + rest;
        LeftCons(s, i, rest, g);
      } else {
        assert JoinDonors(keys, s, i) == rest;
      }
    }
  }

  /** The shortfall of each joining group. */
  function JoinNeeds(keys: set<nat>, s: seq<nat>, joining: set<nat>): map<nat, int>
    requires joining <= keys
  {
    map g | g in joining :: Target(|s|, keys, g) - Min(Count(s, g), Target(|s|, keys, g))
  }

  predicate Lists(gids: seq<nat>, keys: set<nat>) {
    && (forall i, j :: 0 <= i < j < |gids| ==> gids[i] < gids[j])
    && (forall i :: 0 <= i < |gids| ==> gids[i] in keys)
    && (forall g :: g in keys ==> g in gids)
  }

  function JoinFill(keys: set<nat>, s: Shards, gids: seq<nat>, joining: set<nat>): (r: (seq<nat>, seq<nat>))
    requires joining <= keys
    ensures |r.0| == |s| && Donors(r.0, r.1)
  {
    Fill(s, JoinDonors(keys, s, 0), gids, JoinNeeds(keys, s, joining))
  }

  function JoinShards(keys: set<nat>, s: Shards, gids: seq<nat>, joining: set<nat>): Shards
    requires joining <= keys
  {
    JoinFill(keys, s, gids, joining).0
  }

  /** After a join a group holds its firm shards and those still waiting. */
  lemma JoinCounts(keys: set<nat>, s: Shards, gids: seq<nat>, joining: set<nat>, g: nat)
    requires joining <= keys && Lists(gids, joining) && 0 !in keys && g in keys
    ensures var r := JoinFill(keys, s, gids, joining);
            && Min(Count(s, g), Target(|s|, keys, g)) <= Firm(r.0, r.1, g) <= Target(|s|, keys, g)
            && (g !in joining ==> Firm(r.0, r.1, g) == Min(Count(s, g), Target(|s|, keys, g)))
            && (g in joining && r.1 != [] ==> Firm(r.0, r.1, g) == Target(|s|, keys, g))
  {
    JoinLeft(keys, s, 0, g);
    assert s[0..] == s;
    FillFirm(s, JoinDonors(keys, s, 0), gids, JoinNeeds(keys, s, joining), g);
  }

  /** A group that does not join never gains, and a shard never goes to a full group. */
  lemma JoinMoves(keys: set<nat>, s: Shards, gids: seq<nat>, joining: set<nat>, i: nat)
    requires joining <= keys && Lists(gids, joining) && i < |s|
    ensures var r := JoinShards(keys, s, gids, joining);
            r[i] != s[i] ==> r[i] in joining && Count(s, r[i]) < Target(|s|, keys, r[i]) && JoinDonor(keys, s, i)
  {
    FillChanges(s, JoinDonors(keys, s, 0), gids, JoinNeeds(keys, s, joining), i);
    JoinDonorsAll(keys, s, 0, i);
  }

  lemma {:induction false} CountShrinks(s: seq<nat>, r: seq<nat>, g: nat)
    requires |s| == |r| && forall i :: 0 <= i < |s| ==> r[i] == s[i] || r[i] != g
    ensures Count(r, g) <= Count(s, g)
  {
    if s != [] {
      CountShrinks(s[1..], r[1..], g);
    }
  }

  /** No unknown owner, and no group outside the join short of its new target. */
  predicate CanJoin(keys: set<nat>, s: Shards, joining: set<nat>)
    requires joining <= keys
  {
    && (forall i :: 0 <= i < |s| ==> s[i] == 0 || s[i] in keys)
    && (forall g :: g in keys && g !in joining ==> Count(s, g) >= Target(|s|, keys, g))
  }

  lemma JoinReachesTarget(keys: set<nat>, s: Shards, gids: seq<nat>, joining: set<nat>)
    requires joining <= keys && Lists(gids, joining) && 0 !in keys && keys != {} && CanJoin(keys, s, joining)
    ensures AtTarget(keys, JoinShards(keys, s, gids, joining))
  {
    var r := JoinFill(keys, s, gids, joining);
    forall g | g in keys
      ensures r.1 != [] ==> Count(r.0, g) >= Target(|s|, keys, g)
      ensures r.1 == [] ==> Count(r.0, g) <= Target(|s|, keys, g)
    {
      JoinCounts(keys, s, gids, joining, g);
    }
    if r.1 != [] {
      NoneShort(keys, r.0);
    } else {
      forall i | 0 <= i < |s| ensures r.0[i] in keys {
        FillChanges(s, JoinDonors(keys, s, 0), gids, JoinNeeds(keys, s, joining), i);
        if s[i] == 0 {
          JoinDonorsAll(keys, s, 0, i);
        }
      }
      NoneOver(keys, r.0);
    }
  }

  /** A join gives every group exactly its target if and only if no shard has an unknown
      owner and no group outside the join is short. */
  lemma JoinTargetIff(keys: set<nat>, s: Shards, gids: seq<nat>, joining: set<nat>)
    requires joining <= keys && Lists(gids, joining) && 0 !in keys && keys != {}
    ensures AtTarget(keys, JoinShards(keys, s, gids, joining)) <==> CanJoin(keys, s, joining)
  {
    var r := JoinShards(keys, s, gids, joining);
    forall i | 0 <= i < |s|
      ensures r[i] != s[i] ==> r[i] in joining && JoinDonor(keys, s, i)
    {
      JoinMoves(keys, s, gids, joining, i);
    }
    if AtTarget(keys, r) {
      forall g | g in keys && g !in joining ensures Count(s, g) >= Target(|s|, keys, g) {
        CountShrinks(s, r, g);
      }
    }
    if CanJoin(keys, s, joining) {
      JoinReachesTarget(keys, s, gids, joining);
    }
  }

  // ----- Leaving ---------------------------------------------------------------------

  function LeaveDonors(leaving: set<nat>, s: seq<nat>, i: nat): (r: seq<nat>)
    requires i <= |s|
    ensures forall k :: 0 <= k < |r| ==> i <= r[k] < |s| && s[r[k]] in leaving
    ensures Donors(s, r)
    decreases |s| - i
  {
    if i == |s| then [] else (if s[i] in leaving then [i] else []) + LeaveDonors(leaving, s, i + 1)
  }

  lemma {:induction false} LeaveDonorsAll(leaving: set<nat>, s: seq<nat>, i: nat, k: nat)
    requires i <= k < |s| && s[k] in leaving
    ensures k in LeaveDonors(leaving, s, i)
    decreases |s| - i
  {
    if i < k {
      LeaveDonorsAll(leaving, s, i + 1, k);
    }
  }

  lemma {:induction false} LeftNone(s: seq<nat>, donors: seq<nat>, g: nat)
    requires Donors(s, donors) && forall i :: 0 <= i < |donors| ==> s[donors[i]] != g
    ensures Left(s, donors, g) == 0
  {
    if donors != [] {
      LeftNone(s, donors[1..], g);
    }
  }

  function LeaveNeeds(keys: set<nat>, s: seq<nat>): map<nat, int> {
    map g | g in keys :: Target(|s|, keys, g) - Count(s, g)
  }

  function LeaveFill(keys: set<nat>, s: Shards, gids: seq<nat>, leaving: set<nat>): (r: (seq<nat>, seq<nat>))
    ensures |r.0| == |s| && Donors(r.0, r.1)
  {
    Fill(s, LeaveDonors(leaving, s, 0), gids, LeaveNeeds(keys, s))
  }

  function LeaveShards(keys: set<nat>, s: Shards, gids: seq<nat>, leaving: set<nat>): Shards {
    LeaveFill(keys, s, gids, leaving).0
  }

  /** Every shard belongs to a group that leaves or stays, and none that stays is over. */
  predicate CanLeave(keys: set<nat>, s: Shards, leaving: set<nat>) {
    && (forall i :: 0 <= i < |s| ==> s[i] in leaving || s[i] in keys)
    && (forall g :: g in keys ==> Count(s, g) <= Target(|s|, keys, g))
  }

  lemma LeaveCounts(keys: set<nat>, s: Shards, gids: seq<nat>, leaving: set<nat>, g: nat)
    requires Lists(gids, keys) && keys !! leaving && g in keys
    ensures var r := LeaveFill(keys, s, gids, leaving);
            && Count(s, g) <= Firm(r.0, r.1, g) <= Max(Count(s, g), Target(|s|, keys, g))
            && (r.1 != [] ==> Firm(r.0, r.1, g) == Max(Count(s, g), Target(|s|, keys, g)))
  {
    LeftNone(s, LeaveDonors(leaving, s, 0), g);
    FillFirm(s, LeaveDonors(leaving, s, 0), gids, LeaveNeeds(keys, s), g);
  }

  /** Only shards of leaving groups move, to groups that were short. */
  lemma LeaveMoves(keys: set<nat>, s: Shards, gids: seq<nat>, leaving: set<nat>, i: nat)
    requires Lists(gids, keys) && i < |s|
    ensures var r := LeaveShards(keys, s, gids, leaving);
            r[i] != s[i] ==> r[i] in keys && Count(s, r[i]) < Target(|s|, keys, r[i]) && s[i] in leaving
  {
    FillChanges(s, LeaveDonors(leaving, s, 0), gids, LeaveNeeds(keys, s), i);
  }

  lemma LeaveReachesTarget(keys: set<nat>, s: Shards, gids: seq<nat>, leaving: set<nat>)
    requires Lists(gids, keys) && keys !! leaving && keys != {} && CanLeave(keys, s, leaving)
    ensures AtTarget(keys, LeaveShards(keys, s, gids, leaving))
  {
    var r := LeaveFill(keys, s, gids, leaving);
    forall g | g in keys
      ensures r.1 != [] ==> Count(r.0, g) >= Target(|s|, keys, g)
      ensures r.1 == [] ==> Count(r.0, g) <= Target(|s|, keys, g)
    {
      LeaveCounts(keys, s, gids, leaving, g);
    }
    if r.1 != [] {
      NoneShort(keys, r.0);
    } else {
      forall i | 0 <= i < |s| ensures r.0[i] in keys {
        FillChanges(s, LeaveDonors(leaving, s, 0), gids, LeaveNeeds(keys, s), i);
        if s[i] in leaving {
          LeaveDonorsAll(leaving, s, 0, i);
        }
      }
      NoneOver(keys, r.0);
    }
  }

  lemma {:induction false} CountGrows(s: seq<nat>, r: seq<nat>, g: nat)
    requires |s| == |r| && forall i :: 0 <= i < |s| ==> r[i] == s[i] || s[i] != g
    ensures Count(r, g) >= Count(s, g)
  {
    if s != [] {
      CountGrows(s[1..], r[1..], g);
    }
  }

  /** A leave gives every remaining group exactly its target if and only if every shard
      belongs to a leaving or remaining group and no remaining group is over. */
  lemma LeaveTargetIff(keys: set<nat>, s: Shards, gids: seq<nat>, leaving: set<nat>)
    requires Lists(gids, keys) && keys !! leaving && keys != {}
    ensures AtTarget(keys, LeaveShards(keys, s, gids, leaving)) <==> CanLeave(keys, s, leaving)
  {
    var r := LeaveShards(keys, s, gids, leaving);
    forall i | 0 <= i < |s| ensures r[i] != s[i] ==> r[i] in keys && s[i] in leaving {
      LeaveMoves(keys, s, gids, leaving, i);
    }
    if AtTarget(keys, r) {
      forall g | g in keys ensures Count(s, g) <= Target(|s|, keys, g) {
        CountGrows(s, r, g);
      }
    }
    if CanLeave(keys, s, leaving) {
      LeaveReachesTarget(keys, s, gids, leaving);
    }
  }
}
