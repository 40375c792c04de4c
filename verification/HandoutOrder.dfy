/**
 Which shards a join or a leave moves, and where each goes: together with the balance this
 pins down the new assignment.
 */
module HandoutOrder {
  import opened Rebalance
  import opened Handout

  predicate Increasing(a: seq<nat>) {
    forall i, j :: 0 <= i < j < |a| ==> a[i] < a[j]
  }

  lemma {:induction false} GiveSuffix(s: seq<nat>, donors: seq<nat>, g: nat, need: int)
    requires Donors(s, donors)
    ensures Give(s, donors, g, need).1 == donors[Given(donors, need)..]
    decreases |donors|
  {
    if need > 0 && donors != [] {
      GiveSuffix(s[donors[0] := g], donors[1..], g, need - 1);
      assert donors[1..][Given(donors, need) - 1..] == donors[Given(donors, need)..];
    }
  }

  lemma {:induction false} GiveValue(s: seq<nat>, donors: seq<nat>, g: nat, need: int, a: nat)
    requires Donors(s, donors) && a < Given(donors, need)
    ensures Give(s, donors, g, need).0[donors[a]] == g
    decreases |donors|
  {
    var s', rest := s[donors[0] := g], donors[1..];
    if a > 0 {
      GiveValue(s', rest, g, need - 1, a - 1);
    } else {
      GiveChanges(s', rest, g, need - 1, donors[0]);
    }
  }

  /** The first donors go to g, as many as it needs. */
  lemma GiveFirst(s: seq<nat>, donors: seq<nat>, g: nat, need: int, a: nat)
    requires Donors(s, donors) && a < |donors|
    ensures var r := Give(s, donors, g, need);
            && r.1 == donors[Given(donors, need)..]
            && (a < Given(donors, need) ==> r.0[donors[a]] == g)
  {
    GiveSuffix(s, donors, g, need);
    if a < Given(donors, need) {
      GiveValue(s, donors, g, need, a);
    }
  }

  /** What was given to the lowest group stays there, and the rest goes to higher ones. */
  lemma FillHigher(s: seq<nat>, donors: seq<nat>, gids: seq<nat>, needs: map<nat, int>, g: nat, p: nat, q: nat)
    requires Donors(s, donors) && p < |s| && q < |s| && p !in donors && s[p] == g && (q !in donors ==> s[q] == g)
    requires forall k :: 0 <= k < |gids| ==> g < gids[k]
    ensures var r := Fill(s, donors, gids, needs); p !in r.1 && r.0[p] == g && (q !in r.1 ==> g <= r.0[q])
  {
    FillChanges(s, donors, gids, needs, p);
    FillChanges(s, donors, gids, needs, q);
  }

  lemma InSuffix(s: seq<nat>, donors: seq<nat>, m: nat, a: nat)
    requires Donors(s, donors) && a < |donors| && m <= |donors|
    ensures donors[a] in donors[m..] <==> a >= m
  {
    if a >= m {
      assert donors[m..][a - m] == donors[a];
    }
  }

  /** One group's turn: both donors wait, or the lower one is given and stays. */
  lemma Turn(s: seq<nat>, donors: seq<nat>, g: nat, need: int, a: nat, b: nat)
    requires Donors(s, donors) && a < b < |donors|
    ensures var next, m := Give(s, donors, g, need), Given(donors, need);
            && next.1 == donors[m..] && m <= |donors|
            && (donors[a] in next.1 <==> a >= m) && (donors[b] in next.1 <==> b >= m)
            && (a < m ==> next.0[donors[a]] == g) && (b < m ==> next.0[donors[b]] == g)
  {
    GiveFirst(s, donors, g, need, a);
    GiveFirst(s, donors, g, need, b);
    InSuffix(s, donors, Given(donors, need), a);
    InSuffix(s, donors, Given(donors, need), b);
  }

  /** Of two shards the lower is given no later, and to no higher group. */
  predicate Sooner(r: (seq<nat>, seq<nat>), p: nat, q: nat)
    requires p < |r.0| && q < |r.0|
  {
    q !in r.1 ==> p !in r.1 && r.0[p] <= r.0[q]
  }

  lemma TailIncreasing(gids: seq<nat>)
    requires Increasing(gids) && gids != []
    ensures Increasing(gids[1..]) && forall k :: 0 <= k < |gids[1..]| ==> gids[0] < gids[1..][k]
  {
  }

  lemma FillStep(s: seq<nat>, donors: seq<nat>, gids: seq<nat>, needs: map<nat, int>)
    requires Donors(s, donors) && gids != []
    ensures var next := Give(s, donors, gids[0], NeedOf(needs, gids[0]));
            Fill(s, donors, gids, needs) == Fill(next.0, next.1, gids[1..], needs)
  {
  }

  lemma FirstInOrder(s: seq<nat>, donors: seq<nat>, gids: seq<nat>, needs: map<nat, int>, a: nat, b: nat)
    requires Donors(s, donors) && Increasing(gids) && gids != [] && a < b < |donors|
    requires a < Given(donors, NeedOf(needs, gids[0]))
    ensures Sooner(Fill(s, donors, gids, needs), donors[a], donors[b])
  {
    var g, need := gids[0], NeedOf(needs, gids[0]);
    var next := Give(s, donors, g, need);
    Turn(s, donors, g, need, a, b);
    TailIncreasing(gids);
    FillHigher(next.0, next.1, gids[1..], needs, g, donors[a], donors[b]);
    FillStep(s, donors, gids, needs);
  }

  /** The lowest group's turn leaves both donors waiting. */
  lemma NextTurn(s: seq<nat>, donors: seq<nat>, gids: seq<nat>, needs: map<nat, int>, a: nat, b: nat)
      returns (s': seq<nat>, rest: seq<nat>, m: nat)
    requires Donors(s, donors) && gids != [] && a < b < |donors| && a >= Given(donors, NeedOf(needs, gids[0]))
    ensures Donors(s', rest) && |s'| == |s| && m <= a && b - m < |rest| && rest[a - m] == donors[a] && rest[b - m] == donors[b]
    ensures Fill(s, donors, gids, needs) == Fill(s', rest, gids[1..], needs)
  {
    var g, need := gids[0], NeedOf(needs, gids[0]);
    m := Given(donors, need);
    GiveFirst(s, donors, g, need, a);
    FillStep(s, donors, gids, needs);
    s', rest := Give(s, donors, g, need).0, Give(s, donors, g, need).1;
  }

  /** Lower donors go to lower groups, and those left over are the last. */
  lemma {:induction false} FillInOrder(s: seq<nat>, donors: seq<nat>, gids: seq<nat>, needs: map<nat, int>, a: nat, b: nat)
    requires Donors(s, donors) && Increasing(gids) && a < b < |donors|
    ensures Sooner(Fill(s, donors, gids, needs), donors[a], donors[b])
    decreases |gids|
  {
    if gids == [] {
      assert donors[b] in donors;
    } else if a < Given(donors, NeedOf(needs, gids[0])) {
      FirstInOrder(s, donors, gids, needs, a, b);
    } else {
      var s', rest, m := NextTurn(s, donors, gids, needs, a, b);
      TailIncreasing(gids);
      FillInOrder(s', rest, gids[1..], needs, a - m, b - m);
    }
  }

  lemma Positions(donors: seq<nat>, i: nat, j: nat) returns (a: nat, b: nat)
    requires Increasing(donors) && i in donors && j in donors && i < j
    ensures a < b < |donors| && donors[a] == i && donors[b] == j
  {
    a :| 0 <= a < |donors| && donors[a] == i;
    b :| 0 <= b < |donors| && donors[b] == j;
  }

  // ----- Joining ---------------------------------------------------------------------

  lemma {:induction false} JoinDonorsUp(keys: set<nat>, s: seq<nat>, i: nat)
    requires i <= |s|
    ensures Increasing(JoinDonors(keys, s, i))
    decreases |s| - i
  {
    if i < |s| {
      JoinDonorsUp(keys, s, i + 1);
    }
  }

  lemma {:induction false} LeftAtLeast(s: seq<nat>, donors: seq<nat>, d: nat)
    requires Donors(s, donors) && d in donors
    ensures Left(s, donors, s[d]) >= 1
  {
    if donors[0] != d {
      assert d in donors[1..] by {
        var k :| 0 <= k < |donors| && donors[k] == d;
        assert donors[1..][k - 1] == d;
      }
      LeftAtLeast(s, donors[1..], d);
    }
  }

  lemma {:induction false} CountRest(s: seq<nat>, i: nat, g: nat)
    requires i <= |s|
    ensures Count(s[i..], g) <= Count(s, g)
  {
    if i > 0 {
      assert s[1..][i - 1..] == s[i..];
      CountRest(s[1..], i - 1, g);
    } else {
      assert s[0..] == s;
    }
  }

  /** If the join can balance, it hands out every donor. */
  lemma JoinAllGiven(keys: set<nat>, s: Shards, gids: seq<nat>, joining: set<nat>, d: nat)
    requires joining <= keys && Lists(gids, joining) && 0 !in keys && keys != {} && CanJoin(keys, s, joining)
    ensures d !in JoinFill(keys, s, gids, joining).1
  {
    var r := JoinFill(keys, s, gids, joining);
    JoinReachesTarget(keys, s, gids, joining);
    if d in r.1 {
      FillChanges(s, JoinDonors(keys, s, 0), gids, JoinNeeds(keys, s, joining), d);
      JoinDonorsAll(keys, s, 0, d);
      var g := r.0[d];
      CountRest(s, d, g);
      JoinCounts(keys, s, gids, joining, g);
      LeftAtLeast(r.0, r.1, d);
    }
  }

  /** The shard is without a group, or its group has more from here on than it may keep. */
  predicate GivesUp(keys: set<nat>, s: Shards, i: nat)
    requires i < |s|
  {
    s[i] == 0 || (s[i] in keys && Count(s[i..], s[i]) > Target(|s|, keys, s[i]))
  }

  /** Exactly the unassigned shards and the first surplus ones of each group move, and lower
      ones to lower groups. */
  lemma JoinExactly(keys: set<nat>, s: Shards, gids: seq<nat>, joining: set<nat>, i: nat, j: nat)
    requires joining <= keys && Lists(gids, joining) && 0 !in keys && keys != {} && CanJoin(keys, s, joining) && i < j < |s|
    ensures var r := JoinShards(keys, s, gids, joining);
            && (r[i] != s[i] <==> GivesUp(keys, s, i)) && (r[j] != s[j] <==> GivesUp(keys, s, j))
            && (r[i] != s[i] && r[j] != s[j] ==> r[i] <= r[j])
  {
    JoinMovesIff(keys, s, gids, joining, i);
    JoinMovesIff(keys, s, gids, joining, j);
    if GivesUp(keys, s, i) && GivesUp(keys, s, j) {
      var donors := JoinDonors(keys, s, 0);
      JoinDonorsUp(keys, s, 0);
      JoinDonorsAll(keys, s, 0, i);
      JoinDonorsAll(keys, s, 0, j);
      var a, b := Positions(donors, i, j);
      FillInOrder(s, donors, gids, JoinNeeds(keys, s, joining), a, b);
      JoinAllGiven(keys, s, gids, joining, j);
    }
  }

  lemma JoinMovesIff(keys: set<nat>, s: Shards, gids: seq<nat>, joining: set<nat>, i: nat)
    requires joining <= keys && Lists(gids, joining) && 0 !in keys && keys != {} && CanJoin(keys, s, joining) && i < |s|
    ensures JoinShards(keys, s, gids, joining)[i] != s[i] <==> GivesUp(keys, s, i)
  {
    JoinMoves(keys, s, gids, joining, i);
    JoinDonorsAll(keys, s, 0, i);
    if GivesUp(keys, s, i) {
      FillChanges(s, JoinDonors(keys, s, 0), gids, JoinNeeds(keys, s, joining), i);
      JoinAllGiven(keys, s, gids, joining, i);
      CountRest(s, i, s[i]);
    }
  }

  // ----- Leaving ---------------------------------------------------------------------

  lemma {:induction false} LeaveDonorsUp(leaving: set<nat>, s: seq<nat>, i: nat)
    requires i <= |s|
    ensures Increasing(LeaveDonors(leaving, s, i))
    decreases |s| - i
  {
    if i < |s| {
      LeaveDonorsUp(leaving, s, i + 1);
    }
  }

  /** If the leave can balance, exactly the shards of leaving groups move, and lower ones to
      lower groups. */
  lemma LeaveExactly(keys: set<nat>, s: Shards, gids: seq<nat>, leaving: set<nat>, i: nat, j: nat)
    requires Lists(gids, keys) && keys !! leaving && keys != {} && CanLeave(keys, s, leaving) && i < j < |s|
    ensures var r := LeaveShards(keys, s, gids, leaving);
            && (r[i] != s[i] <==> s[i] in leaving) && (r[j] != s[j] <==> s[j] in leaving)
            && (s[i] in leaving && s[j] in leaving ==> r[i] <= r[j])
  {
    var r := LeaveFill(keys, s, gids, leaving);
    LeaveReachesTarget(keys, s, gids, leaving);
    LeaveMoves(keys, s, gids, leaving, i);
    LeaveMoves(keys, s, gids, leaving, j);
    if s[i] in leaving && s[j] in leaving {
      var donors := LeaveDonors(leaving, s, 0);
      LeaveDonorsUp(leaving, s, 0);
      LeaveDonorsAll(leaving, s, 0, i);
      LeaveDonorsAll(leaving, s, 0, j);
      var a, b := Positions(donors, i, j);
      FillInOrder(s, donors, gids, LeaveNeeds(keys, s), a, b);
      FillChanges(s, donors, gids, LeaveNeeds(keys, s), j);
    }
  }
}
