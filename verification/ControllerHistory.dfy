/**
 What holds along histories of the shard controller: balance and least movement over
 joins and leaves, when balance survives a move, and why the config history never takes a
 shard out of service while there are groups.
 */
module ControllerHistory {
  import opened Rebalance
  import opened Handout
  import opened HandoutOrder
  import opened ShardController
  import ShardGroup
  import ShardSystem

  predicate Balanced(c: Config) {
    0 !in c.groups && AtTarget(c.groups.Keys, c.shards)
  }

  // ----- One step --------------------------------------------------------------------

  /** A join balances exactly the configurations in which no shard has an unknown owner and
      no group outside the join is short of its new target. */
  lemma JoinBalancesIff(prev: Config, servers: map<nat, Servers>)
    requires 0 !in prev.groups && 0 !in servers && Joined(prev, servers).Keys != {}
    ensures Balanced(JoinConfig(prev, servers)) <==> CanJoin(Joined(prev, servers).Keys, prev.shards, servers.Keys)
  {
    SortedLists(servers.Keys);
    JoinTargetIff(Joined(prev, servers).Keys, prev.shards, Sorted(servers.Keys), servers.Keys);
  }

  lemma LeaveBalancesIff(prev: Config, gids: seq<nat>)
    requires 0 !in prev.groups && Remaining(prev, gids).Keys != {}
    ensures Balanced(LeaveConfig(prev, gids)) <==> CanLeave(Remaining(prev, gids).Keys, prev.shards, SetOf(gids))
  {
    SortedLists(Remaining(prev, gids).Keys);
    LeaveTargetIff(Remaining(prev, gids).Keys, prev.shards, Sorted(Remaining(prev, gids).Keys), SetOf(gids));
  }

  lemma JoinKeepsBalance(prev: Config, servers: map<nat, Servers>)
    requires Balanced(prev) && 0 !in servers
    ensures Balanced(JoinConfig(prev, servers))
  {
    var keys, more := prev.groups.Keys, Joined(prev, servers).Keys;
    assert keys <= more && more == keys + servers.Keys;
    if more != {} {
      forall g | g in more && g !in servers.Keys ensures Count(prev.shards, g) >= Target(|prev.shards|, more, g) {
        TargetShrinks(|prev.shards|, keys, more, g);
      }
      JoinBalancesIff(prev, servers);
    }
  }

  lemma LeaveKeepsBalance(prev: Config, gids: seq<nat>)
    requires Balanced(prev)
    ensures Balanced(LeaveConfig(prev, gids))
  {
    var keys, fewer := prev.groups.Keys, Remaining(prev, gids).Keys;
    assert fewer == keys - SetOf(gids);
    if fewer != {} {
      forall g | g in fewer ensures Count(prev.shards, g) <= Target(|prev.shards|, fewer, g) {
        TargetShrinks(|prev.shards|, fewer, keys, g);
      }
      LeaveBalancesIff(prev, gids);
    }
  }

  /** Whatever moves went before, no shard stays with a group that leaves. */
  lemma LeaveClears(prev: Config, gids: seq<nat>, i: nat)
    requires i < |prev.shards| && 0 !in SetOf(gids)
    ensures LeaveConfig(prev, gids).shards[i] !in SetOf(gids)
  {
    var keys, leaving := Remaining(prev, gids).Keys, SetOf(gids);
    if keys != {} {
      SortedLists(keys);
      var r := LeaveFill(keys, prev.shards, Sorted(keys), leaving);
      if r.1 != [] {
        forall g | g in keys ensures Count(r.0, g) >= Target(|r.0|, keys, g) {
          LeaveCounts(keys, prev.shards, Sorted(keys), leaving, g);
        }
        NoneShort(keys, r.0);
      } else {
        FillChanges(prev.shards, LeaveDonors(leaving, prev.shards, 0), Sorted(keys), LeaveNeeds(keys, prev.shards), i);
        if prev.shards[i] in leaving {
          LeaveDonorsAll(leaving, prev.shards, 0, i);
        }
      }
    }
  }

  // ----- Least movement --------------------------------------------------------------

  function Moved(s: seq<nat>, r: seq<nat>): nat
    requires |s| == |r|
  {
    if s == [] then 0 else (if s[0] != r[0] then 1 else 0) + Moved(s[1..], r[1..])
  }

  lemma {:induction false} MovedAtLeast(s: seq<nat>, r: seq<nat>, keys: set<nat>)
    requires |s| == |r| && forall i :: 0 <= i < |s| && r[i] == s[i] ==> r[i] in keys
    ensures Moved(s, r) + CountIn(r, keys) >= |s|
  {
    if s != [] {
      assert r[0] == s[0] ==> r[0] in keys;
      forall i | 0 <= i < |s[1..]| && r[1..][i] == s[1..][i] ensures r[1..][i] in keys {
        assert r[i + 1] == s[i + 1];
      }
      MovedAtLeast(s[1..], r[1..], keys);
    }
  }

  lemma {:induction false} MovedAtMost(s: seq<nat>, r: seq<nat>, keys: set<nat>)
    requires |s| == |r| && forall i :: 0 <= i < |s| && r[i] in keys ==> r[i] == s[i]
    ensures Moved(s, r) + CountIn(r, keys) <= |s|
  {
    if s != [] {
      assert r[0] in keys ==> r[0] == s[0];
      forall i | 0 <= i < |s[1..]| && r[1..][i] in keys ensures r[1..][i] == s[1..][i] {
        assert r[i + 1] in keys;
      }
      MovedAtMost(s[1..], r[1..], keys);
    }
  }

  lemma CountInTarget(keys: set<nat>, part: set<nat>, s: Shards)
    requires part <= keys && AtTarget(keys, s)
    ensures CountIn(s, part) == SumTargets(|s|, keys, part)
  {
    AllAtLeast(|s|, s, keys, part);
    AllAtMost(|s|, s, keys, part);
  }

  /** After a join from balance, a shard held by an old group was held by it before. */
  lemma OldGroupsKeep(prev: Config, servers: map<nat, Servers>, i: nat)
    requires Balanced(prev) && 0 !in servers && Joined(prev, servers).Keys != {} && i < |prev.shards|
    ensures var r := JoinConfig(prev, servers).shards; |r| == |prev.shards| && (r[i] in prev.groups.Keys ==> r[i] == prev.shards[i])
  {
    var keys, more := prev.groups.Keys, Joined(prev, servers).Keys;
    assert keys <= more;
    SortedLists(servers.Keys);
    JoinMoves(more, prev.shards, Sorted(servers.Keys), servers.Keys, i);
    var g := JoinConfig(prev, servers).shards[i];
    if g in keys {
      TargetShrinks(|prev.shards|, keys, more, g);
    }
  }

  /** The shards an assignment leaves in place are among those it gives to old groups. */
  lemma MovedBound(keys: set<nat>, more: set<nat>, s: Shards, r: Shards, other: Shards)
    requires |s| == |r| == |other| && keys <= more && AtTarget(keys, s) && AtTarget(more, r) && AtTarget(more, other) && more != {} && 0 !in more
    requires forall i :: 0 <= i < |s| && r[i] in keys ==> r[i] == s[i]
    ensures Moved(s, r) <= Moved(s, other)
  {
    MovedAtMost(s, r, keys);
    MovedAtLeast(s, other, keys);
    CountInTarget(more, keys, r);
    CountInTarget(more, keys, other);
  }

  /** No assignment that gives every group its target moves fewer shards than the join;
      `ControllerMoves` compares with all even assignments. */
  lemma JoinMovesLeast(prev: Config, servers: map<nat, Servers>, other: Shards)
    requires Balanced(prev) && 0 !in servers && Joined(prev, servers).Keys != {}
    requires AtTarget(Joined(prev, servers).Keys, other) && |other| == |prev.shards|
    ensures Moved(prev.shards, JoinConfig(prev, servers).shards) <= Moved(prev.shards, other)
  {
    var r := JoinConfig(prev, servers).shards;
    JoinKeepsBalance(prev, servers);
    forall i | 0 <= i < |r| && r[i] in prev.groups.Keys ensures r[i] == prev.shards[i] {
      OldGroupsKeep(prev, servers, i);
    }
    MovedBound(prev.groups.Keys, Joined(prev, servers).Keys, prev.shards, r, other);
  }

  lemma {:induction false} MovedSubset(s: seq<nat>, r: seq<nat>, other: seq<nat>)
    requires |s| == |r| == |other| && forall i :: 0 <= i < |s| && r[i] != s[i] ==> other[i] != s[i]
    ensures Moved(s, r) <= Moved(s, other)
  {
    if s != [] {
      assert r[0] != s[0] ==> other[0] != s[0];
      forall i | 0 <= i < |s[1..]| && r[1..][i] != s[1..][i] ensures other[1..][i] != s[1..][i] {
        assert r[i + 1] != s[i + 1];
      }
      MovedSubset(s[1..], r[1..], other[1..]);
    }
  }

  /** A leave moves only shards that any assignment to the remaining groups must move. */
  lemma LeaveMovesLeast(prev: Config, gids: seq<nat>, other: Shards)
    requires 0 !in prev.groups && Remaining(prev, gids).Keys != {}
    requires |other| == |prev.shards| && forall i :: 0 <= i < |other| ==> other[i] in Remaining(prev, gids).Keys
    ensures Moved(prev.shards, LeaveConfig(prev, gids).shards) <= Moved(prev.shards, other)
  {
    var keys := Remaining(prev, gids).Keys;
    var s, r := prev.shards, LeaveConfig(prev, gids).shards;
    assert keys !! SetOf(gids);
    SortedLists(keys);
    forall i | 0 <= i < |s| && r[i] != s[i] ensures other[i] != s[i] {
      LeaveMoves(keys, s, Sorted(keys), SetOf(gids), i);
    }
    MovedSubset(s, r, other);
  }

  // ----- Histories -------------------------------------------------------------------

  predicate LegalAll(n: nat, ops: seq<Op>) {
    forall i :: 0 <= i < |ops| ==> Legal(n, ops[i])
  }

  /** The configurations of n shards after these commands. */
  function Apply(n: nat, ops: seq<Op>): (r: seq<Config>)
    requires LegalAll(n, ops)
    ensures r != [] && |r[|r| - 1].shards| == n
  {
    if ops == [] then [Config(0, Nowhere(n), map[])] else Next(Apply(n, ops[..|ops| - 1]), ops[|ops| - 1])
  }

  predicate NoMoves(ops: seq<Op>) {
    forall i :: 0 <= i < |ops| ==> !ops[i].Move?
  }

  /** A command adds at most one configuration, with the next number. */
  lemma NextAdds(configs: seq<Config>, op: Op)
    requires configs != [] && Legal(|configs[|configs| - 1].shards|, op)
    ensures var r, last := Next(configs, op), configs[|configs| - 1];
            && configs <= r && |r| <= |configs| + 1
            && (|r| > |configs| ==> r[|configs|].num == last.num + 1)
            && (|r| > |configs| && 0 !in last.groups ==> 0 !in r[|configs|].groups)
  {
  }

  lemma NextBalanced(configs: seq<Config>, op: Op)
    requires configs != [] && Legal(|configs[|configs| - 1].shards|, op) && !op.Move? && Balanced(configs[|configs| - 1])
    ensures |Next(configs, op)| > |configs| ==> Balanced(Next(configs, op)[|configs|])
  {
    var prev := configs[|configs| - 1];
    match op {
      case Join(servers) => JoinKeepsBalance(prev, servers);
      case Leave(gids) => LeaveKeepsBalance(prev, gids);
      case _ =>
    }
  }

  lemma {:induction false} Numbered(shards: nat, ops: seq<Op>, n: nat)
    requires LegalAll(shards, ops) && n < |Apply(shards, ops)|
    ensures Apply(shards, ops)[n].num == n && 0 !in Apply(shards, ops)[n].groups && |Apply(shards, ops)[n].shards| == shards
  {
    if ops != [] {
      var configs := Apply(shards, ops[..|ops| - 1]);
      NextAdds(configs, ops[|ops| - 1]);
      Numbered(shards, ops[..|ops| - 1], |configs| - 1);
      if n < |configs| {
        Numbered(shards, ops[..|ops| - 1], n);
      }
    }
  }

  /** Without moves every configuration of the history gives each group its target. */
  lemma {:induction false} AlwaysBalanced(shards: nat, ops: seq<Op>, n: nat)
    requires LegalAll(shards, ops) && NoMoves(ops) && n < |Apply(shards, ops)|
    ensures Balanced(Apply(shards, ops)[n])
  {
    if ops != [] {
      var configs := Apply(shards, ops[..|ops| - 1]);
      NextAdds(configs, ops[|ops| - 1]);
      AlwaysBalanced(shards, ops[..|ops| - 1], |configs| - 1);
      if n < |configs| {
        AlwaysBalanced(shards, ops[..|ops| - 1], n);
      } else {
        NextBalanced(configs, ops[|ops| - 1]);
      }
    }
  }

  /** Shares differ by at most one, and every shard has a group when there is one. */
  lemma BalancedMeans(c: Config, g: nat, h: nat, i: nat)
    requires Balanced(c) && g in c.groups && h in c.groups && i < |c.shards|
    ensures Count(c.shards, g) <= Count(c.shards, h) + 1
    ensures c.shards[i] in c.groups
  {
    TargetsEven(|c.shards|, c.groups.Keys, g, h);
  }

  /** Groups 1 and 2 join, and the first k shards are moved to group 2. */
  function PileUp(k: nat): seq<Op> {
    if k == 0 then [Join(map[1 := ["a"], 2 := ["b"]])] else PileUp(k - 1) + [Move(k - 1, 2)]
  }

  lemma JoinGroups(prev: Config, servers: map<nat, Servers>)
    ensures JoinConfig(prev, servers).groups.Keys == prev.groups.Keys + servers.Keys
  {
  }

  /** The last configuration after a history. */
  function Latest(n: nat, ops: seq<Op>): (c: Config)
    requires LegalAll(n, ops)
    ensures |c.shards| == n
  {
    Apply(n, ops)[|Apply(n, ops)| - 1]
  }

  lemma LatestJoin(n: nat, ops: seq<Op>, servers: map<nat, Servers>)
    requires LegalAll(n, ops) && 0 !in servers
    ensures LegalAll(n, ops + [Join(servers)])
    ensures Latest(n, ops + [Join(servers)]) == JoinConfig(Latest(n, ops), servers)
  {
    assert (ops + [Join(servers)])[..|ops|] == ops;
  }

  lemma LatestMove(n: nat, ops: seq<Op>, shard: nat, gid: nat)
    requires LegalAll(n, ops) && shard < n
    ensures LegalAll(n, ops + [Move(shard, gid)])
    ensures Latest(n, ops + [Move(shard, gid)]) == MoveConfig(Latest(n, ops), shard, gid)
  {
    assert (ops + [Move(shard, gid)])[..|ops|] == ops;
  }

  lemma {:induction false} PiledUp(n: nat, k: nat)
    requires k <= n
    ensures LegalAll(n, PileUp(k)) && Latest(n, PileUp(k)).groups.Keys == {1, 2}
    ensures forall i :: 0 <= i < k ==> Latest(n, PileUp(k)).shards[i] == 2
  {
    if k > 0 {
      PiledUp(n, k - 1);
      LatestMove(n, PileUp(k - 1), k - 1, 2);
    } else {
      FirstTwo(n);
    }
  }

  lemma FirstTwo(n: nat)
    ensures LegalAll(n, PileUp(0)) && Latest(n, PileUp(0)).groups.Keys == {1, 2}
  {
    var servers := map[1 := ["a"], 2 := ["b"]];
    LatestJoin(n, [], servers);
    assert [] + [Join(servers)] == PileUp(0);
    JoinGroups(Latest(n, []), servers);
    assert Latest(n, []).groups == map[];
  }

  lemma {:induction false} NotCounted(s: seq<nat>, g: nat)
    requires forall i :: 0 <= i < |s| ==> s[i] != g
    ensures Count(s, g) == 0
  {
    if s != [] {
      NotCounted(s[1..], g);
    }
  }

  lemma FirstOfThree(n: nat, keys: set<nat>)
    requires keys == {1, 2, 3} && n > 0
    ensures Target(n, keys, 1) >= 1
  {
    assert |keys| == 3 && Below(keys, 1) == {};
  }

  /** With any number of shards, moves can leave a group so short that a later join does not
      even the shares. */
  lemma MoveBreaksBalance(n: nat)
    requires n > 0
    ensures LegalAll(n, PileUp(n) + [Join(map[3 := ["c"]])])
    ensures !Balanced(Latest(n, PileUp(n) + [Join(map[3 := ["c"]])]))
  {
    var servers := map[3 := ["c"]];
    PiledUp(n, n);
    LatestJoin(n, PileUp(n), servers);
    var prev := Latest(n, PileUp(n));
    var keys := Joined(prev, servers).Keys;
    assert keys == {1, 2, 3};
    NotCounted(prev.shards, 1);
    FirstOfThree(n, keys);
    JoinBalancesIff(prev, servers);
    assert 1 in keys && 1 !in servers.Keys;
  }

  // ----- The servers of a group ------------------------------------------------------

  predicate Names(op: Op, g: nat) {
    match op
    case Join(servers) => g in servers
    case Leave(gids) => g in gids
    case _ => false
  }

  /** Position i is the last command that names g. */
  predicate LastNaming(ops: seq<Op>, g: nat, i: nat) {
    i < |ops| && Names(ops[i], g) && forall j :: i < j < |ops| ==> !Names(ops[j], g)
  }

  /** The servers that the last command naming g gave it; a leave or none gives nothing. */
  ghost predicate ServersAre(ops: seq<Op>, g: nat, groups: map<nat, Servers>) {
    && (g in groups <==> exists i: nat :: LastNaming(ops, g, i) && ops[i].Join?)
    && (forall i: nat :: LastNaming(ops, g, i) && ops[i].Join? ==> g in groups && groups[g] == ops[i].servers[g])
  }

  lemma NamingMore(ops: seq<Op>, op: Op, g: nat, i: nat)
    ensures LastNaming(ops + [op], g, i) <==> if Names(op, g) then i == |ops| else LastNaming(ops, g, i)
  {
    var all := ops + [op];
    assert all[|ops|] == op;
    if !Names(op, g) && LastNaming(ops, g, i) {
      forall j | i < j < |all| ensures !Names(all[j], g) {
        assert j < |ops| ==> all[j] == ops[j];
      }
    }
    if LastNaming(all, g, i) && !Names(op, g) {
      forall j | i < j < |ops| ensures !Names(ops[j], g) {
        assert all[j] == ops[j];
      }
    }
  }

  /** What one command does to the servers of g, whatever the configuration is otherwise. */
  predicate GroupStep(op: Op, g: nat, was: map<nat, Servers>, now: map<nat, Servers>) {
    if Names(op, g) then (g in now <==> op.Join?) && (op.Join? ==> now[g] == op.servers[g])
    else (g in now <==> g in was) && (g in was ==> now[g] == was[g])
  }

  lemma NextGroups(configs: seq<Config>, op: Op, g: nat)
    requires configs != [] && Legal(|configs[|configs| - 1].shards|, op)
    ensures var next := Next(configs, op); GroupStep(op, g, configs[|configs| - 1].groups, next[|next| - 1].groups)
  {
    var prev := configs[|configs| - 1];
    match op {
      case Join(servers) => assert JoinConfig(prev, servers).groups == Joined(prev, servers);
      case Leave(gids) => assert LeaveConfig(prev, gids).groups == Remaining(prev, gids);
      case _ =>
    }
  }

  lemma ServersStep(ops: seq<Op>, op: Op, g: nat, was: map<nat, Servers>, now: map<nat, Servers>)
    requires ServersAre(ops, g, was) && GroupStep(op, g, was, now)
    ensures ServersAre(ops + [op], g, now)
  {
    var all := ops + [op];
    forall i: nat ensures LastNaming(all, g, i) <==> if Names(op, g) then i == |ops| else LastNaming(ops, g, i) {
      NamingMore(ops, op, g, i);
    }
    if Names(op, g) {
      assert LastNaming(all, g, |ops|) && all[|ops|] == op;
    } else if g in was {
      var i: nat :| LastNaming(ops, g, i) && ops[i].Join?;
      assert LastNaming(all, g, i) && all[i] == ops[i];
    }
  }

  lemma LatestGroups(n: nat, ops: seq<Op>, g: nat)
    requires ops != [] && LegalAll(n, ops)
    ensures GroupStep(ops[|ops| - 1], g, Latest(n, ops[..|ops| - 1]).groups, Latest(n, ops).groups)
  {
    NextGroups(Apply(n, ops[..|ops| - 1]), ops[|ops| - 1], g);
  }

  /** Along every history a group has the servers of the last join that names it, as long as
      no later leave does. */
  lemma {:induction false} ServersAlong(n: nat, ops: seq<Op>, g: nat)
    requires LegalAll(n, ops)
    ensures ServersAre(ops, g, Latest(n, ops).groups)
  {
    if ops != [] {
      var front, op := ops[..|ops| - 1], ops[|ops| - 1];
      assert ops == front + [op];
      ServersAlong(n, front, g);
      LatestGroups(n, ops, g);
      ServersStep(front, op, g, Latest(n, front).groups, Latest(n, ops).groups);
    }
  }

  // ----- Which shards move -----------------------------------------------------------

  /** From balance a join moves exactly the unassigned shards and the first surplus ones of
      each group, lower shards to lower groups. */
  lemma JoinMovesExactly(prev: Config, servers: map<nat, Servers>, i: nat, j: nat)
    requires Balanced(prev) && 0 !in servers && Joined(prev, servers).Keys != {} && i < j < |prev.shards|
    ensures var s, r, keys := prev.shards, JoinConfig(prev, servers).shards, Joined(prev, servers).Keys;
            && |r| == |s| && (r[i] != s[i] <==> GivesUp(keys, s, i)) && (r[j] != s[j] <==> GivesUp(keys, s, j))
            && (r[i] != s[i] && r[j] != s[j] ==> r[i] <= r[j])
  {
    var keys, more := prev.groups.Keys, Joined(prev, servers).Keys;
    assert keys <= more && more == keys + servers.Keys;
    forall g | g in more && g !in servers.Keys ensures Count(prev.shards, g) >= Target(|prev.shards|, more, g) {
      TargetShrinks(|prev.shards|, keys, more, g);
    }
    SortedLists(servers.Keys);
    JoinExactly(more, prev.shards, Sorted(servers.Keys), servers.Keys, i, j);
  }

  /** From balance a leave moves exactly the shards of the leaving groups, lower shards to
      lower groups. */
  lemma LeaveMovesExactly(prev: Config, gids: seq<nat>, i: nat, j: nat)
    requires Balanced(prev) && Remaining(prev, gids).Keys != {} && i < j < |prev.shards|
    ensures var s, r := prev.shards, LeaveConfig(prev, gids).shards;
            && |r| == |s| && (r[i] != s[i] <==> s[i] in gids) && (r[j] != s[j] <==> s[j] in gids)
            && (s[i] in gids && s[j] in gids ==> r[i] <= r[j])
  {
    var keys, fewer := prev.groups.Keys, Remaining(prev, gids).Keys;
    assert fewer == keys - SetOf(gids);
    forall g | g in fewer ensures Count(prev.shards, g) <= Target(|prev.shards|, fewer, g) {
      TargetShrinks(|prev.shards|, fewer, keys, g);
    }
    SortedLists(fewer);
    LeaveExactly(fewer, prev.shards, Sorted(fewer), SetOf(gids), i, j);
  }

  /** The rows that the replica groups see. */
  function RowOf(c: Config): ShardGroup.Config {
    ShardGroup.Config(c.num, c.shards)
  }

  function RowsOf(configs: seq<Config>): seq<ShardGroup.Config> {
    seq(|configs|, n requires 0 <= n < |configs| => RowOf(configs[n]))
  }

  /** Once there are groups there always are. */
  predicate KeepsGroups(configs: seq<Config>) {
    forall n :: 0 <= n < |configs| - 1 && configs[n].groups.Keys != {} ==> configs[n + 1].groups.Keys != {}
  }

  lemma {:induction false} StartsNowhere(shards: nat, ops: seq<Op>)
    requires LegalAll(shards, ops)
    ensures Apply(shards, ops)[0] == Config(0, Nowhere(shards), map[])
  {
    if ops != [] {
      StartsNowhere(shards, ops[..|ops| - 1]);
    }
  }

  /** Every shard has a group, or there is no group and no shard has one. */
  predicate Assigned(c: Config) {
    forall i :: 0 <= i < |c.shards| ==> (c.shards[i] != 0 <==> c.groups.Keys != {})
  }

  lemma BalancedAssigned(c: Config)
    requires Balanced(c)
    ensures Assigned(c)
  {
  }

  predicate GoodRow(configs: seq<Config>, n: nat)
    requires n < |configs|
  {
    configs[n].num == n && |configs[n].shards| == ShardGroup.NSHARDS && Assigned(configs[n])
  }

  lemma RowsStayAssigned(configs: seq<Config>)
    requires configs != [] && forall n :: 0 <= n < |configs| ==> GoodRow(configs, n)
    requires configs[0].groups.Keys == {} && KeepsGroups(configs)
    ensures ShardSystem.NeverUnassigned(RowsOf(configs))
  {
    var C := RowsOf(configs);
    forall n | 0 <= n < |C| ensures C[n].num == n && |C[n].shards| == ShardGroup.NSHARDS {
      assert GoodRow(configs, n);
    }
    assert GoodRow(configs, 0);
    forall n, s | 0 <= n < |C| - 1 && 0 <= s < ShardGroup.NSHARDS && ShardSystem.Owner(C, n, s) != 0
      ensures ShardSystem.Owner(C, n + 1, s) != 0
    {
      assert GoodRow(configs, n) && GoodRow(configs, n + 1);
    }
  }

  /** Joins and leaves that keep some group never unassign a shard: the histories for which
      the sharded service is proved safe. */
  lemma NeverUnassigns(ops: seq<Op>)
    requires LegalAll(ShardGroup.NSHARDS, ops) && NoMoves(ops) && KeepsGroups(Apply(ShardGroup.NSHARDS, ops))
    ensures ShardSystem.NeverUnassigned(RowsOf(Apply(ShardGroup.NSHARDS, ops)))
  {
    var configs := Apply(ShardGroup.NSHARDS, ops);
    forall n | 0 <= n < |configs| ensures GoodRow(configs, n) {
      Numbered(ShardGroup.NSHARDS, ops, n);
      AlwaysBalanced(ShardGroup.NSHARDS, ops, n);
      BalancedAssigned(configs[n]);
    }
    StartsNowhere(ShardGroup.NSHARDS, ops);
    RowsStayAssigned(configs);
  }
}
