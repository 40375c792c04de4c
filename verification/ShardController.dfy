/**
 The shard controller (shardctrler/server.go): the list of configurations that Join, Leave
 and Move extend.  Each configuration is a function of the previous one and the request,
 whatever order maps are walked in.  What holds along histories is in `ControllerHistory`.
 */
module ShardController {
  import opened Rebalance
  import opened Handout

  type Servers = seq<string>

  datatype Config = Config(num: nat, shards: Shards, groups: map<nat, Servers>)

  datatype Op =
    | Join(servers: map<nat, Servers>)
    | Leave(gids: seq<nat>)
    | Move(shard: nat, gid: nat)
    | Query(num: int)

  /** n shards without a group. */
  function Nowhere(n: nat): (s: Shards)
    ensures |s| == n && forall i :: 0 <= i < n ==> s[i] == 0
  {
    if n == 0 then [] else Nowhere(n - 1) + [0]
  }

  // ----- Configurations as functions -------------------------------------------------

  function Sorted(keys: set<nat>): seq<nat> {
    if keys == {} then [] else [Least(keys)] + Sorted(keys - {Least(keys)})
  }

  lemma ConsLists(l: nat, rest: seq<nat>, keys: set<nat>)
    requires IsLeast(keys, l) && Lists(rest, keys - {l})
    ensures Lists([l] + rest, keys)
  {
    var gids := [l] + rest;
    forall i, j | 0 <= i < j < |gids| ensures gids[i] < gids[j] {
      assert rest[j - 1] in keys - {l};
      assert i > 0 ==> gids[i] == rest[i - 1];
    }
    forall g | g in keys ensures g in gids {
      assert g == l || g in keys - {l};
    }
  }

  lemma {:induction false} SortedLists(keys: set<nat>)
    ensures Lists(Sorted(keys), keys)
  {
    if keys != {} {
      SortedLists(keys - {Least(keys)});
      ConsLists(Least(keys), Sorted(keys - {Least(keys)}), keys);
    }
  }

  function Joined(prev: Config, servers: map<nat, Servers>): (groups: map<nat, Servers>)
    ensures servers.Keys <= groups.Keys
  {
    prev.groups + servers
  }

  function JoinConfig(prev: Config, servers: map<nat, Servers>): Config {
    Config(prev.num + 1,
           if Joined(prev, servers).Keys == {} then Nowhere(|prev.shards|)
           else JoinShards(Joined(prev, servers).Keys, prev.shards, Sorted(servers.Keys), servers.Keys),
           Joined(prev, servers))
  }

  function SetOf(gids: seq<nat>): set<nat> {
    set g | g in gids
  }

  function Remaining(prev: Config, gids: seq<nat>): map<nat, Servers> {
    prev.groups - SetOf(gids)
  }

  function LeaveConfig(prev: Config, gids: seq<nat>): Config {
    Config(prev.num + 1,
           if Remaining(prev, gids).Keys == {} then Nowhere(|prev.shards|)
           else LeaveShards(Remaining(prev, gids).Keys, prev.shards, Sorted(Remaining(prev, gids).Keys), SetOf(gids)),
           Remaining(prev, gids))
  }

  function MoveConfig(prev: Config, shard: nat, gid: nat): Config
    requires shard < |prev.shards|
  {
    Config(prev.num + 1, prev.shards[shard := gid], prev.groups)
  }

  /** c is the configuration after prev, with the one shard at gid and nothing else changed. */
  predicate MovesOne(prev: Config, c: Config, shard: nat, gid: nat) {
    && c.num == prev.num + 1 && c.groups == prev.groups && |c.shards| == |prev.shards|
    && shard < |c.shards| && c.shards[shard] == gid
    && forall i :: 0 <= i < |c.shards| && i != shard ==> c.shards[i] == prev.shards[i]
  }

  /** There is one such configuration; moving the shard back restores the assignment. */
  lemma MoveIsMoveConfig(prev: Config, c: Config, shard: nat, gid: nat)
    requires shard < |prev.shards|
    ensures c == MoveConfig(prev, shard, gid) <==> MovesOne(prev, c, shard, gid)
    ensures MoveConfig(MoveConfig(prev, shard, gid), shard, prev.shards[shard]).shards == prev.shards
  {
    if MovesOne(prev, c, shard, gid) {
      assert c.shards == prev.shards[shard := gid];
    }
  }

  /** c has the number asked for, or is the latest if no configuration has it. */
  predicate Answers(configs: seq<Config>, num: int, c: Config) {
    && c in configs
    && if exists d :: d in configs && d.num == num then c.num == num else forall d :: d in configs ==> d.num <= c.num
  }

  /** Every group named has exactly the servers given, every other group those it had, and
      there is no further group. */
  ghost predicate GroupsJoined(prev: Config, c: Config, servers: map<nat, Servers>) {
    && c.num == prev.num + 1 && |c.shards| == |prev.shards|
    && (forall g :: g in c.groups <==> g in prev.groups || g in servers)
    && (forall g :: g in servers ==> g in c.groups && c.groups[g] == servers[g])
    && (forall g :: g in prev.groups && g !in servers ==> g in c.groups && c.groups[g] == prev.groups[g])
  }

  /** Exactly the groups not named remain, with the servers they had. */
  ghost predicate GroupsLeft(prev: Config, c: Config, gids: seq<nat>) {
    && c.num == prev.num + 1 && |c.shards| == |prev.shards|
    && (forall g :: g in c.groups <==> g in prev.groups && g !in gids)
    && (forall g :: g in c.groups ==> g in prev.groups && c.groups[g] == prev.groups[g])
  }

  predicate Legal(n: nat, op: Op) {
    match op
    case Join(servers) => 0 !in servers
    case Leave(_) => true
    case Move(shard, _) => shard < n
    case Query(num) => num >= -1
  }

  function Next(configs: seq<Config>, op: Op): (r: seq<Config>)
    requires configs != [] && Legal(|configs[|configs| - 1].shards|, op)
    ensures configs <= r
  {
    match op
    case Join(servers) => configs + [JoinConfig(configs[|configs| - 1], servers)]
    case Leave(gids) => configs + [LeaveConfig(configs[|configs| - 1], gids)]
    case Move(shard, gid) => configs + [MoveConfig(configs[|configs| - 1], shard, gid)]
    case Query(_) => configs
  }

  // ----- The controller --------------------------------------------------------------

  function CountOf(counts: map<nat, int>, g: nat): int {
    if g in counts then counts[g] else 0
  }

  class ShardCtrler {
    const nShards: nat
    var configs: seq<Config>
    var lastAppliedReq: map<int, int>

    predicate Valid()
      reads this
    {
      && configs != []
      && forall i :: 0 <= i < |configs| ==>
           configs[i].num == i && 0 !in configs[i].groups && |configs[i].shards| == nShards
    }

    constructor (nShards: nat)
      ensures Valid() && this.nShards == nShards
      ensures configs == [Config(0, Nowhere(nShards), map[])] && lastAppliedReq == map[]
    {
      this.nShards := nShards;
      configs, lastAppliedReq := [Config(0, Nowhere(nShards), map[])], map[];
    }

    method ApplyJoin(servers: map<nat, Servers>)
      requires Valid() && 0 !in servers
      modifies this`configs
      ensures Valid() && configs == old(configs) + [JoinConfig(old(configs[|configs| - 1]), servers)]
      ensures GroupsJoined(old(configs[|configs| - 1]), configs[|configs| - 1], servers)
    {
      var next := JoinNext(configs[|configs| - 1], servers);
      configs := configs + [next];
    }

    method ApplyLeave(gids: seq<nat>)
      requires Valid()
      modifies this`configs
      ensures Valid() && configs == old(configs) + [LeaveConfig(old(configs[|configs| - 1]), gids)]
      ensures GroupsLeft(old(configs[|configs| - 1]), configs[|configs| - 1], gids)
    {
      var next := LeaveNext(configs[|configs| - 1], gids);
      configs := configs + [next];
    }

    method ApplyMove(shard: nat, gid: nat)
      requires Valid() && shard < nShards
      modifies this`configs
      ensures Valid() && |configs| == |old(configs)| + 1 && old(configs) <= configs
      ensures MovesOne(old(configs[|configs| - 1]), configs[|configs| - 1], shard, gid)
    {
      var prev := configs[|configs| - 1];
      configs := configs + [Config(prev.num + 1, prev.shards[shard := gid], prev.groups)];
    }

    method ReadConfig(num: int) returns (c: Config)
      requires Valid() && num >= -1
      ensures Answers(configs, num, c)
    {
      if num == -1 || num >= |configs| {
        return configs[|configs| - 1];
      }
      return configs[num];
    }

    /** One committed command: a change already applied for its client is not repeated. */
    method Apply(op: Op, client: int, request: int) returns (c: Config)
      requires Valid() && Legal(nShards, op)
      modifies this
      ensures Valid()
      ensures var fresh_ := !op.Query? && !(client in old(lastAppliedReq) && request <= old(lastAppliedReq)[client]);
              && configs == (if fresh_ then Next(old(configs), op) else old(configs))
              && lastAppliedReq == (if fresh_ then old(lastAppliedReq)[client := request] else old(lastAppliedReq))
      ensures op.Query? ==> Answers(configs, op.num, c)
    {
      c := Config(0, Nowhere(nShards), map[]);
      if op.Query? {
        c := ReadConfig(op.num);
      } else if !(client in lastAppliedReq && request <= lastAppliedReq[client]) {
        if op.Join? {
          ApplyJoin(op.servers);
        } else if op.Leave? {
          ApplyLeave(op.gids);
        } else {
          ApplyMove(op.shard, op.gid);
          MoveIsMoveConfig(old(configs[|configs| - 1]), configs[|configs| - 1], op.shard, op.gid);
          assert configs == old(configs) + [configs[|configs| - 1]];
        }
        lastAppliedReq := lastAppliedReq[client := request];
      }
    }
  }

  // ----- The next configuration ------------------------------------------------------

  method JoinNext(prev: Config, servers: map<nat, Servers>) returns (next: Config)
    requires 0 !in prev.groups && 0 !in servers
    ensures next == JoinConfig(prev, servers) && 0 !in next.groups && |next.shards| == |prev.shards|
    ensures GroupsJoined(prev, next, servers)
  {
    var groups := MergeGroups(prev.groups, servers);
    if |groups.Keys| == 0 {
      assert groups.Keys == {};
      return Config(prev.num + 1, Nowhere(|prev.shards|), groups);
    }
    var shards := SpreadToJoining(groups.Keys, prev.shards, servers.Keys);
    next := Config(prev.num + 1, shards, groups);
  }

  method LeaveNext(prev: Config, gids: seq<nat>) returns (next: Config)
    ensures next == LeaveConfig(prev, gids) && next.groups.Keys <= prev.groups.Keys && |next.shards| == |prev.shards|
    ensures GroupsLeft(prev, next, gids)
  {
    var groups := prev.groups - SetOf(gids);
    if |groups.Keys| == 0 {
      assert groups.Keys == {};
      return Config(prev.num + 1, Nowhere(|prev.shards|), groups);
    }
    var shards := SpreadFromLeaving(groups.Keys, prev.shards, SetOf(gids));
    next := Config(prev.num + 1, shards, groups);
  }

  // ----- The loops of a rebalance ----------------------------------------------------

  lemma {:induction false} OneListing(a: seq<nat>, b: seq<nat>, keys: set<nat>)
    requires Lists(a, keys) && Lists(b, keys)
    ensures a == b
  {
    ListingEmpty(a, keys);
    ListingEmpty(b, keys);
    if a != [] {
      SameFirst(a, b, keys);
      TailLists(a, keys);
      TailLists(b, keys);
      OneListing(a[1..], b[1..], keys - {a[0]});
      assert a == [a[0]] + a[1..] && b == [b[0]] + b[1..];
    }
  }

  lemma ListingEmpty(a: seq<nat>, keys: set<nat>)
    requires Lists(a, keys)
    ensures a == [] <==> forall g :: g !in keys
  {
    if a != [] {
      assert a[0] in keys;
    }
  }

  lemma SameFirst(a: seq<nat>, b: seq<nat>, keys: set<nat>)
    requires Lists(a, keys) && Lists(b, keys) && a != [] && b != []
    ensures a[0] == b[0]
  {
    assert a[0] in keys && b[0] in keys;
    var i :| 0 <= i < |a| && a[i] == b[0];
    var j :| 0 <= j < |b| && b[j] == a[0];
  }

  lemma TailLists(a: seq<nat>, keys: set<nat>)
    requires Lists(a, keys) && a != []
    ensures Lists(a[1..], keys - {a[0]})
  {
    forall g | g in keys - {a[0]} ensures g in a[1..] {
      var i :| 0 <= i < |a| && a[i] == g;
      assert a[1..][i - 1] == g;
    }
    forall i | 0 <= i < |a[1..]| ensures a[1..][i] in keys - {a[0]} {
      assert a[1..][i] == a[i + 1];
      assert a[i + 1] in a;
    }
  }

  /** One more gid put in its place. */
  method InsertGID(gids: seq<nat>, g: nat, ghost keys: set<nat>) returns (r: seq<nat>)
    requires Lists(gids, keys) && g !in keys
    ensures Lists(r, keys + {g})
  {
    var p := |gids|;
    while p > 0 && g < gids[p - 1]
      invariant 0 <= p <= |gids| && forall j :: p <= j < |gids| ==> g < gids[j]
    {
      p := p - 1;
    }
    r := gids[..p] + [g] + gids[p..];
    InsertedMembers(gids, g, keys, p, r);
    InsertedOrder(gids, g, keys, p, r);
  }

  lemma InsertedMembers(gids: seq<nat>, g: nat, keys: set<nat>, p: nat, r: seq<nat>)
    requires Lists(gids, keys) && p <= |gids| && r == gids[..p] + [g] + gids[p..]
    ensures forall x :: x in r <==> x in keys + {g}
  {
    assert gids == gids[..p] + gids[p..];
    forall x ensures x in r <==> x in keys + {g} {
      assert x in r <==> x in gids || x == g;
    }
  }

  lemma InsertedOrder(gids: seq<nat>, g: nat, keys: set<nat>, p: nat, r: seq<nat>)
    requires Lists(gids, keys) && g !in keys && p <= |gids| && r == gids[..p] + [g] + gids[p..]
    requires (p > 0 ==> gids[p - 1] <= g) && forall j :: p <= j < |gids| ==> g < gids[j]
    ensures forall i, j :: 0 <= i < j < |r| ==> r[i] < r[j]
  {
    assert p > 0 ==> gids[p - 1] in gids;
    forall i, j | 0 <= i < j < |r| ensures r[i] < r[j] {
      assert r[i] == if i < p then gids[i] else if i == p then g else gids[i - 1];
      assert r[j] == if j < p then gids[j] else if j == p then g else gids[j - 1];
    }
  }

  /** The keys of a map in whatever order they come, then sorted. */
  method SortedGIDs(keys: set<nat>) returns (gids: seq<nat>)
    ensures gids == Sorted(keys)
  {
    var listed: seq<nat> := [];
    var left := keys;
    while left != {}
      invariant left <= keys && (forall g :: g in listed <==> g in keys - left)
      invariant forall i, j :: 0 <= i < j < |listed| ==> listed[i] != listed[j]
    {
      var g :| g in left;
      listed, left := listed + [g], left - {g};
    }
    gids := [];
    for i := 0 to |listed|
      invariant Lists(gids, SetOf(listed[..i]))
    {
      SetSnoc(listed, i);
      assert listed[i] !in SetOf(listed[..i]);
      gids := InsertGID(gids, listed[i], SetOf(listed[..i]));
    }
    assert listed[..|listed|] == listed && SetOf(listed) == keys;
    SortedLists(keys);
    OneListing(gids, Sorted(keys), keys);
  }

  lemma SortedCons(keys: set<nat>)
    requires keys != {}
    ensures Sorted(keys) == [Least(keys)] + Sorted(keys - {Least(keys)})
  {
  }

  lemma {:induction false} SortedSize(keys: set<nat>)
    ensures |Sorted(keys)| == |keys|
  {
    if keys != {} {
      SortedCons(keys);
      SortedSize(keys - {Least(keys)});
    }
  }

  lemma BelowMore(keys: set<nat>, g: nat)
    requires keys != {} && g in keys && g != Least(keys)
    ensures |Below(keys, g)| == |Below(keys - {Least(keys)}, g)| + 1
  {
    assert Below(keys, g) == Below(keys - {Least(keys)}, g) + {Least(keys)};
  }

  lemma {:induction false} SortedRank(keys: set<nat>, i: nat)
    requires i < |Sorted(keys)|
    ensures Sorted(keys)[i] in keys && |Below(keys, Sorted(keys)[i])| == i
  {
    assert keys != {};
    SortedCons(keys);
    if i == 0 {
      assert Below(keys, Least(keys)) == {};
    } else {
      SortedRank(keys - {Least(keys)}, i - 1);
      BelowMore(keys, Sorted(keys)[i]);
    }
  }

  lemma SortedSet(keys: set<nat>)
    ensures SetOf(Sorted(keys)) == keys
  {
    SortedLists(keys);
  }

  /** The i-th gid in order gets one more if i is below the remainder. */
  lemma TargetAt(n: nat, keys: set<nat>, i: nat)
    requires i < |Sorted(keys)|
    ensures |Sorted(keys)| == |keys| > 0 && Sorted(keys)[i] in keys
    ensures Target(n, keys, Sorted(keys)[i]) == n / |keys| + if i < n % |keys| then 1 else 0
  {
    SortedRank(keys, i);
    SortedSize(keys);
  }

  method ComputeTargets(n: nat, keys: set<nat>) returns (targets: map<nat, int>)
    ensures targets.Keys == keys && forall g :: g in keys ==> targets[g] == Target(n, keys, g)
  {
    targets := map[];
    var gids := SortedGIDs(keys);
    SortedSize(keys);
    SortedSet(keys);
    if |gids| == 0 {
      return;
    }
    var q, r := n / |gids|, n % |gids|;
    for i := 0 to |gids|
      invariant targets.Keys == SetOf(gids[..i]) && targets.Keys <= keys
      invariant forall g :: g in targets ==> targets[g] == Target(n, keys, g)
    {
      TargetAt(n, keys, i);
      SetSnoc(gids, i);
      targets := targets[gids[i] := if i < r then q + 1 else q];
    }
    assert gids[..|gids|] == gids;
  }

  lemma SetSnoc(gids: seq<nat>, i: nat)
    requires i < |gids|
    ensures SetOf(gids[..i + 1]) == SetOf(gids[..i]) + {gids[i]}
  {
    assert gids[..i + 1] == gids[..i] + [gids[i]];
  }

  method SpreadToJoining(keys: set<nat>, s: Shards, joining: set<nat>) returns (shards: Shards)
    requires joining <= keys && 0 !in keys
    ensures shards == JoinShards(keys, s, Sorted(joining), joining)
  {
    var targets := ComputeTargets(|s|, keys);
    var counts := CountShards(keys, s, {});
    var donors;
    donors, counts := PickDonors(keys, s, targets, counts);
    var gids := SortedGIDs(joining);
    SortedLists(joining);
    shards := HandOut(s, donors, gids, targets, counts, JoinNeeds(keys, s, joining));
  }

  method SpreadFromLeaving(keys: set<nat>, s: Shards, leaving: set<nat>) returns (shards: Shards)
    requires keys !! leaving
    ensures shards == LeaveShards(keys, s, Sorted(keys), leaving)
  {
    var targets := ComputeTargets(|s|, keys);
    var donors := LeavingShards(s, leaving);
    var counts := CountShards(keys, s, leaving);
    var remain := SortedGIDs(keys);
    SortedLists(keys);
    shards := HandOut(s, donors, remain, targets, counts, LeaveNeeds(keys, s));
  }

  method MergeGroups(groups: map<nat, Servers>, servers: map<nat, Servers>) returns (r: map<nat, Servers>)
    ensures r == groups + servers
  {
    r := groups;
    var left := servers.Keys;
    while left != {}
      invariant left <= servers.Keys && r == groups + (servers - left)
    {
      var g :| g in left;
      r, left := r[g := servers[g]], left - {g};
    }
    assert servers - {} == servers;
  }

  lemma {:induction false} CountSnoc(s: seq<nat>, i: nat, g: nat)
    requires i < |s|
    ensures Count(s[..i + 1], g) == Count(s[..i], g) + if s[i] == g then 1 else 0
  {
    if i == 0 {
      assert s[..1][1..] == [];
    } else {
      assert s[..i + 1][1..] == s[1..][..i] && s[..i][1..] == s[1..][..i - 1];
      CountSnoc(s[1..], i - 1, g);
    }
  }

  /** How many shards each known group holds, those in `skip` left out. */
  method CountShards(keys: set<nat>, s: Shards, skip: set<nat>) returns (counts: map<nat, int>)
    requires skip !! keys
    ensures counts.Keys <= keys && forall g :: g in keys ==> CountOf(counts, g) == Count(s, g)
  {
    counts := map[];
    for i := 0 to |s|
      invariant counts.Keys <= keys && forall g :: g in keys ==> CountOf(counts, g) == Count(s[..i], g)
    {
      forall g ensures Count(s[..i + 1], g) == Count(s[..i], g) + if s[i] == g then 1 else 0 {
        CountSnoc(s, i, g);
      }
      if s[i] !in skip && s[i] in keys {
        counts := counts[s[i] := CountOf(counts, s[i]) + 1];
      }
    }
    assert s[..|s|] == s;
  }

  /** What is left in the count of g when shards from i on are still to be seen. */
  function Running(keys: set<nat>, s: seq<nat>, g: nat, i: nat): int
    requires g in keys && i <= |s|
  {
    if Count(s, g) <= Target(|s|, keys, g) then Count(s, g) else Max(Target(|s|, keys, g), Count(s[i..], g))
  }

  lemma {:induction false} CountTail(s: seq<nat>, i: nat, g: nat)
    requires i <= |s|
    ensures Count(s[i..], g) <= Count(s, g)
  {
    if i > 0 {
      assert s[1..][i - 1..] == s[i..];
      CountTail(s[1..], i - 1, g);
    } else {
      assert s[0..] == s;
    }
  }

  lemma RunningStep(keys: set<nat>, s: seq<nat>, g: nat, i: nat)
    requires g in keys && i < |s| && 0 !in keys
    ensures s[i] == g ==> (JoinDonor(keys, s, i) <==> Running(keys, s, g, i) > Target(|s|, keys, g))
    ensures Running(keys, s, g, i + 1) == Running(keys, s, g, i) - if s[i] == g && JoinDonor(keys, s, i) then 1 else 0
  {
    assert s[i..][1..] == s[i + 1..];
    CountTail(s, i, g);
    CountTail(s, i + 1, g);
  }

  lemma JoinDonorsStep(keys: set<nat>, s: seq<nat>, i: nat, donors: seq<nat>)
    requires i < |s|
    ensures donors + JoinDonors(keys, s, i) == (if JoinDonor(keys, s, i) then donors + [i] else donors) + JoinDonors(keys, s, i + 1)
  {
    var rest := JoinDonors(keys, s, i + 1);
    assert donors + ([i] + rest) == donors + [i] + rest;
    assert donors + ([] + rest) == donors + rest;
  }

  lemma LeaveDonorsStep(leaving: set<nat>, s: seq<nat>, i: nat, donors: seq<nat>)
    requires i < |s|
    ensures donors + LeaveDonors(leaving, s, i) == (if s[i] in leaving then donors + [i] else donors) + LeaveDonors(leaving, s, i + 1)
  {
    var rest := LeaveDonors(leaving, s, i + 1);
    assert donors + ([i] + rest) == donors + [i] + rest;
    assert donors + ([] + rest) == donors + rest;
  }

  method PickDonors(keys: set<nat>, s: Shards, targets: map<nat, int>, counts0: map<nat, int>)
      returns (donors: seq<nat>, counts: map<nat, int>)
    requires 0 !in keys && targets.Keys == keys && forall g :: g in keys ==> targets[g] == Target(|s|, keys, g)
    requires counts0.Keys <= keys && forall g :: g in keys ==> CountOf(counts0, g) == Count(s, g)
    ensures donors == JoinDonors(keys, s, 0)
    ensures forall g :: g in keys ==> CountOf(counts, g) == Min(Count(s, g), Target(|s|, keys, g))
  {
    donors, counts := [], counts0;
    assert s[0..] == s;
    for i := 0 to |s|
      invariant donors + JoinDonors(keys, s, i) == JoinDonors(keys, s, 0)
      invariant forall g :: g in keys ==> CountOf(counts, g) == Running(keys, s, g, i)
    {
      forall g | g in keys
        ensures s[i] == g ==> (JoinDonor(keys, s, i) <==> Running(keys, s, g, i) > Target(|s|, keys, g))
        ensures Running(keys, s, g, i + 1) == Running(keys, s, g, i) - if s[i] == g && JoinDonor(keys, s, i) then 1 else 0
      {
        RunningStep(keys, s, g, i);
      }
      JoinDonorsStep(keys, s, i, donors);
      var gid := s[i];
      if gid == 0 || (gid in keys && CountOf(counts, gid) > targets[gid]) {
        donors := donors + [i];
        if gid in keys {
          counts := counts[gid := CountOf(counts, gid) - 1];
        }
      }
    }
    assert s[|s|..] == [];
  }

  method LeavingShards(s: Shards, leaving: set<nat>) returns (donors: seq<nat>)
    ensures donors == LeaveDonors(leaving, s, 0)
  {
    donors := [];
    for i := 0 to |s|
      invariant donors + LeaveDonors(leaving, s, i) == LeaveDonors(leaving, s, 0)
    {
      LeaveDonorsStep(leaving, s, i, donors);
      if s[i] in leaving {
        donors := donors + [i];
      }
    }
  }

  /** Both loops: every group in turn takes donors until its need is met. */
  method HandOut(s: Shards, donors: seq<nat>, gids: seq<nat>, targets: map<nat, int>, counts: map<nat, int>, ghost needs: map<nat, int>)
      returns (shards: Shards)
    requires Donors(s, donors) && forall k :: 0 <= k < |gids| ==> gids[k] in targets
    requires forall k :: 0 <= k < |gids| ==> NeedOf(needs, gids[k]) == targets[gids[k]] - CountOf(counts, gids[k])
    ensures shards == Fill(s, donors, gids, needs).0
  {
    shards := s;
    var di := 0;
    for k := 0 to |gids|
      invariant 0 <= di <= |donors| && Donors(shards, donors[di..])
      invariant Fill(s, donors, gids, needs) == Fill(shards, donors[di..], gids[k..], needs)
    {
      var gid := gids[k];
      assert gids[k..][0] == gid && gids[k..][1..] == gids[k + 1..];
      var need := targets[gid] - CountOf(counts, gid);
      ghost var end := Give(shards, donors[di..], gid, need);
      while need > 0 && di < |donors|
        invariant 0 <= di <= |donors| && Donors(shards, donors[di..])
        invariant Give(shards, donors[di..], gid, need) == end
        decreases |donors| - di
      {
        var shard := donors[di];
        assert donors[di..][0] == shard && donors[di..][1..] == donors[di + 1..];
        di := di + 1;
        shards := shards[shard := gid];
        need := need - 1;
      }
    }
    assert gids[|gids|..] == [];
  }
}
