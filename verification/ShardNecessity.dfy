/**
 Taking a shard out of service loses data: over any config history, the runs keep every
 written key if and only if no assigned shard is ever unassigned (shardkv/server.go
 empties a shard whose new owner is group 0).
 */
module ShardNecessity {
  import opened ShardGroup
  import opened ShardSystem
  import opened ShardSafety

  ghost predicate EndsIn(run: seq<System>, actions: seq<Action>, C: seq<Config>, gids: set<nat>, sys: System) {
    IsHistory(run, actions, C, gids) && run[|actions|] == sys
  }

  ghost predicate Reach(C: seq<Config>, gids: set<nat>, sys: System) {
    exists run, actions :: EndsIn(run, actions, C, gids, sys)
  }

  lemma ReachInit(C: seq<Config>, gids: set<nat>)
    requires Staffed(C, gids)
    ensures Reach(C, gids, Init(C, gids))
  {
    assert EndsIn([Init(C, gids)], [], C, gids, Init(C, gids));
  }

  lemma ReachStep(C: seq<Config>, gids: set<nat>, sys: System, a: Action)
    requires Reach(C, gids, sys) && Enabled(sys, a)
    ensures Reach(C, gids, Do(sys, a))
  {
    var run, actions :| EndsIn(run, actions, C, gids, sys);
    var run', actions' := run + [Do(sys, a)], actions + [a];
    forall k | 0 <= k < |actions'| ensures StepAt(run', actions', k) {
      assert k < |actions| ==> StepAt(run, actions, k);
    }
    assert EndsIn(run', actions', C, gids, Do(sys, a));
  }

  // ----- All groups in step ----------------------------------------------------------

  const EMPTY := Shard(map[], Serving)

  /** Group g halfway from config n to n + 1: shards below t have arrived. */
  function Halfway(C: seq<Config>, n: nat, g: nat, t: nat): (r: Group)
    requires Rows(C) && n + 1 < |C|
    ensures WellFormed(r)
  {
    Group(g, C[n + 1], C[n],
          seq(NSHARDS, s requires 0 <= s < NSHARDS =>
            if s < t then EMPTY else Reassign(EMPTY, g, Owner(C, n, s), Owner(C, n + 1, s))),
          map[])
  }

  function Calm(C: seq<Config>, n: nat, g: nat): (r: Group)
    requires Rows(C) && n < |C|
    ensures WellFormed(r)
  {
    Group(g, C[n], C[if n == 0 then 0 else n - 1], seq(NSHARDS, _ => EMPTY), map[])
  }

  /** Reached without any client. */
  ghost predicate Quiet(C: seq<Config>, gids: set<nat>, sys: System) {
    && Reach(C, gids, sys) && Rows(C)
    && sys.configs == C && |sys.token| == NSHARDS && sys.spec == Spec(map[], {}) && sys.clients == map[]
  }

  /** Groups in `ahead` have taken config n + 1, the others are still at n. */
  function Mixed(C: seq<Config>, gids: set<nat>, n: nat, ahead: set<nat>, t: nat): map<nat, Group>
    requires Rows(C) && n + 1 < |C|
  {
    map g | g in gids :: if g in ahead then Halfway(C, n, g, t) else Calm(C, n, g)
  }

  lemma TakeConfig(C: seq<Config>, gids: set<nat>, sys: System, n: nat, ahead: set<nat>, g: nat) returns (next: System)
    requires Quiet(C, gids, sys) && n + 1 < |C| && g in gids && g !in ahead
    requires sys.groups == Mixed(C, gids, n, ahead, 0)
    ensures Quiet(C, gids, next) && next.groups == Mixed(C, gids, n, ahead + {g}, 0)
  {
    assert sys.groups[g] == Calm(C, n, g);
    var a := ProposeConfig(g);
    ReachStep(C, gids, sys, a);
    var mid := Do(sys, a);
    var b := Apply(g, Configuration(C[n + 1]));
    ReachStep(C, gids, mid, b);
    next := Do(mid, b);
    assert next.groups[g] == Halfway(C, n, g, 0);
  }

  lemma {:induction false} TakeConfigs(C: seq<Config>, gids: set<nat>, sys: System, n: nat, ahead: set<nat>) returns (next: System)
    requires Quiet(C, gids, sys) && n + 1 < |C| && ahead <= gids && sys.groups == Mixed(C, gids, n, ahead, 0)
    ensures Quiet(C, gids, next) && next.groups == Mixed(C, gids, n, gids, 0)
    decreases gids - ahead
  {
    if ahead == gids {
      next := sys;
    } else {
      var g :| g in gids && g !in ahead;
      var mid := TakeConfig(C, gids, sys, n, ahead, g);
      next := TakeConfigs(C, gids, mid, n, ahead + {g});
    }
  }

  // ----- Moving one shard ------------------------------------------------------------

  lemma PullAndInsert(C: seq<Config>, gids: set<nat>, sys: System, n: nat, t: nat, A: nat, B: nat) returns (next: System)
    requires Quiet(C, gids, sys) && n + 1 < |C| && t < NSHARDS && A in gids && B in gids
    requires A == Owner(C, n, t) != Owner(C, n + 1, t) == B && A != 0 && B != 0
    requires sys.groups == Mixed(C, gids, n, gids, t)
    ensures Quiet(C, gids, next)
    ensures next.groups == sys.groups[B := Installed(C, n, B, t)]
  {
    var copy := MakeCopy(sys.groups[A], [t]);
    assert t in [t] && copy.shards == map[t := map[]];
    var a := Pull(A, n + 1, [t]);
    ReachStep(C, gids, sys, a);
    var s1 := Do(sys, a);
    var b := ProposeInsert(B, copy);
    ReachStep(C, gids, s1, b);
    var s2 := Do(s1, b);
    var c := Apply(B, InsertShards(copy));
    ReachStep(C, gids, s2, c);
    next := Do(s2, c);
    assert next.groups[B] == Installed(C, n, B, t);
  }

  lemma AskAndDelete(C: seq<Config>, gids: set<nat>, sys: System, n: nat, t: nat, A: nat, B: nat) returns (next: System)
    requires Quiet(C, gids, sys) && n + 1 < |C| && t < NSHARDS && A in gids && B in gids && A != B
    requires sys.groups.Keys == gids && Owner(C, n, t) == A
    requires WellFormed(sys.groups[A]) && WellFormed(sys.groups[B])
    requires sys.groups[A].currentConfig.num == sys.groups[B].currentConfig.num == n + 1
    requires sys.groups[B].lastConfig == C[n] && sys.groups[B].shards[t].status.GCing?
    ensures Quiet(C, gids, next)
    ensures next.groups == sys.groups[A := ApplyDelete(sys.groups[A], n + 1, [t])][B := ApplyDelete(sys.groups[B], n + 1, [t])]
  {
    var gc := Gc(B, A, n + 1, [t]);
    var a := AskGc(B, A, [t]);
    ReachStep(C, gids, sys, a);
    var s1 := Do(sys, a);
    ReachStep(C, gids, s1, HandleGc(gc));
    var s2 := Do(s1, HandleGc(gc));
    ReachStep(C, gids, s2, FinishGc(gc));
    var s3 := Do(s2, FinishGc(gc));
    assert s3.groups == sys.groups && (A, DeleteShards(n + 1, [t])) in s3.pool && (B, DeleteShards(n + 1, [t])) in s3.pool;
    var b := Apply(A, DeleteShards(n + 1, [t]));
    ReachStep(C, gids, s3, b);
    var s4 := Do(s3, b);
    assert s4.groups[B] == sys.groups[B];
    var c := Apply(B, DeleteShards(n + 1, [t]));
    ReachStep(C, gids, s4, c);
    next := Do(s4, c);
  }

  lemma Settled(C: seq<Config>, n: nat, g: nat, t: nat)
    requires Rows(C) && n + 1 < |C| && t < NSHARDS
    ensures Reassign(EMPTY, g, Owner(C, n, t), Owner(C, n + 1, t)) == EMPTY ==> Halfway(C, n, g, t + 1) == Halfway(C, n, g, t)
  {
  }

  /** Deleting shard t settles both its old and its new owner. */
  lemma Arrived(C: seq<Config>, n: nat, g: nat, t: nat, H: Group)
    requires Rows(C) && n + 1 < |C| && t < NSHARDS && WellFormed(H)
    requires H == Halfway(C, n, g, t) || H == Installed(C, n, g, t)
    requires H.shards[t].status.GCing? || H.shards[t].status.BePulling?
    requires H.shards[t].kv == map[]
    ensures ApplyDelete(H, n + 1, [t]) == Halfway(C, n, g, t + 1)
  {
    assert t in [t];
  }

  /** The new owner once it has shard t but the old owner may still have it. */
  function Installed(C: seq<Config>, n: nat, g: nat, t: nat): (r: Group)
    requires Rows(C) && n + 1 < |C| && t < NSHARDS
    ensures WellFormed(r)
  {
    var H := Halfway(C, n, g, t);
    H.(shards := H.shards[t := Shard(map[], GCing)])
  }

  lemma MoveShard(C: seq<Config>, gids: set<nat>, sys: System, n: nat, t: nat) returns (next: System)
    requires Quiet(C, gids, sys) && Staffed(C, gids) && n + 1 < |C| && t < NSHARDS
    requires sys.groups == Mixed(C, gids, n, gids, t)
    ensures Quiet(C, gids, next) && next.groups == Mixed(C, gids, n, gids, t + 1)
  {
    var A, B := Owner(C, n, t), Owner(C, n + 1, t);
    forall g | g in gids && !(A != 0 && B != 0 && A != B && (g == A || g == B))
      ensures Halfway(C, n, g, t + 1) == Halfway(C, n, g, t)
    {
      Settled(C, n, g, t);
    }
    if A == B || A == 0 || B == 0 {
      next := sys;
    } else {
      var mid := PullAndInsert(C, gids, sys, n, t, A, B);
      next := AskAndDelete(C, gids, mid, n, t, A, B);
      Arrived(C, n, A, t, mid.groups[A]);
      Arrived(C, n, B, t, mid.groups[B]);
    }
  }

  lemma {:induction false} MoveShards(C: seq<Config>, gids: set<nat>, sys: System, n: nat, t: nat) returns (next: System)
    requires Quiet(C, gids, sys) && Staffed(C, gids) && n + 1 < |C| && t <= NSHARDS
    requires sys.groups == Mixed(C, gids, n, gids, t)
    ensures Quiet(C, gids, next) && next.groups == Mixed(C, gids, n, gids, NSHARDS)
    decreases NSHARDS - t
  {
    if t == NSHARDS {
      next := sys;
    } else {
      var mid := MoveShard(C, gids, sys, n, t);
      next := MoveShards(C, gids, mid, n, t + 1);
    }
  }

  /** The system can carry all groups to any config. */
  lemma {:induction false} InStep(C: seq<Config>, gids: set<nat>, n: nat) returns (sys: System)
    requires Staffed(C, gids) && n < |C|
    ensures Quiet(C, gids, sys) && sys.groups == map g | g in gids :: Calm(C, n, g)
  {
    if n == 0 {
      ReachInit(C, gids);
      sys := Init(C, gids);
      assert forall g :: g in gids ==> sys.groups[g] == Calm(C, 0, g);
    } else {
      var was := InStep(C, gids, n - 1);
      assert was.groups == Mixed(C, gids, n - 1, {}, 0);
      var mid := TakeConfigs(C, gids, was, n - 1, {});
      sys := MoveShards(C, gids, mid, n - 1, 0);
      assert forall g :: g in gids ==> sys.groups[g] == Calm(C, n, g);
    }
  }

  // ----- Losing a key ----------------------------------------------------------------

  lemma WriteFirst(C: seq<Config>, gids: set<nat>, sys: System, n: nat, s: nat, A: nat) returns (next: System)
    requires Quiet(C, gids, sys) && n < |C| && s < NSHARDS && A in gids && Owner(C, n, s) == A
    requires sys.groups == map g | g in gids :: Calm(C, n, g)
    ensures Reach(C, gids, next) && next.configs == C && |next.token| == NSHARDS
    ensures next.spec.store == map[[s as Byte] := []]
    ensures next.groups.Keys == gids
    ensures forall g :: g in gids && g != A ==> next.groups[g] == Calm(C, n, g)
    ensures var H := Calm(C, n, A);
            && next.groups[A].currentConfig == C[n] && next.groups[A].gid == A
            && next.groups[A].shards == H.shards[s := Shard(map[[s as Byte] := []], Serving)]
            && WellFormed(next.groups[A])
  {
    var key := [s as Byte];
    var req := Request(key, [], Put, 0, 0);
    assert sys.groups[A] == Calm(C, n, A);
    assert Key2Shard(key) == s;
    var a := Submit(0, key, [], Put);
    ReachStep(C, gids, sys, a);
    var s1 := Do(sys, a);
    assert req in s1.requests;
    var b := ProposeOperation(A, req);
    ReachStep(C, gids, s1, b);
    var s2 := Do(s1, b);
    var c := Apply(A, Operation(req));
    ReachStep(C, gids, s2, c);
    next := Do(s2, c);
  }

  lemma UnassigningLosesKey(C: seq<Config>, gids: set<nat>, n: nat, s: nat) returns (sys: System)
    requires Staffed(C, gids) && n + 1 < |C| && s < NSHARDS && Owner(C, n, s) != 0 == Owner(C, n + 1, s)
    ensures Reach(C, gids, sys) && !KeysKept(sys)
  {
    var A, key := Owner(C, n, s), [s as Byte];
    var calm := InStep(C, gids, n);
    var full := WriteFirst(C, gids, calm, n, s, A);
    assert AllServing(full.groups[A]);
    ReachStep(C, gids, full, ProposeConfig(A));
    var mid := Do(full, ProposeConfig(A));
    var b := Apply(A, Configuration(C[n + 1]));
    ReachStep(C, gids, mid, b);
    sys := Do(mid, b);
    assert key in sys.spec.store && Key2Shard(key) == s;
    assert sys.groups[A].shards[s].kv == map[];
    assert forall g :: g in gids ==> Ready(sys, g) && sys.groups[g].shards[s].kv == map[];
    assert !Kept(sys, key, []);
  }

  /** The runs over a history keep every written key exactly when it unassigns no shard. */
  lemma KeysKeptIff(C: seq<Config>, gids: set<nat>)
    requires Staffed(C, gids)
    ensures NeverUnassigned(C) <==> (forall sys :: Reach(C, gids, sys) ==> KeysKept(sys))
  {
    if NeverUnassigned(C) {
      forall sys | Reach(C, gids, sys) ensures KeysKept(sys) {
        var run, actions :| EndsIn(run, actions, C, gids, sys);
        NoKeyLost(run, actions, C, gids, |actions|);
      }
    } else {
      var n, s :| 0 <= n < |C| - 1 && 0 <= s < NSHARDS && Owner(C, n, s) != 0 && Owner(C, n + 1, s) == 0;
      var sys := UnassigningLosesKey(C, gids, n, s);
    }
  }

  // ----- One group ahead of the others -----------------------------------------------

  /** Group g, with nothing to migrate, takes its next config. */
  lemma Advance(C: seq<Config>, gids: set<nat>, sys: System, g: nat) returns (next: System)
    requires Reach(C, gids, sys) && Rows(C) && sys.configs == C && |sys.token| == NSHARDS && Ready(sys, g)
    requires AllServing(sys.groups[g]) && sys.groups[g].currentConfig.num + 1 < |C|
    ensures Reach(C, gids, next) && next.configs == C && |next.token| == NSHARDS
    ensures next.groups == sys.groups[g := ApplyConfiguration(sys.groups[g], C[sys.groups[g].currentConfig.num + 1])]
  {
    ReachStep(C, gids, sys, ProposeConfig(g));
    var mid := Do(sys, ProposeConfig(g));
    var b := Apply(g, Configuration(C[sys.groups[g].currentConfig.num + 1]));
    ReachStep(C, gids, mid, b);
    next := Do(mid, b);
  }
}
