/**
 Every action keeps the invariant of the migration protocol.
 */
module ShardSteps {
  import opened ShardGroup
  import opened ShardSystem
  import opened ShardInvariant

  // ----- Actions that change no group ------------------------------------------------

  /** Groups, token, configs and single map are untouched. */
  predicate SameCore(sys: System, sys': System) {
    && sys'.configs == sys.configs && sys'.groups == sys.groups && sys'.token == sys.token
    && sys'.spec == sys.spec
    && sys.copies <= sys'.copies && sys.requests <= sys'.requests
  }

  lemma CommandsFrame(sys: System, sys': System)
    requires Inv(sys) && SameCore(sys, sys')
    ensures forall x {:trigger CommandOK(sys', x.0, x.1)} :: x in sys.pool ==> CommandOK(sys', x.0, x.1)
  {
    forall x | x in sys.pool ensures CommandOK(sys', x.0, x.1) {
      assert CommandOK(sys, x.0, x.1);
    }
  }

  lemma CopiesFrame(sys: System, sys': System)
    requires Inv(sys) && SameCore(sys, sys')
    ensures |sys'.token| == NSHARDS && Rows(sys'.configs)
    ensures forall c {:trigger CopyOK(sys', c)} :: c in sys.copies ==> CopyOK(sys', c)
  {
    forall c | c in sys.copies ensures CopyOK(sys', c) {
      assert CopyOK(sys, c);
    }
  }

  lemma QuietInv(sys: System, sys': System)
    requires Inv(sys) && SameCore(sys, sys') && |sys'.token| == NSHARDS && Rows(sys'.configs)
    requires forall c {:trigger CopyOK(sys', c)} :: c in sys'.copies && c !in sys.copies ==> CopyOK(sys', c)
    requires forall x {:trigger CommandOK(sys', x.0, x.1)} :: x in sys'.pool && x !in sys.pool ==> CommandOK(sys', x.0, x.1)
    requires forall gc :: gc in sys'.gcs || gc in sys'.cleared ==> gc.from in sys.groups && Passed(sys.token, gc.num, gc.ids)
    requires ClientsOK(sys')
    ensures Inv(sys')
  {
    CommandsFrame(sys, sys');
    CopiesFrame(sys, sys');
  }

  lemma ProposeInv(sys: System, g: nat, command: Command)
    requires Inv(sys) && CommandOK(sys, g, command)
    ensures Inv(Propose(sys, g, command))
  {
    var sys' := Propose(sys, g, command);
    assert CommandOK(sys', g, command);
    QuietInv(sys, sys');
  }

  lemma ProposeConfigInv(sys: System, g: nat)
    requires Inv(sys) && Enabled(sys, ProposeConfig(g))
    ensures Inv(Do(sys, ProposeConfig(g)))
  {
    var k := sys.groups[g].currentConfig.num;
    assert GroupOK(sys.configs, sys.groups[g], sys.token, sys.spec);
    assert CommandOK(sys, g, Configuration(sys.configs[k + 1]));
    ProposeInv(sys, g, Configuration(sys.configs[k + 1]));
  }

  lemma PullInv(sys: System, g: nat, num: nat, ids: seq<nat>)
    requires Inv(sys) && Enabled(sys, Pull(g, num, ids))
    ensures Inv(Do(sys, Pull(g, num, ids)))
  {
    var copy, sys' := MakeCopy(sys.groups[g], ids), Do(sys, Pull(g, num, ids));
    assert GroupOK(sys.configs, sys.groups[g], sys.token, sys.spec);
    assert CopyOK(sys', copy) by {
      forall s | s in copy.shards ensures s < NSHARDS && ShardOK(sys.configs, sys.groups[g], s, sys.token[s], sys.spec) {
      }
    }
    QuietInv(sys, sys');
  }

  lemma AskGcInv(sys: System, g: nat, to: nat, ids: seq<nat>)
    requires Inv(sys) && Enabled(sys, AskGc(g, to, ids))
    ensures Inv(Do(sys, AskGc(g, to, ids)))
  {
    assert GroupOK(sys.configs, sys.groups[g], sys.token, sys.spec);
    forall s | s in ids ensures s < NSHARDS && sys.groups[g].currentConfig.num <= sys.token[s] {
      assert ShardOK(sys.configs, sys.groups[g], s, sys.token[s], sys.spec);
    }
    QuietInv(sys, Do(sys, AskGc(g, to, ids)));
  }

  lemma HandleGcInv(sys: System, gc: Gc)
    requires Inv(sys) && Enabled(sys, HandleGc(gc))
    ensures Inv(Do(sys, HandleGc(gc)))
  {
    var sys' := Do(sys, HandleGc(gc));
    assert CommandOK(sys', gc.to, DeleteShards(gc.num, gc.ids));
    QuietInv(sys, sys');
  }

  lemma SubmitInv(sys: System, client: int, key: Str, value: Str, op: OpKind)
    requires Inv(sys) && Enabled(sys, Submit(client, key, value, op))
    ensures Inv(Do(sys, Submit(client, key, value, op)))
  {
    var sys' := DoSubmit(sys, client, key, value, op);
    var req := Request(key, value, op, client, NextCommand(sys, client));
    assert forall r :: r in sys.requests ==> RequestOK(sys, r);
    forall r | r in sys'.requests ensures RequestOK(sys', r) {
      if r != req {
        assert RequestOK(sys, r);
      }
    }
    QuietInv(sys, sys');
  }

  lemma CompleteInv(sys: System, client: int, response: Response)
    requires Inv(sys) && Enabled(sys, Complete(client, response))
    ensures Inv(Do(sys, Complete(client, response)))
  {
    var sys' := Do(sys, Complete(client, response));
    forall r | r in sys'.requests ensures RequestOK(sys', r) {
      assert RequestOK(sys, r);
    }
    QuietInv(sys, sys');
  }

  lemma AnswerDuplicateInv(sys: System, g: nat, req: Request)
    requires Inv(sys) && Enabled(sys, AnswerDuplicate(g, req))
    ensures Inv(Do(sys, AnswerDuplicate(g, req)))
  {
    var sys' := Do(sys, AnswerDuplicate(g, req));
    assert GroupOK(sys.configs, sys.groups[g], sys.token, sys.spec);
    DuplicateIsDone(sys, sys.groups[g].lastOps, req);
    assert forall r :: r in sys.requests ==> RequestOK(sys, r) && RequestOK(sys', r);
    QuietInv(sys, sys');
  }

  /** The table refuses only writes that were performed: the client is sequential. */
  lemma DuplicateIsDone(sys: System, ops: OpTable, req: Request)
    requires ClientsOK(sys) && TableOK(ops, sys.spec.done) && req in sys.requests && !req.op.Get?
    requires req.client in ops && req.command <= ops[req.client].maxApplied
    ensures req in sys.spec.done
  {
    assert Recorded(sys.spec.done, req.client, ops[req.client].maxApplied);
    var r :| r in sys.spec.done && r.client == req.client && r.command == ops[req.client].maxApplied;
    assert RequestOK(sys, req) && RequestOK(sys, r);
  }

  // ----- A group moves ---------------------------------------------------------------

  /** What has to be shown when group g moves, possibly with the token and the single map. */
  ghost predicate GroupMove(sys: System, sys': System, g: nat) {
    && g in sys.groups && sys'.configs == sys.configs && |sys'.token| == NSHARDS
    && sys'.groups.Keys == sys.groups.Keys
    && (forall h :: h in sys.groups && h != g ==> sys'.groups[h] == sys.groups[h])
    && sys'.groups[g].gid == g
    && sys.groups[g].currentConfig.num <= sys'.groups[g].currentConfig.num
    && sys'.pool == sys.pool && sys'.copies == sys.copies && sys'.gcs == sys.gcs && sys'.cleared == sys.cleared
    && sys'.clients == sys.clients && sys'.requests == sys.requests
    && (forall s :: 0 <= s < NSHARDS ==> |sys.token| == NSHARDS && sys.token[s] <= sys'.token[s])
    && sys.spec.done <= sys'.spec.done
  }

  lemma MovedCommand(sys: System, sys': System, g: nat, h: nat, command: Command)
    requires Inv(sys) && GroupMove(sys, sys', g) && CommandOK(sys, h, command)
    requires AllServing(sys.groups[g]) ==>
               sys'.groups[g].currentConfig.num > sys.groups[g].currentConfig.num || AllServing(sys'.groups[g])
    ensures CommandOK(sys', h, command)
  {
  }

  lemma TableFrame(ops: OpTable, done: set<Request>, done': set<Request>)
    requires TableOK(ops, done) && done <= done'
    ensures TableOK(ops, done')
  {
    forall c | c in ops ensures Recorded(done', c, ops[c].maxApplied) {
      assert Recorded(done, c, ops[c].maxApplied);
    }
  }

  lemma MoveInv(sys: System, sys': System, g: nat)
    requires Inv(sys) && GroupMove(sys, sys', g)
    requires AllServing(sys.groups[g]) ==>
               sys'.groups[g].currentConfig.num > sys.groups[g].currentConfig.num || AllServing(sys'.groups[g])
    requires forall h {:trigger GroupOK(sys'.configs, sys'.groups[h], sys'.token, sys'.spec)} ::
               h in sys'.groups ==> GroupOK(sys'.configs, sys'.groups[h], sys'.token, sys'.spec)
    requires Rows(sys'.configs)
    requires forall s {:trigger TokenOK(sys'.configs, sys'.groups, s, sys'.token[s], sys'.spec)} ::
               0 <= s < NSHARDS ==> TokenOK(sys'.configs, sys'.groups, s, sys'.token[s], sys'.spec)
    requires forall c {:trigger CopyOK(sys', c)} :: c in sys'.copies ==> CopyOK(sys', c)
    requires ClientsOK(sys')
    ensures Inv(sys')
  {
    forall x | x in sys'.pool ensures CommandOK(sys', x.0, x.1) {
      assert CommandOK(sys, x.0, x.1);
      MovedCommand(sys, sys', g, x.0, x.1);
    }
  }

  // ----- A new configuration ---------------------------------------------------------

  /** What the token allows when a served group takes config k + 1. */
  predicate MayAdvance(C: seq<Config>, gid: nat, k: nat, s: nat, e: nat, spec: Spec)
    requires Rows(C) && s < NSHARDS && k + 1 < |C|
  {
    && (Owner(C, k, s) == gid ==> e == Start(C, k, s))
    && (Owner(C, k, s) != gid && Owner(C, k + 1, s) == gid ==>
          if Owner(C, k, s) == 0 then e == k + 1 && Untouched(s, spec) else e < k + 1)
  }

  lemma TokenAllows(sys: System, g: nat, s: nat)
    requires Inv(sys) && g in sys.groups && s < NSHARDS
    requires Positioned(sys.configs, sys.groups[g]) && AllServing(sys.groups[g])
    requires sys.groups[g].currentConfig.num + 1 < |sys.configs|
    ensures MayAdvance(sys.configs, g, sys.groups[g].currentConfig.num, s, sys.token[s], sys.spec)
  {
    var C, e, k := sys.configs, sys.token[s], sys.groups[g].currentConfig.num;
    assert TokenOK(C, sys.groups, s, e, sys.spec);
    if Owner(C, k, s) == g {
      assert CanServe(sys.groups[g], s);
      ServerIsHolder(sys, g, s);
    } else if Owner(C, k + 1, s) == g {
      // The token cannot have reached a config this group has not.
      assert e <= k + 1;
      if Owner(C, k, s) == 0 {
        FirstOwner(C, k + 1, e, s);
      }
    }
  }

  lemma ReassignedCore(C: seq<Config>, G: Group, s: nat, e: nat, spec: Spec, g': Group)
    requires Positioned(C, G) && AllServing(G) && G.currentConfig.num + 1 < |C| && s < NSHARDS
    requires NeverUnassigned(C) && ShardOK(C, G, s, e, spec)
    requires MayAdvance(C, G.gid, G.currentConfig.num, s, e, spec)
    requires g' == ApplyConfiguration(G, C[G.currentConfig.num + 1])
    ensures Positioned(C, g') && ShardOK(C, g', s, e, spec)
  {
    assert g'.shards[s] == Reassign(G.shards[s], G.gid, Owner(C, G.currentConfig.num, s), Owner(C, G.currentConfig.num + 1, s));
  }

  /** The shard of a group that goes from config k to k + 1 with everything Serving. */
  lemma ReassignedOK(sys: System, g: nat, s: nat, g': Group)
    requires Inv(sys) && g in sys.groups && s < NSHARDS
    requires Positioned(sys.configs, sys.groups[g]) && AllServing(sys.groups[g])
    requires sys.groups[g].currentConfig.num + 1 < |sys.configs|
    requires g' == ApplyConfiguration(sys.groups[g], sys.configs[sys.groups[g].currentConfig.num + 1])
    ensures Positioned(sys.configs, g') && ShardOK(sys.configs, g', s, sys.token[s], sys.spec)
  {
    assert GroupOK(sys.configs, sys.groups[g], sys.token, sys.spec);
    assert ShardOK(sys.configs, sys.groups[g], s, sys.token[s], sys.spec);
    TokenAllows(sys, g, s);
    ReassignedCore(sys.configs, sys.groups[g], s, sys.token[s], sys.spec, g');
  }

  /** A token at the first assignment of a shard stands exactly there. */
  lemma FirstOwner(C: seq<Config>, n: nat, e: nat, s: nat)
    requires NeverUnassigned(C) && 0 < n < |C| && s < NSHARDS && Owner(C, n - 1, s) == 0 && e <= n
    requires 0 < e && Owner(C, e, s) != 0
    ensures e == n
  {
    if e < n {
      StaysAssigned(C, e, n - 1, s);
    }
  }

  /** A group keeps its config, or takes the next one with every shard served. */
  predicate Advances(G: Group, num: nat) {
    num == G.currentConfig.num || (num == G.currentConfig.num + 1 && AllServing(G))
  }

  /** A served group that moves on has handed over what it had to hand over. */
  lemma HandedOver(sys: System, g: nat, s: nat, m: nat)
    requires Inv(sys) && g in sys.groups && s < NSHARDS && AllServing(sys.groups[g])
    requires sys.token[s] <= m < |sys.configs| - 1 && Start(sys.configs, m, s) == sys.token[s]
    requires Owner(sys.configs, m, s) == g != Owner(sys.configs, m + 1, s)
    ensures sys.groups[g].currentConfig.num <= m
  {
    assert GroupOK(sys.configs, sys.groups[g], sys.token, sys.spec);
    assert ShardOK(sys.configs, sys.groups[g], s, sys.token[s], sys.spec);
    assert TokenOK(sys.configs, sys.groups, s, sys.token[s], sys.spec);
    assert sys.groups[g].currentConfig.num <= m + 1;
  }

  lemma TokenAfterMove(sys: System, groups': map<nat, Group>, g: nat, s: nat)
    requires Inv(sys) && g in sys.groups && s < NSHARDS && groups'.Keys == sys.groups.Keys
    requires forall h :: h in sys.groups && h != g ==> groups'[h].currentConfig.num == sys.groups[h].currentConfig.num
    requires Advances(sys.groups[g], groups'[g].currentConfig.num)
    ensures TokenOK(sys.configs, groups', s, sys.token[s], sys.spec)
  {
    var C, e := sys.configs, sys.token[s];
    assert TokenOK(C, sys.groups, s, e, sys.spec);
    forall n | 0 <= n < e && Owner(C, n, s) != 0 ensures NumOf(groups', Owner(C, n, s)) > n {
      assert NumOf(sys.groups, Owner(C, n, s)) > n;
    }
    forall m | e <= m < |C| - 1 && Start(C, m, s) == e && Owner(C, m + 1, s) != Owner(C, m, s)
      ensures NumOf(groups', Owner(C, e, s)) <= m + 1
    {
      if Owner(C, m, s) == g && AllServing(sys.groups[g]) {
        HandedOver(sys, g, s, m);
      }
    }
  }

  lemma CopyAfterConfig(sys: System, sys': System, g: nat, c: Copy)
    requires Inv(sys) && GroupMove(sys, sys', g) && sys'.token == sys.token && sys'.spec == sys.spec
    requires WellFormed(sys.groups[g]) && AllServing(sys.groups[g]) && c in sys.copies
    ensures Rows(sys'.configs) && CopyOK(sys', c)
  {
    assert CopyOK(sys, c);
    forall s | s in c.shards && !(c.num <= sys.token[s])
      ensures c.num > 0 && s < NSHARDS
      ensures SourceHolds(sys'.configs, sys'.groups, c.num, s, sys'.token[s], c.shards[s], c.ops, sys'.spec)
    {
      assert Owner(sys.configs, c.num - 1, s) != g;
    }
  }

  /** Only group g changes; token and single map stay. */
  lemma GroupsAfter(sys: System, g: nat, g': Group, h: nat)
    requires Inv(sys) && g in sys.groups && GroupOK(sys.configs, g', sys.token, sys.spec) && h in sys.groups
    ensures GroupOK(sys.configs, sys.groups[g := g'][h], sys.token, sys.spec)
  {
    assert GroupOK(sys.configs, sys.groups[h], sys.token, sys.spec);
  }

  lemma SameClients(sys: System, sys': System)
    requires ClientsOK(sys) && sys'.clients == sys.clients && sys'.requests == sys.requests
    requires sys'.replies == sys.replies && sys'.spec == sys.spec
    ensures ClientsOK(sys')
  {
    assert forall r :: r in sys.requests ==> RequestOK(sys, r) && RequestOK(sys', r);
  }

  /** A group moves without token or single map, and copies stay valid. */
  lemma LocalMoveInv(sys: System, sys': System, g: nat, g': Group)
    requires Inv(sys) && g in sys.groups && sys' == sys.(groups := sys.groups[g := g'])
    requires g'.gid == g && Advances(sys.groups[g], g'.currentConfig.num)
    requires AllServing(sys.groups[g]) ==>
               g'.currentConfig.num > sys.groups[g].currentConfig.num || AllServing(g')
    requires GroupOK(sys.configs, g', sys.token, sys.spec)
    requires forall c {:trigger CopyOK(sys', c)} :: c in sys.copies ==> CopyOK(sys', c)
    ensures Inv(sys')
  {
    forall h | h in sys'.groups ensures GroupOK(sys'.configs, sys'.groups[h], sys'.token, sys'.spec) {
      GroupsAfter(sys, g, g', h);
    }
    forall s | 0 <= s < NSHARDS ensures TokenOK(sys'.configs, sys'.groups, s, sys'.token[s], sys'.spec) {
      TokenAfterMove(sys, sys'.groups, g, s);
    }
    SameClients(sys, sys');
    assert sys'.groups.Keys == sys.groups.Keys;
    MoveInv(sys, sys', g);
  }

  lemma ReconfiguredOK(sys: System, g: nat, g': Group)
    requires Inv(sys) && g in sys.groups
    requires Positioned(sys.configs, sys.groups[g]) && AllServing(sys.groups[g])
    requires sys.groups[g].currentConfig.num + 1 < |sys.configs|
    requires g' == ApplyConfiguration(sys.groups[g], sys.configs[sys.groups[g].currentConfig.num + 1])
    ensures GroupOK(sys.configs, g', sys.token, sys.spec)
  {
    assert GroupOK(sys.configs, sys.groups[g], sys.token, sys.spec);
    forall s | 0 <= s < NSHARDS
      ensures Positioned(sys.configs, g') && ShardOK(sys.configs, g', s, sys.token[s], sys.spec)
    {
      ReassignedOK(sys, g, s, g');
    }
    assert 0 <= 0 < NSHARDS && ShardOK(sys.configs, g', 0, sys.token[0], sys.spec);
  }

  lemma ConfigurationInv(sys: System, g: nat, config: Config)
    requires Inv(sys) && Ready(sys, g) && (g, Configuration(config)) in sys.pool && |config.shards| == NSHARDS
    ensures Inv(DoApply(sys, g, Configuration(config)))
    ensures config.num == sys.groups[g].currentConfig.num + 1 ==> AllServing(sys.groups[g])
  {
    var sys', G := DoApply(sys, g, Configuration(config)), sys.groups[g];
    var x := (g, Configuration(config));
    assert CommandOK(sys, x.0, x.1);
    assert GroupOK(sys.configs, G, sys.token, sys.spec);
    if config.num == G.currentConfig.num + 1 {
      ReconfiguredOK(sys, g, sys'.groups[g]);
      assert GroupMove(sys, sys', g);
      forall c | c in sys.copies ensures CopyOK(sys', c) {
        CopyAfterConfig(sys, sys', g, c);
      }
      LocalMoveInv(sys, sys', g, sys'.groups[g]);
    } else {
      assert sys'.groups == sys.groups;
      assert sys' == sys;
    }
  }

  // ----- Garbage collection ----------------------------------------------------------

  lemma DeletedOK(sys: System, g: nat, num: nat, ids: seq<nat>, g': Group)
    requires Inv(sys) && Ready(sys, g) && Passed(sys.token, num, ids) && num == sys.groups[g].currentConfig.num
    requires g' == ApplyDelete(sys.groups[g], num, ids)
    ensures GroupOK(sys.configs, g', sys.token, sys.spec)
  {
    var G := sys.groups[g];
    assert GroupOK(sys.configs, G, sys.token, sys.spec);
    forall s | 0 <= s < NSHARDS ensures ShardOK(sys.configs, g', s, sys.token[s], sys.spec) {
      assert ShardOK(sys.configs, G, s, sys.token[s], sys.spec);
    }
  }

  lemma CopyAfterDelete(sys: System, sys': System, g: nat, num: nat, ids: seq<nat>, c: Copy)
    requires Inv(sys) && Ready(sys, g) && Passed(sys.token, num, ids) && num == sys.groups[g].currentConfig.num
    requires sys' == sys.(groups := sys.groups[g := ApplyDelete(sys.groups[g], num, ids)]) && c in sys.copies
    ensures CopyOK(sys', c)
  {
    assert CopyOK(sys, c);
    forall s | s in c.shards && !(c.num <= sys.token[s])
      ensures c.num > 0 && s < NSHARDS
      ensures SourceHolds(sys'.configs, sys'.groups, c.num, s, sys'.token[s], c.shards[s], c.ops, sys'.spec)
    {
      assert Owner(sys.configs, c.num - 1, s) == g ==> s !in ids;
    }
  }

  lemma DeleteInv(sys: System, g: nat, num: nat, ids: seq<nat>)
    requires Inv(sys) && Ready(sys, g) && (g, DeleteShards(num, ids)) in sys.pool
    ensures Inv(DoApply(sys, g, DeleteShards(num, ids)))
  {
    var sys', G := DoApply(sys, g, DeleteShards(num, ids)), sys.groups[g];
    var x := (g, DeleteShards(num, ids));
    assert CommandOK(sys, x.0, x.1);
    if num == G.currentConfig.num {
      DeletedOK(sys, g, num, ids, sys'.groups[g]);
      forall c | c in sys.copies ensures CopyOK(sys', c) {
        CopyAfterDelete(sys, sys', g, num, ids, c);
      }
      LocalMoveInv(sys, sys', g, sys'.groups[g]);
    } else {
      assert sys'.groups == sys.groups;
      assert sys' == sys;
    }
  }
}
