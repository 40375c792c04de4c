/**
 What every run of the sharded service guarantees, over any config history in which an
 assigned shard is never unassigned again: groups change configuration only when nothing is
 migrating, no written key is lost, and the clients see one linearizable map.  That one
 group serves a shard at a time holds for more histories; see `ShardExclusion`.
 */
module ShardSafety {
  import opened ShardGroup
  import opened ShardSystem
  import opened ShardInvariant
  import opened ShardSteps
  import opened ShardTransfer

  lemma ApplyInv(sys: System, g: nat, command: Command)
    requires Inv(sys) && Enabled(sys, Apply(g, command))
    ensures Inv(DoApply(sys, g, command))
  {
    match command {
      case Operation(req) => OperationInv(sys, g, req);
      case Configuration(config) => ConfigurationInv(sys, g, config);
      case InsertShards(copy) => InsertInv(sys, g, copy);
      case DeleteShards(num, ids) => DeleteInv(sys, g, num, ids);
      case EmptyEntry =>
        assert DoApply(sys, g, command).groups == sys.groups;
        assert DoApply(sys, g, command) == sys;
    }
  }

  lemma StepKeepsInv(sys: System, a: Action)
    requires Inv(sys) && Enabled(sys, a)
    ensures Inv(Do(sys, a))
  {
    match a {
      case ProposeConfig(g) => ProposeConfigInv(sys, g);
      case Pull(g, num, ids) => PullInv(sys, g, num, ids);
      case ProposeInsert(g, copy) => ProposeInv(sys, g, InsertShards(copy));
      case AskGc(g, to, ids) => AskGcInv(sys, g, to, ids);
      case HandleGc(gc) => HandleGcInv(sys, gc);
      case FinishGc(gc) => ProposeInv(sys, gc.from, DeleteShards(gc.num, gc.ids));
      case Submit(client, key, value, op) => SubmitInv(sys, client, key, value, op);
      case ProposeOperation(g, req) => ProposeInv(sys, g, Operation(req));
      case ProposeEmpty(g) => ProposeInv(sys, g, EmptyEntry);
      case Apply(g, command) => ApplyInv(sys, g, command);
      case AnswerDuplicate(g, req) => AnswerDuplicateInv(sys, g, req);
      case Complete(client, response) => CompleteInv(sys, client, response);
    }
  }

  lemma {:induction false} RunInv(run: seq<System>, actions: seq<Action>, C: seq<Config>, gids: set<nat>, k: nat)
    requires IsRun(run, actions, C, gids) && k < |run|
    ensures Inv(run[k])
  {
    if k == 0 {
      InitInv(C, gids);
    } else {
      RunInv(run, actions, C, gids, k - 1);
      assert StepAt(run, actions, k - 1);
      StepKeepsInv(run[k - 1], actions[k - 1]);
    }
  }

  // ----- Ownership -------------------------------------------------------------------

  /** Whoever serves a shard serves exactly the keys the single map has there. */
  lemma ServesTheMap(run: seq<System>, actions: seq<Action>, C: seq<Config>, gids: set<nat>, k: nat, g: nat, s: nat)
    requires IsRun(run, actions, C, gids) && k < |run| && s < NSHARDS
    requires Ready(run[k], g) && CanServe(run[k].groups[g], s)
    ensures run[k].groups[g].shards[s].kv == Restrict(run[k].spec.store, s)
  {
    RunInv(run, actions, C, gids, k);
    ServerIsHolder(run[k], g, s);
  }

  /** A group takes a configuration only with every shard served, and only the next one. */
  lemma ConfigChangesWhenServing(run: seq<System>, actions: seq<Action>, C: seq<Config>, gids: set<nat>, k: nat, g: nat)
    requires IsRun(run, actions, C, gids) && k < |actions|
    ensures run[k].groups.Keys == run[k + 1].groups.Keys == gids
    ensures g in gids && run[k].groups[g].currentConfig != run[k + 1].groups[g].currentConfig ==>
              && AllServing(run[k].groups[g])
              && run[k].groups[g].currentConfig.num + 1 < |C|
              && run[k + 1].groups[g].currentConfig == C[run[k].groups[g].currentConfig.num + 1]
              && run[k + 1].groups[g].lastConfig == run[k].groups[g].currentConfig
  {
    RunInv(run, actions, C, gids, k);
    SameConfigs(run, actions, C, gids, k);
    assert StepAt(run, actions, k);
    var a := actions[k];
    if a.Apply? && a.command.Configuration? {
      ConfigurationInv(run[k], a.g, a.command.config);
      var x := (a.g, a.command);
      assert CommandOK(run[k], x.0, x.1);
    }
  }

  lemma {:induction false} SameConfigs(run: seq<System>, actions: seq<Action>, C: seq<Config>, gids: set<nat>, k: nat)
    requires IsHistory(run, actions, C, gids) && k < |run|
    ensures run[k].configs == C && run[k].groups.Keys == gids
  {
    if k > 0 {
      SameConfigs(run, actions, C, gids, k - 1);
      assert StepAt(run, actions, k - 1);
    }
  }

  // ----- No key is lost --------------------------------------------------------------

  /** If the epoch that starts at e is over by n, there is a config that ended it. */
  lemma {:induction false} EpochEnd(C: seq<Config>, e: nat, n: nat, s: nat) returns (m: nat)
    requires Rows(C) && e <= n < |C| && s < NSHARDS && Start(C, e, s) == e && Start(C, n, s) != e
    ensures e <= m < n && Start(C, m, s) == e && Owner(C, m + 1, s) != Owner(C, m, s)
  {
    if Start(C, n - 1, s) == e {
      m := n - 1;
    } else {
      m := EpochEnd(C, e, n - 1, s);
    }
  }

  /** The holder still has the shard, unless nothing was ever written there. */
  lemma HolderHasData(sys: System, s: nat)
    requires Inv(sys) && s < NSHARDS
    ensures Untouched(s, sys.spec) ||
            exists g :: g in sys.groups && Ready(sys, g) && sys.groups[g].shards[s].kv == Restrict(sys.spec.store, s)
  {
    var C, e := sys.configs, sys.token[s];
    assert TokenOK(C, sys.groups, s, e, sys.spec);
    if !Untouched(s, sys.spec) {
      var A := Owner(C, e, s);
      var k := sys.groups[A].currentConfig.num;
      assert GroupOK(C, sys.groups[A], sys.token, sys.spec);
      assert ShardOK(C, sys.groups[A], s, e, sys.spec);
      if Start(C, k, s) != e {
        var m := EpochEnd(C, e, k, s);
        assert NumOf(sys.groups, A) <= m + 1;
      }
      assert Ready(sys, A) && sys.groups[A].shards[s].kv == Restrict(sys.spec.store, s);
    }
  }

  /** Every key of the single map is, with its value, in some group's copy of its shard. */
  predicate KeysKept(sys: System) {
    forall k :: k in sys.spec.store ==> Kept(sys, k, sys.spec.store[k])
  }

  predicate Kept(sys: System, key: Str, value: Str) {
    exists g :: g in sys.groups && Ready(sys, g) && key in sys.groups[g].shards[Key2Shard(key)].kv
                && sys.groups[g].shards[Key2Shard(key)].kv[key] == value
  }

  lemma NoKeyLost(run: seq<System>, actions: seq<Action>, C: seq<Config>, gids: set<nat>, k: nat)
    requires IsRun(run, actions, C, gids) && k < |run|
    ensures KeysKept(run[k])
  {
    RunInv(run, actions, C, gids, k);
    var sys := run[k];
    forall key | key in sys.spec.store ensures Kept(sys, key, sys.spec.store[key]) {
      var s := Key2Shard(key);
      assert key in Restrict(sys.spec.store, s);
      HolderHasData(sys, s);
    }
  }

  // ----- Linearizability -------------------------------------------------------------

  /** Step j performs req on the single map and yields its response. */
  predicate Performs(run: seq<System>, actions: seq<Action>, j: nat, req: Request, response: Response)
    requires |run| == |actions| + 1
  {
    && j < |actions| && actions[j].Apply? && actions[j].command == Operation(req)
    && req in run[j].requests
    && SpecApply(run[j].spec, req) == (run[j + 1].spec, response)
  }

  predicate Issues(run: seq<System>, actions: seq<Action>, i: nat, req: Request)
    requires |run| == |actions| + 1
  {
    && i < |actions| && actions[i].Submit? && actions[i].client == req.client
    && req.client in run[i + 1].clients && run[i + 1].clients[req.client] == Waiting(req)
  }

  /** A served operation acts on the single map and answers as it does. */
  lemma ServedOperation(sys: System, g: nat, req: Request)
    requires Inv(sys) && Enabled(sys, Apply(g, Operation(req)))
    requires Served(ApplyOperation(sys.groups[g], req).1)
    ensures req in sys.requests
    ensures SpecApply(sys.spec, req) == (DoApply(sys, g, Operation(req)).spec, ApplyOperation(sys.groups[g], req).1)
  {
    var x := (g, Operation(req));
    assert CommandOK(sys, x.0, x.1);
    if ShardTransfer.Performs(sys, g, req) {
      WriteInv(sys, g, req);
    } else {
      ReadInv(sys, g, req);
    }
  }

  /** The single map changes only where an operation is performed. */
  lemma SpecMoves(run: seq<System>, actions: seq<Action>, C: seq<Config>, gids: set<nat>, j: nat)
    requires IsRun(run, actions, C, gids) && j < |actions|
    ensures run[j + 1].spec == run[j].spec ||
            (actions[j].Apply? && actions[j].command.Operation? &&
             Performs(run, actions, j, actions[j].command.req, SpecApply(run[j].spec, actions[j].command.req).1))
  {
    RunInv(run, actions, C, gids, j);
    assert StepAt(run, actions, j);
    var a := actions[j];
    if a.Apply? && a.command.Operation? && Served(ApplyOperation(run[j].groups[a.g], a.command.req).1) {
      ServedOperation(run[j], a.g, a.command.req);
    }
  }

  lemma {:induction false} DoneWasPerformed(run: seq<System>, actions: seq<Action>, C: seq<Config>, gids: set<nat>, k: nat, req: Request)
      returns (j: nat)
    requires IsRun(run, actions, C, gids) && k < |run| && req in run[k].spec.done
    ensures j < k && Performs(run, actions, j, req, Response(OK, []))
  {
    assert k > 0;
    if req in run[k - 1].spec.done {
      j := DoneWasPerformed(run, actions, C, gids, k - 1, req);
    } else {
      SpecMoves(run, actions, C, gids, k - 1);
      j := k - 1;
    }
  }

  lemma {:induction false} ReplyWasPerformed(run: seq<System>, actions: seq<Action>, C: seq<Config>, gids: set<nat>, k: nat,
                                             req: Request, response: Response) returns (j: nat)
    requires IsRun(run, actions, C, gids) && k < |run| && (req, response) in run[k].replies
    ensures j < k && Performs(run, actions, j, req, response)
  {
    assert k > 0;
    assert StepAt(run, actions, k - 1);
    RunInv(run, actions, C, gids, k - 1);
    var sys, a := run[k - 1], actions[k - 1];
    if (req, response) in sys.replies {
      j := ReplyWasPerformed(run, actions, C, gids, k - 1, req, response);
    } else if a.Apply? {
      ServedOperation(sys, a.g, req);
      j := k - 1;
    } else {
      assert GroupOK(sys.configs, sys.groups[a.g], sys.token, sys.spec);
      DuplicateIsDone(sys, sys.groups[a.g].lastOps, req);
      j := DoneWasPerformed(run, actions, C, gids, k - 1, req);
    }
  }

  lemma {:induction false} RequestsGrow(run: seq<System>, actions: seq<Action>, C: seq<Config>, gids: set<nat>, i: nat, j: nat)
    requires IsHistory(run, actions, C, gids) && i <= j < |run|
    ensures run[i].requests <= run[j].requests && run[i].spec.done <= run[j].spec.done
  {
    if i < j {
      RequestsGrow(run, actions, C, gids, i, j - 1);
      assert StepAt(run, actions, j - 1);
    }
  }

  /** A command id is issued once. */
  lemma IssuedOnce(run: seq<System>, actions: seq<Action>, C: seq<Config>, gids: set<nat>, i: nat, req: Request)
    requires IsRun(run, actions, C, gids) && Issues(run, actions, i, req)
    ensures req !in run[i].requests
  {
    RunInv(run, actions, C, gids, i);
    assert StepAt(run, actions, i);
    assert req in run[i].requests ==> RequestOK(run[i], req);
  }

  /** Each completed call took effect on the single map at one step between its call and
      its return, and returned what the map answered there. */
  lemma Linearizable(run: seq<System>, actions: seq<Action>, C: seq<Config>, gids: set<nat>, k: nat, client: int, response: Response)
      returns (j: nat)
    requires IsRun(run, actions, C, gids) && k < |actions| && actions[k] == Complete(client, response)
    ensures client in run[k].clients && run[k].clients[client].Waiting?
    ensures var req := run[k].clients[client].req;
            && j < k && Performs(run, actions, j, req, response)
            && (forall i: nat :: Issues(run, actions, i, req) ==> i < j)
  {
    assert StepAt(run, actions, k);
    var req := run[k].clients[client].req;
    j := ReplyWasPerformed(run, actions, C, gids, k, req, response);
    forall i: nat | Issues(run, actions, i, req) ensures i < j {
      IssuedOnce(run, actions, C, gids, i, req);
      if j <= i {
        RequestsGrow(run, actions, C, gids, j, i);
      }
    }
  }

  /** However often a write is sent, retried and migrated, it changes the map once. */
  lemma WrittenOnce(run: seq<System>, actions: seq<Action>, C: seq<Config>, gids: set<nat>, i: nat, j: nat, req: Request)
    requires IsRun(run, actions, C, gids) && i < j < |actions|
    requires actions[i].Apply? && actions[i].command == Operation(req) && run[i + 1].spec != run[i].spec
    requires actions[j].Apply? && actions[j].command == Operation(req)
    ensures run[j + 1].spec == run[j].spec
  {
    SpecMoves(run, actions, C, gids, i);
    SpecMoves(run, actions, C, gids, j);
    RequestsGrow(run, actions, C, gids, i + 1, j);
  }
}
