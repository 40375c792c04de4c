/**
 The groups can always settle: from every state of every run, over any config history, the
 protocol's own steps lead to one in which all groups are at the last configuration and
 serve (shardkv/server.go).
 */
module ShardSettles {
  import opened ShardGroup
  import opened ShardSystem
  import opened ShardProgress
  import I = ShardInvariant

  // ----- Runs ------------------------------------------------------------------------

  function Last<T>(s: seq<T>): T
    requires s != []
  {
    s[|s| - 1]
  }

  ghost predicate Extends(run: seq<System>, actions: seq<Action>, longer: seq<System>, more: seq<Action>,
                          C: seq<Config>, gids: set<nat>) {
    run <= longer && actions <= more && IsHistory(longer, more, C, gids)
  }

  lemma OneStep(run: seq<System>, actions: seq<Action>, C: seq<Config>, gids: set<nat>, a: Action)
      returns (longer: seq<System>, more: seq<Action>)
    requires IsHistory(run, actions, C, gids) && Enabled(Last(run), a)
    ensures Extends(run, actions, longer, more, C, gids) && Last(longer) == Do(Last(run), a)
  {
    longer, more := run + [Do(Last(run), a)], actions + [a];
    forall k | 0 <= k < |more| ensures StepAt(longer, more, k) {
      assert k < |actions| ==> StepAt(run, actions, k);
    }
  }

  lemma {:induction false} RunInv(run: seq<System>, actions: seq<Action>, C: seq<Config>, gids: set<nat>, s: nat, k: nat)
    requires IsHistory(run, actions, C, gids) && s < NSHARDS && k < |run|
    ensures Inv(run[k], s) && run[k].configs == C && run[k].groups.Keys == gids
  {
    if k == 0 {
      InitInv(C, gids, s);
    } else {
      RunInv(run, actions, C, gids, s, k - 1);
      assert StepAt(run, actions, k - 1);
      StepInv(run[k - 1], s, actions[k - 1]);
    }
  }

  // ----- How much is left to do ------------------------------------------------------

  function Weight(status: Status): nat {
    match status
    case Serving => 0
    case GCing => 1
    case BePulling => 1
    case Pulling => 2
  }

  function Load(G: Group, t: nat): nat
    requires t <= |G.shards|
  {
    if t == 0 then 0 else Load(G, t - 1) + Weight(G.shards[t - 1].status)
  }

  lemma {:induction false} LoadBound(G: Group, t: nat)
    requires t <= |G.shards|
    ensures Load(G, t) <= 2 * t
  {
    if t > 0 {
      LoadBound(G, t - 1);
    }
  }

  lemma {:induction false} LoadLess(G: Group, G': Group, s: nat, t: nat)
    requires t <= |G.shards| == |G'.shards| && s < |G.shards|
    requires forall i :: 0 <= i < |G.shards| ==> Weight(G'.shards[i].status) <= Weight(G.shards[i].status)
    requires Weight(G'.shards[s].status) < Weight(G.shards[s].status)
    ensures Load(G', t) <= Load(G, t) && (s < t ==> Load(G', t) < Load(G, t))
  {
    if t > 0 {
      LoadLess(G, G', s, t - 1);
    }
  }

  lemma {:induction false} LoadNone(G: Group, t: nat)
    requires t <= |G.shards| && AllServing(G)
    ensures Load(G, t) == 0
  {
    if t > 0 {
      LoadNone(G, t - 1);
    }
  }

  /** A configuration outweighs all shards. */
  function Left(C: seq<Config>, G: Group): nat
    requires WellFormed(G) && G.currentConfig.num < |C|
  {
    (2 * NSHARDS + 1) * (|C| - 1 - G.currentConfig.num) + Load(G, NSHARDS)
  }

  predicate Placed(C: seq<Config>, groups: map<nat, Group>, order: seq<nat>) {
    forall i :: 0 <= i < |order| ==>
      order[i] in groups && WellFormed(groups[order[i]]) && groups[order[i]].currentConfig.num < |C|
  }

  function Total(C: seq<Config>, groups: map<nat, Group>, order: seq<nat>): nat
    requires Placed(C, groups, order)
  {
    if order == [] then 0 else Left(C, groups[order[0]]) + Total(C, groups, order[1..])
  }

  lemma {:induction false} TotalLess(C: seq<Config>, groups: map<nat, Group>, groups': map<nat, Group>, order: seq<nat>, g: nat)
    requires Placed(C, groups, order) && Placed(C, groups', order) && g in groups && g in groups'
    requires forall h :: h in groups && h != g ==> h in groups' && groups'[h] == groups[h]
    requires WellFormed(groups[g]) && WellFormed(groups'[g])
    requires groups[g].currentConfig.num < |C| && groups'[g].currentConfig.num < |C|
    requires Left(C, groups'[g]) < Left(C, groups[g])
    ensures Total(C, groups', order) <= Total(C, groups, order)
    ensures g in order ==> Total(C, groups', order) < Total(C, groups, order)
  {
    if order != [] {
      TotalLess(C, groups, groups', order[1..], g);
      assert g in order <==> order[0] == g || g in order[1..];
    }
  }

  // ----- Single moves ----------------------------------------------------------------

  /** One group has less to do, and the others are as they were. */
  ghost predicate Eases(sys: System, sys': System, g: nat) {
    && sys'.configs == sys.configs && sys'.groups.Keys == sys.groups.Keys && g in sys.groups
    && sys'.clients == sys.clients && sys'.requests == sys.requests
    && (forall h :: h in sys.groups && h != g ==> sys'.groups[h] == sys.groups[h])
    && WellFormed(sys.groups[g]) && WellFormed(sys'.groups[g])
    && sys.groups[g].currentConfig.num < |sys.configs| && sys'.groups[g].currentConfig.num < |sys.configs|
    && Left(sys.configs, sys'.groups[g]) < Left(sys.configs, sys.groups[g])
  }

  /** The groups are as they were, and the command is on its way to g. */
  ghost predicate Proposed(sys: System, sys': System, g: nat, command: Command) {
    && sys'.groups == sys.groups && sys'.configs == sys.configs && |sys'.token| == |sys.token|
    && (g, command) in sys'.pool && sys'.clients == sys.clients && sys'.requests == sys.requests
  }

  lemma Applied(run: seq<System>, actions: seq<Action>, C: seq<Config>, gids: set<nat>, g: nat, command: Command, before: System)
      returns (longer: seq<System>, more: seq<Action>)
    requires IsHistory(run, actions, C, gids) && Proposed(before, Last(run), g, command) && |before.token| == NSHARDS
    requires There(before.groups, g) && (command.Configuration? ==> |command.config.shards| == NSHARDS)
    requires var G := before.groups[g];
             && WellFormed(ApplyCommand(G, command)) && G.currentConfig.num < |before.configs|
             && ApplyCommand(G, command).currentConfig.num < |before.configs|
             && Left(before.configs, ApplyCommand(G, command)) < Left(before.configs, G)
    ensures Extends(run, actions, longer, more, C, gids) && Eases(before, Last(longer), g)
  {
    longer, more := OneStep(run, actions, C, gids, Apply(g, command));
  }

  lemma TakeNext(run: seq<System>, actions: seq<Action>, C: seq<Config>, gids: set<nat>, g: nat)
      returns (longer: seq<System>, more: seq<Action>)
    requires IsHistory(run, actions, C, gids) && Inv(Last(run), 0) && Last(run).configs == C
    requires g in Last(run).groups && AllServing(Last(run).groups[g]) && Last(run).groups[g].currentConfig.num + 1 < |C|
    ensures Extends(run, actions, longer, more, C, gids) && Eases(Last(run), Last(longer), g)
  {
    var G := Last(run).groups[g];
    var next := C[G.currentConfig.num + 1];
    longer, more := OneStep(run, actions, C, gids, ProposeConfig(g));
    LoadNone(G, NSHARDS);
    LoadBound(ApplyConfiguration(G, next), NSHARDS);
    longer, more := Applied(longer, more, C, gids, g, Configuration(next), Last(run));
  }

  lemma StatusEases(C: seq<Config>, G: Group, G': Group, s: nat)
    requires WellFormed(G) && WellFormed(G') && G'.currentConfig == G.currentConfig && G.currentConfig.num < |C| && s < NSHARDS
    requires forall i :: 0 <= i < NSHARDS ==> Weight(G'.shards[i].status) <= Weight(G.shards[i].status)
    requires Weight(G'.shards[s].status) < Weight(G.shards[s].status)
    ensures Left(C, G') < Left(C, G)
  {
    LoadLess(G, G', s, NSHARDS);
  }

  lemma Offer(run: seq<System>, actions: seq<Action>, C: seq<Config>, gids: set<nat>, A: nat, B: nat, s: nat)
      returns (longer: seq<System>, more: seq<Action>)
    requires IsHistory(run, actions, C, gids) && There(Last(run).groups, A) && There(Last(run).groups, B)
    ensures Extends(run, actions, longer, more, C, gids)
    ensures Proposed(Last(run), Last(longer), B, InsertShards(MakeCopy(Last(run).groups[A], [s])))
  {
    var copy := MakeCopy(Last(run).groups[A], [s]);
    longer, more := OneStep(run, actions, C, gids, Pull(A, Last(run).groups[A].currentConfig.num, [s]));
    longer, more := OneStep(longer, more, C, gids, ProposeInsert(B, copy));
  }

  /** The new owner pulls the shard from the old one and has it. */
  lemma Fetch(run: seq<System>, actions: seq<Action>, C: seq<Config>, gids: set<nat>, A: nat, B: nat, s: nat)
      returns (longer: seq<System>, more: seq<Action>)
    requires IsHistory(run, actions, C, gids) && Inv(Last(run), s) && Last(run).configs == C
    requires There(Last(run).groups, B) && Last(run).groups[B].shards[s].status.Pulling?
    requires Holds(Last(run).groups, A, Last(run).groups[B].currentConfig.num, s)
    ensures Extends(run, actions, longer, more, C, gids) && Eases(Last(run), Last(longer), B)
  {
    var G, copy := Last(run).groups[B], MakeCopy(Last(run).groups[A], [s]);
    assert s in [s] && s in copy.shards;
    StatusEases(C, G, ApplyInsert(G, copy), s);
    longer, more := Offer(run, actions, C, gids, A, B, s);
    longer, more := Applied(longer, more, C, gids, B, InsertShards(copy), Last(run));
  }

  lemma AskFor(run: seq<System>, actions: seq<Action>, C: seq<Config>, gids: set<nat>, A: nat, B: nat, s: nat)
      returns (longer: seq<System>, more: seq<Action>)
    requires IsHistory(run, actions, C, gids) && There(Last(run).groups, A) && There(Last(run).groups, B) && s < NSHARDS
    requires Last(run).groups[B].shards[s].status.GCing? && Last(run).groups[B].lastConfig.shards[s] == A
    requires AtLeast(Last(run).groups, A, Last(run).groups[B].currentConfig.num)
    ensures Extends(run, actions, longer, more, C, gids)
    ensures Proposed(Last(run), Last(longer), B, DeleteShards(Last(run).groups[B].currentConfig.num, [s]))
  {
    var gc := Gc(B, A, Last(run).groups[B].currentConfig.num, [s]);
    longer, more := OneStep(run, actions, C, gids, AskGc(B, A, [s]));
    longer, more := OneStep(longer, more, C, gids, HandleGc(gc));
    longer, more := OneStep(longer, more, C, gids, FinishGc(gc));
  }

  /** The new owner has the old one delete the shard and goes on to serve it. */
  lemma Collect(run: seq<System>, actions: seq<Action>, C: seq<Config>, gids: set<nat>, B: nat, s: nat)
      returns (longer: seq<System>, more: seq<Action>)
    requires IsHistory(run, actions, C, gids) && Inv(Last(run), s) && Last(run).configs == C
    requires There(Last(run).groups, B) && Last(run).groups[B].shards[s].status.GCing?
    ensures Extends(run, actions, longer, more, C, gids) && Eases(Last(run), Last(longer), B)
  {
    var sys := Last(run);
    var G, k := sys.groups[B], sys.groups[B].currentConfig.num;
    assert StatusOK(C, sys.groups, sys.pool, s, B) && Handover(C, sys.groups, s, k);
    StatusEases(C, G, ApplyDelete(G, k, [s]), s);
    longer, more := AskFor(run, actions, C, gids, Owner(C, k - 1, s), B, s);
    longer, more := Applied(longer, more, C, gids, B, DeleteShards(k, [s]), Last(run));
  }

  /** The old owner gives up what it was told to. */
  lemma GiveUp(run: seq<System>, actions: seq<Action>, C: seq<Config>, gids: set<nat>, A: nat, ids: seq<nat>, s: nat)
      returns (longer: seq<System>, more: seq<Action>)
    requires IsHistory(run, actions, C, gids) && Inv(Last(run), s) && Last(run).configs == C
    requires There(Last(run).groups, A) && Last(run).groups[A].shards[s].status.BePulling? && s in ids
    requires Deletes(Last(run).pool, A, Last(run).groups[A].currentConfig.num, ids)
    ensures Extends(run, actions, longer, more, C, gids) && Eases(Last(run), Last(longer), A)
  {
    var G, k := Last(run).groups[A], Last(run).groups[A].currentConfig.num;
    StatusEases(C, G, ApplyDelete(G, k, ids), s);
    longer, more := Applied(run, actions, C, gids, A, DeleteShards(k, ids), Last(run));
  }

  // ----- There is always such a move -------------------------------------------------

  /** The group is at the last config and serves all shards. */
  predicate Settled(C: seq<Config>, G: Group) {
    G.currentConfig.num == |C| - 1 && AllServing(G)
  }

  /** No group that is not settled is further back than g. */
  predicate Hindmost(C: seq<Config>, groups: map<nat, Group>, g: nat) {
    && g in groups && !Settled(C, groups[g])
    && forall h :: h in groups && !Settled(C, groups[h]) ==> groups[g].currentConfig.num <= groups[h].currentConfig.num
  }

  lemma {:induction false} SomeHindmost(C: seq<Config>, groups: map<nat, Group>, g: nat) returns (least: nat)
    requires g in groups && !Settled(C, groups[g]) && groups[g].currentConfig.num >= 0
    ensures Hindmost(C, groups, least)
    decreases groups[g].currentConfig.num
  {
    if h :| h in groups && !Settled(C, groups[h]) && groups[h].currentConfig.num < groups[g].currentConfig.num {
      least := SomeHindmost(C, groups, h);
    } else {
      least := g;
    }
  }

  /** The last group back has a shard on the move, and its other side is not further back. */
  lemma MoveShard(run: seq<System>, actions: seq<Action>, C: seq<Config>, gids: set<nat>, g: nat, s: nat)
      returns (longer: seq<System>, more: seq<Action>, eased: nat)
    requires IsHistory(run, actions, C, gids) && Inv(Last(run), s) && Last(run).configs == C
    requires Hindmost(C, Last(run).groups, g) && !Last(run).groups[g].shards[s].status.Serving?
    ensures Extends(run, actions, longer, more, C, gids) && Eases(Last(run), Last(longer), eased)
  {
    var sys := Last(run);
    var k := sys.groups[g].currentConfig.num;
    assert StatusOK(C, sys.groups, sys.pool, s, g) && Handover(C, sys.groups, s, k);
    var A, B := Owner(C, k - 1, s), Owner(C, k, s);
    assert A in sys.groups && I.Positioned(C, sys.groups[A]) && B in sys.groups && I.Positioned(C, sys.groups[B]);
    match sys.groups[g].shards[s].status {
      case Pulling =>
        assert AtLeast(sys.groups, A, k);
        longer, more := Fetch(run, actions, C, gids, A, g, s);
        eased := g;
      case GCing =>
        longer, more := Collect(run, actions, C, gids, g, s);
        eased := g;
      case BePulling =>
        if ids :| s in ids && Deletes(sys.pool, g, k, ids) {
          longer, more := GiveUp(run, actions, C, gids, g, ids, s);
          eased := g;
        } else {
          eased := B;
          if sys.groups[B].shards[s].status.Pulling? {
            longer, more := Fetch(run, actions, C, gids, g, B, s);
          } else {
            longer, more := Collect(run, actions, C, gids, B, s);
          }
        }
    }
  }

  lemma Advance(run: seq<System>, actions: seq<Action>, C: seq<Config>, gids: set<nat>, g: nat)
      returns (longer: seq<System>, more: seq<Action>, eased: nat)
    requires IsHistory(run, actions, C, gids) && g in gids && Last(run).groups.Keys == gids && !Settled(C, Last(run).groups[g])
    ensures Extends(run, actions, longer, more, C, gids) && Eases(Last(run), Last(longer), eased)
  {
    var sys := Last(run);
    RunInv(run, actions, C, gids, 0, |run| - 1);
    var least := SomeHindmost(C, sys.groups, g);
    if AllServing(sys.groups[least]) {
      longer, more := TakeNext(run, actions, C, gids, least);
      eased := least;
    } else {
      var s :| 0 <= s < |sys.groups[least].shards| && !sys.groups[least].shards[s].status.Serving?;
      RunInv(run, actions, C, gids, s, |run| - 1);
      longer, more, eased := MoveShard(run, actions, C, gids, least, s);
    }
  }

  // ----- The theorem -----------------------------------------------------------------

  lemma {:induction false} Listing(gids: set<nat>) returns (order: seq<nat>)
    ensures forall g :: g in order <==> g in gids
  {
    if gids == {} {
      order := [];
    } else {
      var g :| g in gids;
      var rest := Listing(gids - {g});
      order := [g] + rest;
      forall h ensures h in order <==> h in gids {
        assert h in order <==> h == g || h in rest;
      }
    }
  }

  lemma RunPlaced(run: seq<System>, actions: seq<Action>, C: seq<Config>, gids: set<nat>, order: seq<nat>)
    requires IsHistory(run, actions, C, gids) && forall g :: g in order <==> g in gids
    ensures Last(run).configs == C && Last(run).groups.Keys == gids && Placed(C, Last(run).groups, order)
  {
    RunInv(run, actions, C, gids, 0, |run| - 1);
    forall i | 0 <= i < |order|
      ensures order[i] in Last(run).groups && I.Positioned(C, Last(run).groups[order[i]])
    {
      assert order[i] in order;
    }
  }

  lemma {:induction false} SettleAll(run: seq<System>, actions: seq<Action>, C: seq<Config>, gids: set<nat>, order: seq<nat>)
      returns (longer: seq<System>, more: seq<Action>)
    requires IsHistory(run, actions, C, gids) && (forall g :: g in order <==> g in gids) && Placed(C, Last(run).groups, order)
    ensures Extends(run, actions, longer, more, C, gids)
    ensures Last(longer).groups.Keys == gids && forall g :: g in gids ==> Settled(C, Last(longer).groups[g])
    ensures Last(longer).clients == Last(run).clients && Last(longer).requests == Last(run).requests
    decreases Total(C, Last(run).groups, order)
  {
    RunPlaced(run, actions, C, gids, order);
    if g :| g in gids && !Settled(C, Last(run).groups[g]) {
      var eased;
      longer, more, eased := Advance(run, actions, C, gids, g);
      RunPlaced(longer, more, C, gids, order);
      TotalLess(C, Last(run).groups, Last(longer).groups, order, eased);
      longer, more := SettleAll(longer, more, C, gids, order);
    } else {
      longer, more := run, actions;
    }
  }

  /** If the last config assigns shard s, its owner can serve it. */
  predicate OwnerServes(sys: System, C: seq<Config>, s: nat) {
    Rows(C) && |C| > 0 && s < NSHARDS && Owner(C, |C| - 1, s) != 0 ==>
      var g := Owner(C, |C| - 1, s); There(sys.groups, g) && CanServe(sys.groups[g], s)
  }

  /** Every group is at the last config, and every shard that it assigns can be served by its
      owner. */
  ghost predicate AllServe(sys: System, C: seq<Config>, gids: set<nat>) {
    && sys.groups.Keys == gids
    && (forall g :: g in gids ==> Settled(C, sys.groups[g]))
    && (forall s: nat {:trigger OwnerServes(sys, C, s)} :: OwnerServes(sys, C, s))
  }

  lemma Settle(run: seq<System>, actions: seq<Action>, C: seq<Config>, gids: set<nat>)
      returns (longer: seq<System>, more: seq<Action>)
    requires IsHistory(run, actions, C, gids)
    ensures Extends(run, actions, longer, more, C, gids) && AllServe(Last(longer), C, gids)
    ensures Last(longer).clients == Last(run).clients && Last(longer).requests == Last(run).requests
  {
    var order := Listing(gids);
    RunPlaced(run, actions, C, gids, order);
    longer, more := SettleAll(run, actions, C, gids, order);
    RunInv(longer, more, C, gids, 0, |longer| - 1);
    forall s: nat ensures OwnerServes(Last(longer), C, s) {
      if s < NSHARDS && Owner(C, |C| - 1, s) != 0 {
        assert I.Positioned(C, Last(longer).groups[Owner(C, |C| - 1, s)]);
      }
    }
  }

  /** Every run over every config history has a continuation after which all groups are at
      the last config and all its shards are served. */
  lemma CanSettle(run: seq<System>, actions: seq<Action>, C: seq<Config>, gids: set<nat>)
    requires IsHistory(run, actions, C, gids)
    ensures exists longer, more :: Extends(run, actions, longer, more, C, gids) && AllServe(Last(longer), C, gids)
  {
    var longer, more := Settle(run, actions, C, gids);
  }

  // ----- Waiting calls ---------------------------------------------------------------

  lemma {:induction false} WaitsForRequest(run: seq<System>, actions: seq<Action>, C: seq<Config>, gids: set<nat>, client: int, k: nat)
    requires IsHistory(run, actions, C, gids) && k < |run| && client in run[k].clients && run[k].clients[client].Waiting?
    ensures run[k].clients[client].req in run[k].requests
  {
    if k > 0 {
      assert StepAt(run, actions, k - 1);
      if client in run[k - 1].clients && run[k - 1].clients[client].Waiting? {
        WaitsForRequest(run, actions, C, gids, client, k - 1);
      }
    }
  }

  /** A group that serves the shard can be brought to answer. */
  lemma CanAnswer(run: seq<System>, actions: seq<Action>, C: seq<Config>, gids: set<nat>, g: nat, req: Request)
      returns (longer: seq<System>, more: seq<Action>, response: Response)
    requires IsHistory(run, actions, C, gids) && |Last(run).token| == NSHARDS && req in Last(run).requests
    requires There(Last(run).groups, g) && CanServe(Last(run).groups[g], Key2Shard(req.key))
    ensures Extends(run, actions, longer, more, C, gids) && (req, response) in Last(longer).replies
    ensures Last(longer).clients == Last(run).clients
  {
    var G := Last(run).groups[g];
    if !req.op.Get? && IsDuplicate(G, req.client, req.command) {
      response := G.lastOps[req.client].lastResponse;
      longer, more := OneStep(run, actions, C, gids, AnswerDuplicate(g, req));
    } else {
      response := ApplyOperation(G, req).1;
      longer, more := OneStep(run, actions, C, gids, ProposeOperation(g, req));
      longer, more := OneStep(longer, more, C, gids, Apply(g, Operation(req)));
    }
  }

  /** The last step is the return of a call of this client. */
  predicate Answered(actions: seq<Action>, client: int) {
    actions != [] && Last(actions).Complete? && Last(actions).client == client
  }

  /** Whatever has happened, a waiting call can still be answered, if the last config assigns
      the shard of its key. */
  lemma CallCanComplete(run: seq<System>, actions: seq<Action>, C: seq<Config>, gids: set<nat>, client: int)
    requires IsHistory(run, actions, C, gids) && client in Last(run).clients && Last(run).clients[client].Waiting?
    requires Owner(C, |C| - 1, Key2Shard(Last(run).clients[client].req.key)) != 0
    ensures exists longer, more :: Extends(run, actions, longer, more, C, gids) && Answered(more, client)
  {
    var req := Last(run).clients[client].req;
    var longer, more, response;
    WaitsForRequest(run, actions, C, gids, client, |run| - 1);
    longer, more := Settle(run, actions, C, gids);
    RunInv(longer, more, C, gids, 0, |longer| - 1);
    assert OwnerServes(Last(longer), C, Key2Shard(req.key));
    longer, more, response := CanAnswer(longer, more, C, gids, Owner(C, |C| - 1, Key2Shard(req.key)), req);
    longer, more := Completed(longer, more, C, gids, client, response);
    assert Extends(run, actions, longer, more, C, gids);
  }

  lemma Completed(run: seq<System>, actions: seq<Action>, C: seq<Config>, gids: set<nat>, client: int, response: Response)
      returns (longer: seq<System>, more: seq<Action>)
    requires IsHistory(run, actions, C, gids) && Enabled(Last(run), Complete(client, response))
    ensures Extends(run, actions, longer, more, C, gids) && Answered(more, client)
  {
    var a := Complete(client, response);
    longer, more := run + [Do(Last(run), a)], actions + [a];
    forall k | 0 <= k < |more| ensures StepAt(longer, more, k) {
      assert k < |actions| ==> StepAt(run, actions, k);
    }
  }
}
