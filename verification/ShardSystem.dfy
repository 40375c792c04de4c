/**
 Many replica groups, each a replicated state machine (shardkv/server.go).  A proposal
 once made may be applied late, repeatedly or never; pull and delete calls may be lost,
 delayed and answered repeatedly.  Configurations come from one fixed history, and each
 client has one command outstanding (shardkv/client.go).
 */
module ShardSystem {
  import opened ShardGroup

  /** The service as one map: writes already performed are not performed again. */
  datatype Spec = Spec(store: map<Str, Str>, done: set<Request>)

  function SpecApply(spec: Spec, req: Request): (r: (Spec, Response)) {
    if req.op.Get? then (spec, Lookup(spec.store, req.key))
    else if req in spec.done then (spec, Response(OK, []))
    else (Spec(Written(spec.store, req), spec.done + {req}), Response(OK, []))
  }

  /** A clerk between calls, with its next command id, or waiting for one command. */
  datatype Client = Idle(next: int) | Waiting(req: Request)

  /** A DeleteShardsData call from the new owner to the old one. */
  datatype Gc = Gc(from: nat, to: nat, num: nat, ids: seq<nat>)

  /** `spec` and `token` are history: `spec` is the single map after the operations served
      so far, `token[s]` the config number at which the present holder of shard s got it. */
  datatype System = System(
    configs: seq<Config>,
    groups: map<nat, Group>,
    pool: set<(nat, Command)>,
    copies: set<Copy>,
    gcs: set<Gc>,
    cleared: set<Gc>,
    clients: map<int, Client>,
    requests: set<Request>,
    replies: set<(Request, Response)>,
    token: seq<nat>,
    spec: Spec)

  // ----- The config history ----------------------------------------------------------

  predicate Rows(C: seq<Config>) {
    forall n :: 0 <= n < |C| ==> C[n].num == n && |C[n].shards| == NSHARDS
  }

  function Owner(C: seq<Config>, n: nat, s: nat): nat
    requires Rows(C) && n < |C| && s < NSHARDS
  {
    C[n].shards[s]
  }

  /** Config 0 assigns nothing. */
  predicate StartsEmpty(C: seq<Config>) {
    Rows(C) && |C| > 0 && forall s :: 0 <= s < NSHARDS ==> Owner(C, 0, s) == 0
  }

  /** Config 0 assigns nothing, and an assigned shard stays assigned. */
  predicate NeverUnassigned(C: seq<Config>) {
    && StartsEmpty(C)
    && (forall n, s :: 0 <= n < |C| - 1 && 0 <= s < NSHARDS && Owner(C, n, s) != 0 ==> Owner(C, n + 1, s) != 0)
  }

  /** The first config from which s has had its owner of config n without a break. */
  function Start(C: seq<Config>, n: nat, s: nat): (r: nat)
    requires Rows(C) && n < |C| && s < NSHARDS
    ensures r <= n && Owner(C, r, s) == Owner(C, n, s)
  {
    if n == 0 || Owner(C, n - 1, s) != Owner(C, n, s) then n else Start(C, n - 1, s)
  }

  // ----- Actions ---------------------------------------------------------------------

  datatype Action =
    | ProposeConfig(g: nat)
    | Pull(g: nat, num: nat, ids: seq<nat>)
    | ProposeInsert(g: nat, copy: Copy)
    | AskGc(g: nat, to: nat, ids: seq<nat>)
    | HandleGc(gc: Gc)
    | FinishGc(gc: Gc)
    | Submit(client: int, key: Str, value: Str, op: OpKind)
    | ProposeOperation(g: nat, req: Request)
    | ProposeEmpty(g: nat)
    | Apply(g: nat, command: Command)
    | AnswerDuplicate(g: nat, req: Request)
    | Complete(client: int, response: Response)

  predicate Ready(sys: System, g: nat) {
    g in sys.groups && WellFormed(sys.groups[g])
  }

  predicate Enabled(sys: System, a: Action) {
    match a
    case ProposeConfig(g) =>
      && Ready(sys, g) && AllServing(sys.groups[g])
      && sys.groups[g].currentConfig.num + 1 < |sys.configs|
    case Pull(g, num, ids) => Ready(sys, g) && num == sys.groups[g].currentConfig.num
    case ProposeInsert(g, copy) => Ready(sys, g) && copy in sys.copies
    case AskGc(g, to, ids) =>
      && Ready(sys, g)
      && forall s :: s in ids ==>
           s < NSHARDS && sys.groups[g].shards[s].status.GCing? && sys.groups[g].lastConfig.shards[s] == to
    case HandleGc(gc) => gc in sys.gcs && Ready(sys, gc.to) && gc.num <= sys.groups[gc.to].currentConfig.num
    case FinishGc(gc) => gc in sys.cleared
    case Submit(client, _, _, _) => client !in sys.clients || sys.clients[client].Idle?
    case ProposeOperation(g, req) => Ready(sys, g) && req in sys.requests
    case ProposeEmpty(g) => Ready(sys, g)
    case Apply(g, command) =>
      && Ready(sys, g) && (g, command) in sys.pool && |sys.token| == NSHARDS
      && (command.Configuration? ==> |command.config.shards| == NSHARDS)
    case AnswerDuplicate(g, req) =>
      && Ready(sys, g) && req in sys.requests && !req.op.Get?
      && IsDuplicate(sys.groups[g], req.client, req.command)
    case Complete(client, response) =>
      && client in sys.clients && sys.clients[client].Waiting?
      && (sys.clients[client].req, response) in sys.replies
  }

  function Propose(sys: System, g: nat, command: Command): System {
    sys.(pool := sys.pool + {(g, command)})
  }

  function Do(sys: System, a: Action): System
    requires Enabled(sys, a)
  {
    match a
    case ProposeConfig(g) =>
      Propose(sys, g, Configuration(sys.configs[sys.groups[g].currentConfig.num + 1]))
    case Pull(g, num, ids) => sys.(copies := sys.copies + {MakeCopy(sys.groups[g], ids)})
    case ProposeInsert(g, copy) => Propose(sys, g, InsertShards(copy))
    case AskGc(g, to, ids) => sys.(gcs := sys.gcs + {Gc(g, to, sys.groups[g].currentConfig.num, ids)})
    case HandleGc(gc) =>
      // An older number is answered at once; the current one also proposes the deletion.
      var next := if gc.num == sys.groups[gc.to].currentConfig.num
                  then Propose(sys, gc.to, DeleteShards(gc.num, gc.ids)) else sys;
      next.(cleared := sys.cleared + {gc})
    case FinishGc(gc) => Propose(sys, gc.from, DeleteShards(gc.num, gc.ids))
    case Submit(client, key, value, op) => DoSubmit(sys, client, key, value, op)
    case ProposeOperation(g, req) => Propose(sys, g, Operation(req))
    case ProposeEmpty(g) => Propose(sys, g, EmptyEntry)
    case Apply(g, command) => DoApply(sys, g, command)
    case AnswerDuplicate(g, req) =>
      sys.(replies := sys.replies + {(req, sys.groups[g].lastOps[req.client].lastResponse)})
    case Complete(client, response) =>
      sys.(clients := sys.clients[client := Idle(sys.clients[client].req.command + 1)])
  }

  function NextCommand(sys: System, client: int): int {
    if client in sys.clients && sys.clients[client].Idle? then sys.clients[client].next else 0
  }

  function DoSubmit(sys: System, client: int, key: Str, value: Str, op: OpKind): System {
    var req := Request(key, value, op, client, NextCommand(sys, client));
    sys.(clients := sys.clients[client := Waiting(req)], requests := sys.requests + {req})
  }

  predicate Moves(g: Group, copy: Copy, s: nat)
    requires WellFormed(g) && s < NSHARDS
  {
    copy.num == g.currentConfig.num && s in copy.shards && g.shards[s].status.Pulling?
  }

  function MovedToken(token: seq<nat>, g: Group, copy: Copy): (r: seq<nat>)
    requires WellFormed(g) && |token| == NSHARDS
    ensures |r| == NSHARDS
  {
    seq(NSHARDS, s requires 0 <= s < NSHARDS => if Moves(g, copy, s) then copy.num else token[s])
  }

  predicate Served(r: Response) {
    r.err.OK? || r.err.ErrNoKey?
  }

  function DoApply(sys: System, g: nat, command: Command): System
    requires Ready(sys, g) && |sys.token| == NSHARDS
    requires command.Configuration? ==> |command.config.shards| == NSHARDS
  {
    var group := sys.groups[g];
    var next := sys.(groups := sys.groups[g := ApplyCommand(group, command)]);
    match command
    case Operation(req) =>
      var response := ApplyOperation(group, req).1;
      if Served(response) then
        next.(replies := sys.replies + {(req, response)}, spec := SpecApply(sys.spec, req).0)
      else next
    case InsertShards(copy) => next.(token := MovedToken(sys.token, group, copy))
    case _ => next
  }

  // ----- Runs ------------------------------------------------------------------------

  function InitialGroup(gid: nat, first: Config): Group {
    Group(gid, first, first, seq(NSHARDS, _ => Shard(map[], Serving)), map[])
  }

  /** The first config that assigns s, or the length of the history if none does. */
  function FirstAssigned(C: seq<Config>, n: nat, s: nat): (r: nat)
    requires Rows(C) && n <= |C| && s < NSHARDS
    ensures n <= r <= |C|
    ensures r < |C| ==> Owner(C, r, s) != 0
    ensures forall m :: n <= m < r ==> Owner(C, m, s) == 0
    decreases |C| - n
  {
    if n == |C| || Owner(C, n, s) != 0 then n else FirstAssigned(C, n + 1, s)
  }

  function Init(C: seq<Config>, gids: set<nat>): System
    requires Rows(C) && |C| > 0
  {
    System(C, map g | g in gids :: InitialGroup(g, C[0]), {}, {}, {}, {}, map[], {}, {},
           seq(NSHARDS, s requires 0 <= s < NSHARDS => FirstAssigned(C, 0, s)), Spec(map[], {}))
  }

  /** Every assigned group exists, and none is the invalid one. */
  predicate Staffed(C: seq<Config>, gids: set<nat>) {
    && StartsEmpty(C) && 0 !in gids
    && forall n, s :: 0 <= n < |C| && 0 <= s < NSHARDS && Owner(C, n, s) != 0 ==> Owner(C, n, s) in gids
  }

  predicate Populated(C: seq<Config>, gids: set<nat>) {
    NeverUnassigned(C) && Staffed(C, gids)
  }

  predicate StepAt(run: seq<System>, actions: seq<Action>, k: nat)
    requires k < |actions| < |run|
  {
    Enabled(run[k], actions[k]) && run[k + 1] == Do(run[k], actions[k])
  }

  /** A run over any config history. */
  ghost predicate IsHistory(run: seq<System>, actions: seq<Action>, C: seq<Config>, gids: set<nat>) {
    && |run| == |actions| + 1
    && Staffed(C, gids)
    && run[0] == Init(C, gids)
    && forall k {:trigger StepAt(run, actions, k)} :: 0 <= k < |actions| ==> StepAt(run, actions, k)
  }

  /** A run over a history that never takes a shard out of service. */
  ghost predicate IsRun(run: seq<System>, actions: seq<Action>, C: seq<Config>, gids: set<nat>) {
    NeverUnassigned(C) && IsHistory(run, actions, C, gids)
  }
}
