/**
 One replica group of the sharded key/value service as a value, and each command of its
 log as a function (shardkv/server.go).  `ShardServer` proves that the server's loops
 compute these functions; `ShardSystem` runs many groups against each other.
 */
module ShardGroup {

  newtype Byte = x: int | 0 <= x < 256
  type Str = seq<Byte>

  const NSHARDS: nat := 10

  datatype Err = OK | ErrNoKey | ErrWrongGroup
  datatype Status = Serving | Pulling | BePulling | GCing
  datatype OpKind = Get | Put | Append

  datatype Shard = Shard(kv: map<Str, Str>, status: Status)

  /** Config number and the group of each shard; 0 is the invalid group. */
  datatype Config = Config(num: nat, shards: seq<nat>)

  datatype Request = Request(key: Str, value: Str, op: OpKind, client: int, command: int)
  datatype Response = Response(err: Err, value: Str)
  datatype OpContext = OpContext(maxApplied: int, lastResponse: Response)

  type OpTable = map<int, OpContext>

  /** The answer to a pull: copies of shards and of the whole table of last operations. */
  datatype Copy = Copy(num: nat, shards: map<nat, map<Str, Str>>, ops: OpTable)

  datatype Command =
    | Operation(req: Request)
    | Configuration(config: Config)
    | InsertShards(copy: Copy)
    | DeleteShards(num: nat, ids: seq<nat>)
    | EmptyEntry

  datatype Group = Group(
    gid: nat,
    currentConfig: Config,
    lastConfig: Config,
    shards: seq<Shard>,
    lastOps: OpTable)

  function FirstByte(key: Str): nat {
    if |key| > 0 then key[0] as nat else 0
  }

  /** The shard is decided by the first byte alone, in turn: byte b and byte b + 10 share. */
  function Key2Shard(key: Str): (r: nat)
    ensures r < NSHARDS && exists q: nat :: FirstByte(key) == NSHARDS * q + r
  {
    assert FirstByte(key) == NSHARDS * (FirstByte(key) / NSHARDS) + FirstByte(key) % NSHARDS;
    (if |key| > 0 then key[0] as int else 0) % NSHARDS
  }

  predicate WellFormed(g: Group) {
    |g.shards| == |g.currentConfig.shards| == |g.lastConfig.shards| == NSHARDS
  }

  // ----- Reading ---------------------------------------------------------------------

  predicate CanServe(g: Group, s: nat)
    requires WellFormed(g) && s < NSHARDS
  {
    g.currentConfig.shards[s] == g.gid && (g.shards[s].status.Serving? || g.shards[s].status.GCing?)
  }

  predicate IsDuplicate(g: Group, client: int, command: int) {
    client in g.lastOps && command <= g.lastOps[client].maxApplied
  }

  predicate AllServing(g: Group) {
    forall s :: 0 <= s < |g.shards| ==> g.shards[s].status.Serving?
  }

  // ----- Client operations -----------------------------------------------------------

  function Lookup(kv: map<Str, Str>, key: Str): Response {
    if key in kv then Response(OK, kv[key]) else Response(ErrNoKey, [])
  }

  function Written(kv: map<Str, Str>, req: Request): map<Str, Str> {
    match req.op
    case Get => kv
    case Put => kv[req.key := req.value]
    case Append => kv[req.key := (if req.key in kv then kv[req.key] else []) + req.value]
  }

  function ApplyOperation(g: Group, req: Request): (r: (Group, Response))
    requires WellFormed(g)
  {
    var s := Key2Shard(req.key);
    if !CanServe(g, s) then (g, Response(ErrWrongGroup, []))
    else if req.op.Get? then (g, Lookup(g.shards[s].kv, req.key))
    else if IsDuplicate(g, req.client, req.command) then (g, g.lastOps[req.client].lastResponse)
    else
      var response := Response(OK, []);
      (g.(shards := g.shards[s := g.shards[s].(kv := Written(g.shards[s].kv, req))],
          lastOps := g.lastOps[req.client := OpContext(req.command, response)]),
       response)
  }

  // ----- Configuration changes and migration -----------------------------------------

  /** The shard after its group goes from owner `last` to owner `current`. */
  function Reassign(shard: Shard, gid: nat, last: nat, current: nat): Shard {
    if current == gid && last != gid then
      shard.(status := if last == 0 then Serving else Pulling)
    else if last == gid && current != gid then
      if current == 0 then Shard(map[], Serving) else shard.(status := BePulling)
    else shard
  }

  function ApplyConfiguration(g: Group, next: Config): Group
    requires WellFormed(g) && |next.shards| == NSHARDS
  {
    if next.num != g.currentConfig.num + 1 then g
    else
      g.(lastConfig := g.currentConfig,
         currentConfig := next,
         shards := seq(NSHARDS, s requires 0 <= s < NSHARDS =>
                     Reassign(g.shards[s], g.gid, g.currentConfig.shards[s], next.shards[s])))
  }

  predicate Newer(ctx: OpContext, ops: OpTable, client: int) {
    client !in ops || ops[client].maxApplied < ctx.maxApplied
  }

  /** Per client the context with the larger command id; ties keep the own one. */
  function MergeOps(ops: OpTable, more: OpTable): (r: OpTable) {
    map c | c in ops.Keys + more.Keys :: if c in more && Newer(more[c], ops, c) then more[c] else ops[c]
  }

  function Inserted(shard: Shard, s: nat, copies: map<nat, map<Str, Str>>): Shard {
    if s in copies && shard.status.Pulling? then Shard(copies[s], GCing) else shard
  }

  function ApplyInsert(g: Group, copy: Copy): Group
    requires WellFormed(g)
  {
    if copy.num != g.currentConfig.num then g
    else
      g.(shards := seq(NSHARDS, s requires 0 <= s < NSHARDS => Inserted(g.shards[s], s, copy.shards)),
         lastOps := MergeOps(g.lastOps, copy.ops))
  }

  function Deleted(shard: Shard): Shard {
    match shard.status
    case GCing => shard.(status := Serving)
    case BePulling => Shard(map[], Serving)
    case _ => shard
  }

  function ApplyDelete(g: Group, num: nat, ids: seq<nat>): Group
    requires WellFormed(g)
  {
    if num != g.currentConfig.num then g
    else
      g.(shards := seq(NSHARDS, s requires 0 <= s < NSHARDS =>
                     if s in ids then Deleted(g.shards[s]) else g.shards[s]))
  }

  function ApplyCommand(g: Group, command: Command): Group
    requires WellFormed(g)
    requires command.Configuration? ==> |command.config.shards| == NSHARDS
  {
    match command
    case Operation(req) => ApplyOperation(g, req).0
    case Configuration(config) => ApplyConfiguration(g, config)
    case InsertShards(copy) => ApplyInsert(g, copy)
    case DeleteShards(num, ids) => ApplyDelete(g, num, ids)
    case EmptyEntry => g
  }

  /** GetShardsData: a copy for a requester at the same config number. */
  function MakeCopy(g: Group, ids: seq<nat>): Copy
    requires WellFormed(g)
  {
    Copy(g.currentConfig.num,
         map s | s in ids && s < NSHARDS && (g.shards[s].status.BePulling? || g.shards[s].status.GCing?) :: g.shards[s].kv,
         g.lastOps)
  }
}
