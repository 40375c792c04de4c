/**
 The ShardKV object of shardkv/server.go: fields updated in place by the applier and the
 loops of the monitors.  Each contract ties the new state to the function of `ShardGroup`
 that the system model runs.
 */
module ShardServer {
  import opened ShardGroup

  datatype PullReply = NotReady | Ready(copy: Copy)

  lemma HasElement(s: set<int>)
    requires s != {}
    ensures exists x :: x in s
  {
    if forall x :: x !in s {
      assert false;
    }
  }

  /** A put leaves the given text at its key, an append leaves it behind what was there, and
      nothing else changes. */
  predicate Writes(was: map<Str, Str>, now: map<Str, Str>, req: Request) {
    if req.op.Get? then now == was
    else
      && now.Keys == was.Keys + {req.key}
      && (forall k :: k in was && k != req.key ==> now[k] == was[k])
      && now[req.key] == (if req.op.Append? && req.key in was then was[req.key] else []) + req.value
  }

  /** The client's entry is this command, answered with success; other clients' are as before. */
  predicate Remembers(was: OpTable, now: OpTable, req: Request) {
    && now.Keys == was.Keys + {req.client} && now[req.client] == OpContext(req.command, Response(OK, []))
    && forall c :: c in was && c != req.client ==> now[c] == was[c]
  }

  /** What a change of owner does to a shard of group gid. */
  predicate Handed(was: Shard, now: Shard, gid: nat, last: nat, current: nat) {
    if last == current || (last != gid && current != gid) then now == was
    else if current == gid then now.kv == was.kv && now.status == if last == 0 then Serving else Pulling
    else if current == 0 then now.kv == map[] && now.status.Serving?
    else now.kv == was.kv && now.status.BePulling?
  }

  /** A pulled shard that was waited for arrives; others stay. */
  predicate Arrives(was: Shard, now: Shard, s: nat, copies: map<nat, map<Str, Str>>) {
    if s in copies && was.status.Pulling? then now.kv == copies[s] && now.status.GCing? else now == was
  }

  /** Of two tables the one context per client with the larger command id. */
  predicate Merged(mine: OpTable, theirs: OpTable, now: OpTable) {
    && now.Keys == mine.Keys + theirs.Keys
    && (forall c :: c in mine && (c in theirs ==> theirs[c].maxApplied <= mine[c].maxApplied) ==> now[c] == mine[c])
    && (forall c :: c in theirs && (c in mine ==> mine[c].maxApplied < theirs[c].maxApplied) ==> now[c] == theirs[c])
  }

  /** Collection ends for a shard that was pulled in; a shard that was pulled away is emptied. */
  predicate Cleared(was: Shard, now: Shard) {
    if was.status.GCing? then now.kv == was.kv && now.status.Serving?
    else if was.status.BePulling? then now.kv == map[] && now.status.Serving?
    else now == was
  }

  class ShardKV {
    const gid: nat
    var lastApplied: nat
    var lastConfig: Config
    var currentConfig: Config
    var stateMachines: seq<Shard>
    var lastOperations: OpTable

    /** The group value this object stands for. */
    function State(): Group
      reads this
    {
      Group(gid, currentConfig, lastConfig, stateMachines, lastOperations)
    }

    predicate Valid()
      reads this
    {
      WellFormed(State())
    }

    constructor (gid: nat, first: Config)
      requires |first.shards| == NSHARDS
      ensures Valid() && lastApplied == 0
      ensures State() == Group(gid, first, first, seq(NSHARDS, _ => Shard(map[], Serving)), map[])
    {
      this.gid := gid;
      lastApplied := 0;
      lastConfig, currentConfig := first, first;
      stateMachines := [];
      lastOperations := map[];
      new;
      for i := 0 to NSHARDS
        invariant this.gid == gid && lastApplied == 0 && lastConfig == currentConfig == first && lastOperations == map[]
        invariant stateMachines == seq(i, _ => Shard(map[], Serving))
      {
        stateMachines := stateMachines + [Shard(map[], Serving)];
      }
    }

    // ----- The applier ---------------------------------------------------------------

    /** One message: commands at or below lastApplied are discarded. */
    method Applier(index: nat, command: Command) returns (response: Response)
      requires Valid()
      requires command.Configuration? ==> |command.config.shards| == NSHARDS
      requires command.InsertShards? ==> forall s :: s in command.copy.shards ==> s < NSHARDS
      requires command.DeleteShards? ==> forall s :: s in command.ids ==> s < NSHARDS
      modifies this
      ensures Valid() && lastApplied == if index <= old(lastApplied) then old(lastApplied) else index
      ensures State() == if index <= old(lastApplied) then old(State()) else ApplyCommand(old(State()), command)
      ensures index > old(lastApplied) && command.Operation? ==> response == ApplyOperation(old(State()), command.req).1
    {
      response := Response(OK, []);
      if index <= lastApplied {
        return;
      }
      lastApplied := index;
      match command {
        case Operation(req) => response := ApplyOp(req);
        case Configuration(config) => ApplyConfig(config);
        case InsertShards(copy) => InsertCopy(copy);
        case DeleteShards(num, ids) => DeleteIds(num, ids);
        case EmptyEntry =>
      }
    }

    /** The shard is assigned here and its data is here. */
    predicate Serves(s: nat)
      requires Valid() && s < NSHARDS
      reads this
    {
      currentConfig.shards[s] == gid && (stateMachines[s].status.Serving? || stateMachines[s].status.GCing?)
    }

    predicate Seen(req: Request)
      reads this
    {
      !req.op.Get? && req.client in lastOperations && req.command <= lastOperations[req.client].maxApplied
    }

    method ApplyOp(req: Request) returns (response: Response)
      requires Valid()
      modifies this`stateMachines, this`lastOperations
      ensures Valid() && (State(), response) == ApplyOperation(old(State()), req)
      ensures old(Seen(req)) || req.op.Get? || !old(Serves(Key2Shard(req.key))) ==> unchanged(this)
      ensures !old(Serves(Key2Shard(req.key))) ==> response == Response(ErrWrongGroup, [])
      ensures old(Serves(Key2Shard(req.key)) && Seen(req)) ==> response == old(lastOperations[req.client].lastResponse)
      ensures old(Serves(Key2Shard(req.key))) && req.op.Get? ==>
                var kv := old(stateMachines[Key2Shard(req.key)].kv);
                response == if req.key in kv then Response(OK, kv[req.key]) else Response(ErrNoKey, [])
      ensures old(Serves(Key2Shard(req.key)) && !Seen(req)) && !req.op.Get? ==>
                && response == Response(OK, [])
                && Writes(old(stateMachines[Key2Shard(req.key)].kv), stateMachines[Key2Shard(req.key)].kv, req)
                && (forall s :: 0 <= s < NSHARDS ==> stateMachines[s].status == old(stateMachines[s].status))
                && (forall s :: 0 <= s < NSHARDS && s != Key2Shard(req.key) ==> stateMachines[s] == old(stateMachines[s]))
                && Remembers(old(lastOperations), lastOperations, req)
    {
      var s := Key2Shard(req.key);
      if CanServe(State(), s) {
        if !req.op.Get? && IsDuplicate(State(), req.client, req.command) {
          return lastOperations[req.client].lastResponse;
        }
        response := ApplyToShard(req, s);
        if !req.op.Get? {
          lastOperations := lastOperations[req.client := OpContext(req.command, response)];
        } else {
          assert stateMachines == old(stateMachines);
        }
      } else {
        response := Response(ErrWrongGroup, []);
      }
    }

    method ApplyToShard(req: Request, s: nat) returns (response: Response)
      requires Valid() && s < NSHARDS
      modifies this`stateMachines
      ensures stateMachines == old(stateMachines)[s := old(stateMachines[s]).(kv := Written(old(stateMachines[s].kv), req))]
      ensures response == if req.op.Get? then Lookup(old(stateMachines[s].kv), req.key) else Response(OK, [])
      ensures Writes(old(stateMachines[s].kv), stateMachines[s].kv, req)
      ensures req.op.Get? ==>
                if req.key in old(stateMachines[s].kv) then response == Response(OK, old(stateMachines[s].kv[req.key]))
                else response == Response(ErrNoKey, [])
    {
      var shard := stateMachines[s];
      match req.op {
        case Put =>
          stateMachines := stateMachines[s := shard.(kv := shard.kv[req.key := req.value])];
          response := Response(OK, []);
        case Append =>
          var was := if req.key in shard.kv then shard.kv[req.key] else [];
          stateMachines := stateMachines[s := shard.(kv := shard.kv[req.key := was + req.value])];
          response := Response(OK, []);
        case Get =>
          response := if req.key in shard.kv then Response(OK, shard.kv[req.key]) else Response(ErrNoKey, []);
      }
    }

    method ApplyConfig(next: Config)
      requires Valid() && |next.shards| == NSHARDS
      modifies this`lastConfig, this`currentConfig, this`stateMachines
      ensures Valid() && State() == ApplyConfiguration(old(State()), next)
      ensures next.num != old(currentConfig).num + 1 ==> unchanged(this)
      ensures next.num == old(currentConfig).num + 1 ==>
                && lastConfig == old(currentConfig) && currentConfig == next
                && forall s :: 0 <= s < NSHARDS ==>
                     Handed(old(stateMachines[s]), stateMachines[s], gid, old(currentConfig).shards[s], next.shards[s])
    {
      if next.num == currentConfig.num + 1 {
        lastConfig := currentConfig;
        currentConfig := next;
        for i := 0 to NSHARDS
          invariant |stateMachines| == NSHARDS && lastConfig == old(currentConfig) && currentConfig == next
          invariant forall s :: 0 <= s < i ==>
                      stateMachines[s] == Reassign(old(stateMachines[s]), gid, lastConfig.shards[s], currentConfig.shards[s])
          invariant forall s :: i <= s < NSHARDS ==> stateMachines[s] == old(stateMachines[s])
        {
          if currentConfig.shards[i] == gid && lastConfig.shards[i] != gid {
            stateMachines := stateMachines[i := stateMachines[i].(status := if lastConfig.shards[i] == 0 then Serving else Pulling)];
          }
          if lastConfig.shards[i] == gid && currentConfig.shards[i] != gid {
            if currentConfig.shards[i] == 0 {
              stateMachines := stateMachines[i := Shard(map[], Serving)];
            } else {
              stateMachines := stateMachines[i := stateMachines[i].(status := BePulling)];
            }
          }
        }
      }
    }

    /** Both maps are walked in an arbitrary order. */
    method InsertCopy(copy: Copy)
      requires Valid() && forall s :: s in copy.shards ==> s < NSHARDS
      modifies this`stateMachines, this`lastOperations
      ensures Valid() && State() == ApplyInsert(old(State()), copy)
      ensures copy.num != currentConfig.num ==> unchanged(this)
      ensures copy.num == currentConfig.num ==>
                && Merged(old(lastOperations), copy.ops, lastOperations)
                && forall s :: 0 <= s < NSHARDS ==> Arrives(old(stateMachines[s]), stateMachines[s], s, copy.shards)
    {
      if copy.num == currentConfig.num {
        var left := copy.shards.Keys;
        while left != {}
          invariant left <= copy.shards.Keys && |stateMachines| == NSHARDS && lastOperations == old(lastOperations)
          invariant forall s :: 0 <= s < NSHARDS ==>
                      stateMachines[s] == if s in left then old(stateMachines[s])
                                          else Inserted(old(stateMachines[s]), s, copy.shards)
        {
          var s :| s in left;
          left := left - {s};
          if stateMachines[s].status.Pulling? {
            stateMachines := stateMachines[s := Shard(copy.shards[s], GCing)];
          }
        }
        assert stateMachines == ApplyInsert(old(State()), copy).shards;
        MergeOperations(copy.ops);
      }
    }

    method MergeOperations(more: OpTable)
      modifies this`lastOperations
      ensures lastOperations == MergeOps(old(lastOperations), more)
      ensures Merged(old(lastOperations), more, lastOperations)
    {
      var clients := more.Keys;
      while clients != {}
        invariant clients <= more.Keys
        invariant lastOperations == MergeOps(old(lastOperations), more - clients)
      {
        HasElement(clients);
        var c :| c in clients;
        clients := clients - {c};
        if c !in lastOperations || lastOperations[c].maxApplied < more[c].maxApplied {
          lastOperations := lastOperations[c := more[c]];
        }
      }
      assert more - {} == more;
    }

    method DeleteIds(num: nat, ids: seq<nat>)
      requires Valid() && forall s :: s in ids ==> s < NSHARDS
      modifies this`stateMachines
      ensures Valid() && State() == ApplyDelete(old(State()), num, ids)
      ensures forall s :: 0 <= s < NSHARDS ==>
                if num == currentConfig.num && s in ids then Cleared(old(stateMachines[s]), stateMachines[s])
                else stateMachines[s] == old(stateMachines[s])
    {
      if num == currentConfig.num {
        for i := 0 to |ids|
          invariant |stateMachines| == NSHARDS
          invariant forall s :: 0 <= s < NSHARDS ==>
                      stateMachines[s] == if s in ids[..i] then Deleted(old(stateMachines[s])) else old(stateMachines[s])
        {
          var s := ids[i];
          assert s in ids;
          match stateMachines[s].status {
            case GCing => stateMachines := stateMachines[s := stateMachines[s].(status := Serving)];
            case BePulling => stateMachines := stateMachines[s := Shard(map[], Serving)];
            case _ =>
          }
        }
        assert ids[..|ids|] == ids;
      }
    }

    // ----- The monitors and the pull handler -----------------------------------------

    /** configureAction asks for the next config only if no shard is on the move. */
    method CanTakeNext() returns (yes: bool)
      requires Valid()
      ensures yes == AllServing(State())
    {
      yes := true;
      for i := 0 to NSHARDS
        invariant yes ==> forall s :: 0 <= s < i ==> stateMachines[s].status.Serving?
      {
        if !stateMachines[i].status.Serving? {
          return false;
        }
      }
    }

    static predicate Listed(calls: map<nat, seq<nat>>, g: nat, s: nat) {
      g in calls && s in calls[g]
    }

    predicate Due(status: Status, g: nat, s: nat)
      requires Valid()
      reads this
    {
      s < NSHARDS && stateMachines[s].status == status && lastConfig.shards[s] == g
    }

    /** migrationAction and gcAction: the shards in a given status by their previous owner. */
    method ByPreviousOwner(status: Status) returns (calls: map<nat, seq<nat>>)
      requires Valid()
      ensures forall g: nat, s: nat :: Listed(calls, g, s) <==> Due(status, g, s)
    {
      calls := map[];
      for i := 0 to NSHARDS
        invariant forall g: nat, s: nat :: Listed(calls, g, s) <==> Due(status, g, s) && s < i
      {
        if stateMachines[i].status == status {
          var g := lastConfig.shards[i];
          ghost var was := calls;
          calls := calls[g := (if g in calls then calls[g] else []) + [i]];
          assert forall h: nat, s: nat :: Listed(calls, h, s) <==> Listed(was, h, s) || (h == g && s == i);
        }
      }
    }

    method GetShardsData(num: nat, ids: seq<nat>) returns (reply: PullReply)
      requires Valid() && forall s :: s in ids ==> s < NSHARDS
      ensures reply == if num == currentConfig.num then Ready(MakeCopy(State(), ids)) else NotReady
      ensures reply.Ready? <==> num == currentConfig.num
      ensures reply.Ready? ==>
                && reply.copy.num == num && reply.copy.ops == lastOperations
                && (forall s :: s in reply.copy.shards <==>
                      s in ids && (stateMachines[s].status.BePulling? || stateMachines[s].status.GCing?))
                && (forall s :: s in reply.copy.shards ==> s < NSHARDS && reply.copy.shards[s] == stateMachines[s].kv)
    {
      if num != currentConfig.num {
        return NotReady;
      }
      var shards: map<nat, map<Str, Str>> := map[];
      for i := 0 to |ids|
        invariant shards == MakeCopy(State(), ids[..i]).shards
      {
        assert ids[i] in ids;
        var shard := stateMachines[ids[i]];
        assert ids[..i + 1] == ids[..i] + [ids[i]];
        if shard.status.BePulling? || shard.status.GCing? {
          shards := shards[ids[i] := shard.kv];
        }
      }
      assert ids[..|ids|] == ids;
      reply := Ready(Copy(num, shards, lastOperations));
    }
  }
}
