/**
 What clients of the sharded service see, said about the writes that groups have served and
 nothing else: a get returns the last put to its key followed by what was appended since,
 counting each write once, where it was first served, whichever group served it.
 */
module ShardMeaning {
  import opened ShardGroup
  import opened ShardSystem
  import opened ShardInvariant
  import opened ShardSafety
  import W = Writes

  type Log = seq<W.Write<Str, Byte>>

  /** At step j a group applies the operation to a shard that it serves. */
  predicate ServesAt(run: seq<System>, actions: seq<Action>, j: nat, req: Request)
    requires |run| == |actions| + 1
  {
    && j < |actions| && actions[j].Apply? && actions[j].command == Operation(req) && Ready(run[j], actions[j].g)
    && CanServe(run[j].groups[actions[j].g], Key2Shard(req.key))
  }

  /** The writes served before step k, each where it was served first. */
  function Logged(run: seq<System>, actions: seq<Action>, k: nat): seq<Request>
    requires |run| == |actions| + 1 && k <= |actions|
  {
    if k == 0 then [] else
      var before, a := Logged(run, actions, k - 1), actions[k - 1];
      if a.Apply? && a.command.Operation? && !a.command.req.op.Get? && ServesAt(run, actions, k - 1, a.command.req) &&
         a.command.req !in before
      then before + [a.command.req] else before
  }

  function AsWrites(reqs: seq<Request>): Log {
    seq(|reqs|, i requires 0 <= i < |reqs| => W.Write(reqs[i].key, reqs[i].op.Put?, reqs[i].value))
  }

  /** What a get should answer after the logged writes. */
  function Answer(reqs: seq<Request>, key: Str): Response {
    match W.ValueAfter(AsWrites(reqs), key)
    case Some(text) => Response(OK, text)
    case None => Response(ErrNoKey, [])
  }

  function Found(store: map<Str, Str>, key: Str): W.Option<Str> {
    if key in store then W.Some(store[key]) else W.None
  }

  /** The single map holds what the logged writes have left, and knows which they were. */
  ghost predicate Agrees(spec: Spec, reqs: seq<Request>) {
    && (forall key :: Found(spec.store, key) == W.ValueAfter(AsWrites(reqs), key))
    && (forall r :: r in spec.done <==> r in reqs)
  }

  lemma WriteAgrees(spec: Spec, reqs: seq<Request>, req: Request)
    requires Agrees(spec, reqs) && !req.op.Get? && req !in reqs
    ensures Agrees(SpecApply(spec, req).0, reqs + [req])
  {
    var x := W.Write(req.key, req.op.Put?, req.value);
    assert AsWrites(reqs + [req]) == AsWrites(reqs) + [x];
    forall key ensures Found(SpecApply(spec, req).0.store, key) == W.ValueAfter(AsWrites(reqs + [req]), key) {
      W.ValueMore(AsWrites(reqs), x, key);
      assert Found(spec.store, key) == W.ValueAfter(AsWrites(reqs), key);
      assert [] + req.value == req.value;
    }
  }

  /** An operation is performed on the single map exactly where its shard is served. */
  lemma StepIsServed(run: seq<System>, actions: seq<Action>, C: seq<Config>, gids: set<nat>, j: nat)
    requires IsRun(run, actions, C, gids) && j < |actions|
    ensures var a := actions[j];
            if a.Apply? && a.command.Operation? && ServesAt(run, actions, j, a.command.req)
            then run[j + 1].spec == SpecApply(run[j].spec, a.command.req).0
            else run[j + 1].spec == run[j].spec
  {
    RunInv(run, actions, C, gids, j);
    assert StepAt(run, actions, j);
    var a := actions[j];
    if a.Apply? && a.command.Operation? && ServesAt(run, actions, j, a.command.req) {
      ServedAnswers(run, actions, C, gids, j, a.command.req);
    }
  }

  /** A served operation gets a proper answer, the one of the single map. */
  lemma ServedAnswers(run: seq<System>, actions: seq<Action>, C: seq<Config>, gids: set<nat>, j: nat, req: Request)
    requires IsRun(run, actions, C, gids) && ServesAt(run, actions, j, req)
    ensures Served(ApplyOperation(run[j].groups[actions[j].g], req).1)
    ensures SpecApply(run[j].spec, req) == (run[j + 1].spec, ApplyOperation(run[j].groups[actions[j].g], req).1)
    ensures (req, ApplyOperation(run[j].groups[actions[j].g], req).1) in run[j + 1].replies
  {
    RunInv(run, actions, C, gids, j);
    assert StepAt(run, actions, j);
    var g := actions[j].g;
    assert GroupOK(run[j].configs, run[j].groups[g], run[j].token, run[j].spec);
    ServedOperation(run[j], g, req);
  }

  lemma {:induction false} MapIsLatest(run: seq<System>, actions: seq<Action>, C: seq<Config>, gids: set<nat>, k: nat)
    requires IsRun(run, actions, C, gids) && k < |run|
    ensures Agrees(run[k].spec, Logged(run, actions, k))
  {
    if k == 0 {
      assert AsWrites([]) == [];
    } else {
      MapIsLatest(run, actions, C, gids, k - 1);
      StepIsServed(run, actions, C, gids, k - 1);
      var a := actions[k - 1];
      if a.Apply? && a.command.Operation? && !a.command.req.op.Get? && ServesAt(run, actions, k - 1, a.command.req) &&
         a.command.req !in Logged(run, actions, k - 1) {
        WriteAgrees(run[k - 1].spec, Logged(run, actions, k - 1), a.command.req);
      }
    }
  }

  /** A group that serves a get answers the last put and what was appended since, or that
      there is no such key. */
  lemma GetAnswersLatest(run: seq<System>, actions: seq<Action>, C: seq<Config>, gids: set<nat>, j: nat, req: Request)
    requires IsRun(run, actions, C, gids) && ServesAt(run, actions, j, req) && req.op.Get?
    ensures ApplyOperation(run[j].groups[actions[j].g], req).1 == Answer(Logged(run, actions, j), req.key)
    ensures (req, Answer(Logged(run, actions, j), req.key)) in run[j + 1].replies
  {
    MapIsLatest(run, actions, C, gids, j);
    ServedAnswers(run, actions, C, gids, j, req);
    assert Found(run[j].spec.store, req.key) == W.ValueAfter(AsWrites(Logged(run, actions, j)), req.key);
  }

  /** The group that serves a shard holds exactly what the served writes have left there. */
  lemma ShardHoldsLatest(run: seq<System>, actions: seq<Action>, C: seq<Config>, gids: set<nat>, k: nat, g: nat, key: Str)
    requires IsRun(run, actions, C, gids) && k < |run| && Ready(run[k], g) && CanServe(run[k].groups[g], Key2Shard(key))
    ensures Found(run[k].groups[g].shards[Key2Shard(key)].kv, key) == W.ValueAfter(AsWrites(Logged(run, actions, k)), key)
  {
    MapIsLatest(run, actions, C, gids, k);
    ServesTheMap(run, actions, C, gids, k, g, Key2Shard(key));
    assert Found(run[k].spec.store, key) == W.ValueAfter(AsWrites(Logged(run, actions, k)), key);
  }

  /** No write is logged twice. */
  lemma {:induction false} LoggedOnce(run: seq<System>, actions: seq<Action>, k: nat, i: nat, j: nat)
    requires |run| == |actions| + 1 && k <= |actions| && i < j < |Logged(run, actions, k)|
    ensures Logged(run, actions, k)[i] != Logged(run, actions, k)[j]
  {
    if j < |Logged(run, actions, k - 1)| {
      LoggedOnce(run, actions, k - 1, i, j);
    }
  }

  /** Every completed call: a get returned the latest value at one moment between its call
      and its return; a write was answered OK and is among the logged writes. */
  lemma CallsSeeLatest(run: seq<System>, actions: seq<Action>, C: seq<Config>, gids: set<nat>, k: nat, client: int, response: Response)
      returns (j: nat)
    requires IsRun(run, actions, C, gids) && k < |actions| && actions[k] == Complete(client, response)
    ensures client in run[k].clients && run[k].clients[client].Waiting?
    ensures var req := run[k].clients[client].req;
            && j < k && (forall i: nat :: Issues(run, actions, i, req) ==> i < j)
            && (req.op.Get? ==> response == Answer(Logged(run, actions, j), req.key))
            && (!req.op.Get? ==> response == Response(OK, []) && req in Logged(run, actions, j + 1))
  {
    j := Linearizable(run, actions, C, gids, k, client, response);
    var req := run[k].clients[client].req;
    MapIsLatest(run, actions, C, gids, j);
    MapIsLatest(run, actions, C, gids, j + 1);
    assert Found(run[j].spec.store, req.key) == W.ValueAfter(AsWrites(Logged(run, actions, j)), req.key);
  }
}
