/**
 The invariant of the migration protocol.  The token of a shard walks along the config
 history: it stands at the config number where the present holder of the shard acquired
 it, and the holder's copy is the single map restricted to that shard.
 */
module ShardInvariant {
  import opened ShardGroup
  import opened ShardSystem

  // ----- The config history ----------------------------------------------------------

  lemma {:induction false} StartConstant(C: seq<Config>, n: nat, m: nat, s: nat)
    requires Rows(C) && n < |C| && s < NSHARDS && Start(C, n, s) <= m <= n
    ensures Owner(C, m, s) == Owner(C, n, s) && Start(C, m, s) == Start(C, n, s)
  {
    if m < n {
      StartConstant(C, n - 1, m, s);
    }
  }

  lemma {:induction false} StaysAssigned(C: seq<Config>, n: nat, m: nat, s: nat)
    requires NeverUnassigned(C) && n <= m < |C| && s < NSHARDS && Owner(C, n, s) != 0
    ensures Owner(C, m, s) != 0
  {
    if n < m {
      StaysAssigned(C, n, m - 1, s);
    }
  }

  // ----- What the single map says about one shard ------------------------------------

  function Restrict(store: map<Str, Str>, s: nat): map<Str, Str> {
    map k | k in store && Key2Shard(k) == s :: store[k]
  }

  /** Every write performed on s is in the table. */
  predicate Covers(ops: OpTable, s: nat, done: set<Request>) {
    forall r :: r in done && Key2Shard(r.key) == s ==> r.client in ops && r.command <= ops[r.client].maxApplied
  }

  predicate Faithful(kv: map<Str, Str>, ops: OpTable, s: nat, spec: Spec) {
    kv == Restrict(spec.store, s) && Covers(ops, s, spec.done)
  }

  predicate Untouched(s: nat, spec: Spec) {
    Restrict(spec.store, s) == map[] && forall r :: r in spec.done ==> Key2Shard(r.key) != s
  }

  predicate Recorded(done: set<Request>, client: int, command: int) {
    exists r :: r in done && r.client == client && r.command == command
  }

  /** Tables only speak of writes that were performed. */
  predicate TableOK(ops: OpTable, done: set<Request>) {
    forall c :: c in ops ==> ops[c].lastResponse == Response(OK, []) && Recorded(done, c, ops[c].maxApplied)
  }

  // ----- One group -------------------------------------------------------------------

  predicate Positioned(C: seq<Config>, g: Group) {
    && WellFormed(g) && Rows(C) && g.gid != 0
    && g.currentConfig.num < |C|
    && g.currentConfig == C[g.currentConfig.num]
    && g.lastConfig == C[if g.currentConfig.num == 0 then 0 else g.currentConfig.num - 1]
  }

  /** The status of a shard against the config history, the token and the single map. */
  predicate ShardOK(C: seq<Config>, g: Group, s: nat, e: nat, spec: Spec)
    requires Positioned(C, g) && s < NSHARDS
  {
    var k, shard := g.currentConfig.num, g.shards[s];
    match shard.status
    case Serving =>
      if Owner(C, k, s) == g.gid then Start(C, k, s) <= e && Faithful(shard.kv, g.lastOps, s, spec)
      else shard.kv == map[] && (k > 0 && Owner(C, k - 1, s) == g.gid ==> k <= e)
    case GCing =>
      && k > 0 && Owner(C, k, s) == g.gid != Owner(C, k - 1, s)
      && k <= e && Faithful(shard.kv, g.lastOps, s, spec)
    case Pulling =>
      && k > 0 && Owner(C, k, s) == g.gid != Owner(C, k - 1, s) && Owner(C, k - 1, s) != 0
      && e < k && shard.kv == map[]
    case BePulling =>
      && k > 0 && Owner(C, k - 1, s) == g.gid != Owner(C, k, s)
      && (k <= e || (e == Start(C, k - 1, s) && Faithful(shard.kv, g.lastOps, s, spec)))
  }

  predicate GroupOK(C: seq<Config>, g: Group, token: seq<nat>, spec: Spec)
    requires |token| == NSHARDS
  {
    && Positioned(C, g)
    && TableOK(g.lastOps, spec.done)
    && forall s :: 0 <= s < NSHARDS ==> ShardOK(C, g, s, token[s], spec)
  }

  // ----- Tokens ----------------------------------------------------------------------

  function NumOf(groups: map<nat, Group>, g: nat): int {
    if g in groups then groups[g].currentConfig.num else -1
  }

  /** Whoever owned the shard before the token's config has moved past that config. */
  predicate PastMovedOn(C: seq<Config>, groups: map<nat, Group>, s: nat, e: nat)
    requires Rows(C) && s < NSHARDS && e <= |C|
  {
    forall n :: 0 <= n < e && Owner(C, n, s) != 0 ==> NumOf(groups, Owner(C, n, s)) > n
  }

  /** The holder goes no further than the config that takes the shard away from it. */
  predicate NotPast(C: seq<Config>, groups: map<nat, Group>, s: nat, e: nat)
    requires Rows(C) && s < NSHARDS && e < |C|
  {
    forall m :: e <= m < |C| - 1 && Start(C, m, s) == e && Owner(C, m + 1, s) != Owner(C, m, s)
      ==> NumOf(groups, Owner(C, e, s)) <= m + 1
  }

  predicate TokenOK(C: seq<Config>, groups: map<nat, Group>, s: nat, e: nat, spec: Spec)
    requires Rows(C) && s < NSHARDS
  {
    && e <= |C|
    && PastMovedOn(C, groups, s, e)
    && (e < |C| ==>
          && 0 < e && Owner(C, e, s) != 0 && Start(C, e, s) == e
          && (Owner(C, e - 1, s) == 0 || e <= NumOf(groups, Owner(C, e, s)))
          && NotPast(C, groups, s, e))
    && (e == |C| || NumOf(groups, Owner(C, e, s)) < e ==> Untouched(s, spec))
  }

  // ----- Messages and proposals ------------------------------------------------------

  /** The source still holds exactly what was copied. */
  predicate SourceHolds(C: seq<Config>, groups: map<nat, Group>, num: nat, s: nat, e: nat, kv: map<Str, Str>, ops: OpTable, spec: Spec)
    requires Rows(C) && s < NSHARDS && 0 < num < |C|
  {
    var A := Owner(C, num - 1, s);
    && A in groups && groups[A].currentConfig.num == num && s < |groups[A].shards|
    && groups[A].shards[s].status.BePulling?
    && e == Start(C, num - 1, s)
    && Faithful(kv, ops, s, spec)
  }

  predicate CopyOK(sys: System, copy: Copy)
    requires Rows(sys.configs) && |sys.token| == NSHARDS
  {
    && copy.num < |sys.configs|
    && TableOK(copy.ops, sys.spec.done)
    && forall s :: s in copy.shards ==>
         && s < NSHARDS
         && (copy.num <= sys.token[s] ||
             (copy.num > 0 && SourceHolds(sys.configs, sys.groups, copy.num, s, sys.token[s], copy.shards[s], copy.ops, sys.spec)))
  }

  predicate Passed(token: seq<nat>, num: nat, ids: seq<nat>) {
    forall s :: s in ids ==> s < |token| && num <= token[s]
  }

  predicate CommandOK(sys: System, g: nat, command: Command) {
    && g in sys.groups
    && match command
       case Operation(req) => req in sys.requests
       case Configuration(config) =>
         && 0 < config.num < |sys.configs| && config == sys.configs[config.num]
         && (config.num <= sys.groups[g].currentConfig.num ||
             (config.num == sys.groups[g].currentConfig.num + 1 && AllServing(sys.groups[g])))
       case InsertShards(copy) => copy in sys.copies
       case DeleteShards(num, ids) => Passed(sys.token, num, ids)
       case EmptyEntry => true
  }

  // ----- Clients ---------------------------------------------------------------------

  /** Command id `command` of the client is behind it. */
  predicate Behind(client: Client, command: int) {
    match client
    case Idle(next) => command < next
    case Waiting(req) => command < req.command
  }

  predicate RequestOK(sys: System, r: Request) {
    && r.client in sys.clients
    && (Behind(sys.clients[r.client], r.command) || sys.clients[r.client] == Waiting(r))
    && (!r.op.Get? && Behind(sys.clients[r.client], r.command) ==> r in sys.spec.done)
  }

  predicate ClientsOK(sys: System) {
    && (forall r :: r in sys.requests ==> RequestOK(sys, r))
    && (forall r, q :: r in sys.requests && q in sys.requests && r.client == q.client && r.command == q.command ==> r == q)
    && (forall c :: c in sys.clients && sys.clients[c].Waiting? ==> sys.clients[c].req in sys.requests && sys.clients[c].req.client == c)
    && (forall r :: r in sys.spec.done ==> r in sys.requests && !r.op.Get?)
    && (forall x :: x in sys.replies ==> x.0 in sys.requests && (!x.0.op.Get? ==> x.0 in sys.spec.done))
  }

  // ----- The invariant ---------------------------------------------------------------

  predicate Base(sys: System) {
    && |sys.token| == NSHARDS
    && Populated(sys.configs, sys.groups.Keys)
    && forall g :: g in sys.groups ==> sys.groups[g].gid == g
  }

  ghost predicate Inv(sys: System) {
    && Base(sys)
    && (forall g {:trigger GroupOK(sys.configs, sys.groups[g], sys.token, sys.spec)} ::
          g in sys.groups ==> GroupOK(sys.configs, sys.groups[g], sys.token, sys.spec))
    && (forall s {:trigger TokenOK(sys.configs, sys.groups, s, sys.token[s], sys.spec)} ::
          0 <= s < NSHARDS ==> TokenOK(sys.configs, sys.groups, s, sys.token[s], sys.spec))
    && (forall c {:trigger CopyOK(sys, c)} :: c in sys.copies ==> CopyOK(sys, c))
    && (forall x {:trigger CommandOK(sys, x.0, x.1)} :: x in sys.pool ==> CommandOK(sys, x.0, x.1))
    && (forall gc :: gc in sys.gcs || gc in sys.cleared ==> gc.from in sys.groups && Passed(sys.token, gc.num, gc.ids))
    && ClientsOK(sys)
  }

  // ----- The holder of a shard -------------------------------------------------------

  /** A group that can serve a shard is where the token points. */
  lemma ServerIsHolder(sys: System, g: nat, s: nat)
    requires Inv(sys) && g in sys.groups && s < NSHARDS
    requires WellFormed(sys.groups[g]) && CanServe(sys.groups[g], s)
    ensures var k := sys.groups[g].currentConfig.num;
            && sys.token[s] < |sys.configs| && Owner(sys.configs, sys.token[s], s) == g
            && k < |sys.configs| && sys.token[s] == Start(sys.configs, k, s) <= k
            && Faithful(sys.groups[g].shards[s].kv, sys.groups[g].lastOps, s, sys.spec)
  {
    var C, G, e := sys.configs, sys.groups[g], sys.token[s];
    var k := G.currentConfig.num;
    assert GroupOK(C, G, sys.token, sys.spec) && TokenOK(C, sys.groups, s, e, sys.spec);
    assert ShardOK(C, G, s, e, sys.spec);
    assert Owner(C, k, s) == g;
    assert k < e ==> NumOf(sys.groups, Owner(C, k, s)) > k;
    StartConstant(C, k, e, s);
  }

  /** A source that still waits for its shard to be pulled is where the token points. */
  lemma SourceIsHolder(sys: System, g: nat, s: nat)
    requires Inv(sys) && g in sys.groups && s < NSHARDS
    requires WellFormed(sys.groups[g]) && sys.groups[g].shards[s].status.BePulling?
    requires sys.token[s] < sys.groups[g].currentConfig.num
    ensures sys.token[s] < |sys.configs| && Owner(sys.configs, sys.token[s], s) == g
    ensures Faithful(sys.groups[g].shards[s].kv, sys.groups[g].lastOps, s, sys.spec)
  {
    assert GroupOK(sys.configs, sys.groups[g], sys.token, sys.spec);
    assert ShardOK(sys.configs, sys.groups[g], s, sys.token[s], sys.spec);
  }

  lemma InitInv(C: seq<Config>, gids: set<nat>)
    requires Populated(C, gids)
    ensures Inv(Init(C, gids))
  {
    var sys := Init(C, gids);
    assert sys.groups.Keys == gids;
    forall s | 0 <= s < NSHARDS ensures TokenOK(C, sys.groups, s, sys.token[s], sys.spec) {
      var e := sys.token[s];
      if 0 < e < |C| {
        assert Owner(C, e - 1, s) == 0;
      }
      assert Restrict(map[], s) == map[];
    }
    forall g | g in sys.groups ensures GroupOK(C, sys.groups[g], sys.token, sys.spec) {
    }
  }
}
