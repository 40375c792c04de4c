/**
 Which config histories let two groups serve one shard.  The answer depends on the owners
 of that shard alone: exclusion holds, whatever happens to the other shards, if and only if
 the shard never goes from one group through the invalid group 0 to a different group.

 The invariant is about one shard s.  `Holder` is the owner of s with the gaps filled by
 the last group that had it; the token of s walks along the holders.  Data plays no part.
 */
module ShardExclusion {
  import opened ShardGroup
  import opened ShardSystem
  import I = ShardInvariant
  import opened ShardNecessity

  // ----- Holders ---------------------------------------------------------------------

  /** The last group up to config n that owned s, or 0. */
  function Holder(C: seq<Config>, n: nat, s: nat): (r: nat)
    requires Rows(C) && n < |C| && s < NSHARDS
    ensures Owner(C, n, s) != 0 ==> r == Owner(C, n, s)
  {
    if n == 0 || Owner(C, n, s) != 0 then Owner(C, n, s) else Holder(C, n - 1, s)
  }

  /** From nobody a shard goes to its first group or back to the group that had it. */
  predicate NoSwitch(C: seq<Config>, s: nat)
    requires Rows(C) && s < NSHARDS
  {
    forall n :: 0 < n < |C| && Owner(C, n - 1, s) == 0 && Owner(C, n, s) != 0 ==>
      Holder(C, n - 1, s) == 0 || Holder(C, n - 1, s) == Owner(C, n, s)
  }

  /** The first config from which s has had its holder of config n. */
  function Since(C: seq<Config>, n: nat, s: nat): (r: nat)
    requires Rows(C) && n < |C| && s < NSHARDS
    ensures r <= n && Holder(C, r, s) == Holder(C, n, s)
  {
    if n == 0 || Holder(C, n - 1, s) != Holder(C, n, s) then n else Since(C, n - 1, s)
  }

  lemma {:induction false} SinceConstant(C: seq<Config>, n: nat, m: nat, s: nat)
    requires Rows(C) && n < |C| && s < NSHARDS && Since(C, n, s) <= m <= n
    ensures Holder(C, m, s) == Holder(C, n, s) && Since(C, m, s) == Since(C, n, s)
  {
    if m < n {
      SinceConstant(C, n - 1, m, s);
    }
  }

  lemma {:induction false} NoHolderBefore(C: seq<Config>, n: nat, m: nat, s: nat)
    requires Rows(C) && m <= n < |C| && s < NSHARDS && Holder(C, n, s) == 0
    ensures Holder(C, m, s) == 0
  {
    if m < n {
      NoHolderBefore(C, n - 1, m, s);
    }
  }

  // ----- The invariant of one shard --------------------------------------------------

  predicate StatusOK(C: seq<Config>, g: Group, s: nat, e: nat)
    requires I.Positioned(C, g) && s < NSHARDS
  {
    var k := g.currentConfig.num;
    match g.shards[s].status
    case Serving =>
      if Holder(C, k, s) == g.gid then Since(C, k, s) <= e
      else k > 0 && Holder(C, k - 1, s) == g.gid ==> k <= e
    case GCing => k > 0 && Owner(C, k, s) == g.gid != Holder(C, k - 1, s) && k <= e
    case Pulling =>
      k > 0 && Owner(C, k, s) == g.gid != Owner(C, k - 1, s) && Owner(C, k - 1, s) != 0 && e < k
    case BePulling =>
      && k > 0 && Owner(C, k - 1, s) == g.gid != Owner(C, k, s) && Owner(C, k, s) != 0
      && (k <= e || e == Since(C, k - 1, s))
  }

  predicate MovedOn(C: seq<Config>, groups: map<nat, Group>, s: nat, n: nat)
    requires Rows(C) && s < NSHARDS && n < |C|
  {
    Holder(C, n, s) != 0 ==> I.NumOf(groups, Holder(C, n, s)) > n
  }

  predicate Ends(C: seq<Config>, s: nat, e: nat, m: nat)
    requires Rows(C) && s < NSHARDS && e <= m < |C| - 1
  {
    Since(C, m, s) == e && Holder(C, m + 1, s) != Holder(C, m, s)
  }

  predicate TokenOK(C: seq<Config>, groups: map<nat, Group>, s: nat, e: nat)
    requires Rows(C) && s < NSHARDS
  {
    && e <= |C|
    && (forall n {:trigger MovedOn(C, groups, s, n)} :: 0 <= n < e ==> MovedOn(C, groups, s, n))
    && (e < |C| ==>
          && 0 < e && Owner(C, e, s) != 0 && Since(C, e, s) == e
          && (Holder(C, e - 1, s) == 0 || e <= I.NumOf(groups, Owner(C, e, s)))
          && (forall m {:trigger Ends(C, s, e, m)} ::
                e <= m < |C| - 1 && Ends(C, s, e, m) ==> I.NumOf(groups, Owner(C, e, s)) <= m + 1))
  }

  /** The source of a copy with s in it still waits. */
  predicate SourceWaits(C: seq<Config>, groups: map<nat, Group>, num: nat, s: nat, e: nat)
    requires Rows(C) && s < NSHARDS && 0 < num < |C|
  {
    var A := Owner(C, num - 1, s);
    && A in groups && groups[A].currentConfig.num == num && s < |groups[A].shards|
    && groups[A].shards[s].status.BePulling? && e == Since(C, num - 1, s)
  }

  predicate CopyOK(sys: System, s: nat, copy: Copy)
    requires Rows(sys.configs) && |sys.token| == NSHARDS && s < NSHARDS
  {
    && copy.num < |sys.configs|
    && (s in copy.shards ==>
          copy.num <= sys.token[s] || (copy.num > 0 && SourceWaits(sys.configs, sys.groups, copy.num, s, sys.token[s])))
  }

  predicate CommandOK(sys: System, s: nat, g: nat, command: Command)
    requires |sys.token| == NSHARDS && s < NSHARDS
  {
    && g in sys.groups
    && match command
       case Configuration(config) =>
         && 0 < config.num < |sys.configs| && config == sys.configs[config.num]
         && (config.num <= sys.groups[g].currentConfig.num ||
             (config.num == sys.groups[g].currentConfig.num + 1 && AllServing(sys.groups[g])))
       case InsertShards(copy) => copy in sys.copies
       case DeleteShards(num, ids) => s in ids ==> num <= sys.token[s]
       case _ => true
  }

  predicate Base(sys: System, s: nat) {
    && |sys.token| == NSHARDS && s < NSHARDS
    && Staffed(sys.configs, sys.groups.Keys) && NoSwitch(sys.configs, s)
    && forall g :: g in sys.groups ==> sys.groups[g].gid == g
  }

  predicate GroupOK(sys: System, s: nat, g: nat)
    requires Base(sys, s) && g in sys.groups
  {
    I.Positioned(sys.configs, sys.groups[g]) && StatusOK(sys.configs, sys.groups[g], s, sys.token[s])
  }

  ghost predicate Inv(sys: System, s: nat) {
    && Base(sys, s)
    && (forall g {:trigger GroupOK(sys, s, g)} :: g in sys.groups ==> GroupOK(sys, s, g))
    && TokenOK(sys.configs, sys.groups, s, sys.token[s])
    && (forall c {:trigger CopyOK(sys, s, c)} :: c in sys.copies ==> CopyOK(sys, s, c))
    && (forall x {:trigger CommandOK(sys, s, x.0, x.1)} :: x in sys.pool ==> CommandOK(sys, s, x.0, x.1))
    && (forall gc :: gc in sys.gcs || gc in sys.cleared ==> gc.from in sys.groups && (s in gc.ids ==> gc.num <= sys.token[s]))
  }

  /** A group that can serve s is the holder at the token. */
  lemma ServerIsHolder(sys: System, s: nat, g: nat)
    requires Inv(sys, s) && g in sys.groups && WellFormed(sys.groups[g]) && CanServe(sys.groups[g], s)
    ensures sys.token[s] < |sys.configs| && Owner(sys.configs, sys.token[s], s) == g
  {
    var C, e, k := sys.configs, sys.token[s], sys.groups[g].currentConfig.num;
    assert GroupOK(sys, s, g);
    assert Holder(C, k, s) == g;
    assert !MovedOn(C, sys.groups, s, k);
    SinceConstant(C, k, e, s);
  }

  lemma {:induction false} FirstHolder(C: seq<Config>, n: nat, e: nat, s: nat)
    requires Rows(C) && n < e <= |C| && s < NSHARDS && forall m :: 0 <= m < e ==> Owner(C, m, s) == 0
    ensures Holder(C, n, s) == 0
  {
    if n > 0 {
      FirstHolder(C, n - 1, e, s);
    }
  }

  lemma InitInv(C: seq<Config>, gids: set<nat>, s: nat)
    requires Staffed(C, gids) && s < NSHARDS && NoSwitch(C, s)
    ensures Inv(Init(C, gids), s)
  {
    var sys := Init(C, gids);
    var e := sys.token[s];
    assert sys.groups.Keys == gids;
    forall n | 0 <= n < e ensures MovedOn(C, sys.groups, s, n) {
      FirstHolder(C, n, e, s);
    }
    if e < |C| {
      FirstHolder(C, e - 1, e, s);
    }
    forall g | g in sys.groups ensures GroupOK(sys, s, g) {
    }
  }

  // ----- Steps that leave the groups and the token alone -----------------------------

  predicate SameCore(sys: System, sys': System) {
    && sys'.configs == sys.configs && sys'.groups == sys.groups && sys'.token == sys.token && sys.copies <= sys'.copies
  }

  lemma QuietInv(sys: System, sys': System, s: nat)
    requires Inv(sys, s) && SameCore(sys, sys')
    requires forall c {:trigger CopyOK(sys', s, c)} :: c in sys'.copies && c !in sys.copies ==> CopyOK(sys', s, c)
    requires forall x {:trigger CommandOK(sys', s, x.0, x.1)} :: x in sys'.pool && x !in sys.pool ==> CommandOK(sys', s, x.0, x.1)
    requires forall gc :: gc in sys'.gcs || gc in sys'.cleared ==> gc.from in sys.groups && (s in gc.ids ==> gc.num <= sys.token[s])
    ensures Inv(sys', s)
  {
    forall g | g in sys'.groups ensures GroupOK(sys', s, g) {
      assert GroupOK(sys, s, g);
    }
    forall c | c in sys'.copies ensures CopyOK(sys', s, c) {
      assert c in sys.copies ==> CopyOK(sys, s, c);
    }
    forall x | x in sys'.pool ensures CommandOK(sys', s, x.0, x.1) {
      assert x in sys.pool ==> CommandOK(sys, s, x.0, x.1);
    }
  }

  lemma PullInv(sys: System, s: nat, g: nat, num: nat, ids: seq<nat>)
    requires Inv(sys, s) && Enabled(sys, Pull(g, num, ids))
    ensures Inv(Do(sys, Pull(g, num, ids)), s)
  {
    assert GroupOK(sys, s, g);
    QuietInv(sys, Do(sys, Pull(g, num, ids)), s);
  }

  lemma ProposeInv(sys: System, s: nat, g: nat, command: Command)
    requires Inv(sys, s) && CommandOK(sys, s, g, command)
    ensures Inv(Propose(sys, g, command), s)
  {
    QuietInv(sys, Propose(sys, g, command), s);
  }

  lemma ProposeConfigInv(sys: System, s: nat, g: nat)
    requires Inv(sys, s) && Enabled(sys, ProposeConfig(g))
    ensures Inv(Do(sys, ProposeConfig(g)), s)
  {
    var next := sys.groups[g].currentConfig.num + 1;
    assert sys.configs[next].num == next;
    ProposeInv(sys, s, g, Configuration(sys.configs[next]));
  }

  lemma AskGcInv(sys: System, s: nat, g: nat, to: nat, ids: seq<nat>)
    requires Inv(sys, s) && Enabled(sys, AskGc(g, to, ids))
    ensures Inv(Do(sys, AskGc(g, to, ids)), s)
  {
    assert GroupOK(sys, s, g);
    QuietInv(sys, Do(sys, AskGc(g, to, ids)), s);
  }

  lemma HandleGcInv(sys: System, s: nat, gc: Gc)
    requires Inv(sys, s) && Enabled(sys, HandleGc(gc))
    ensures Inv(Do(sys, HandleGc(gc)), s)
  {
    QuietInv(sys, Do(sys, HandleGc(gc)), s);
  }

  // ----- One group moves, the token stays --------------------------------------------

  lemma MovedInv(sys: System, sys': System, s: nat, g: nat)
    requires Inv(sys, s) && g in sys.groups && sys'.configs == sys.configs && sys'.groups.Keys == sys.groups.Keys
    requires forall h :: h in sys.groups && h != g ==> sys'.groups[h] == sys.groups[h]
    requires sys'.pool == sys.pool && sys'.copies == sys.copies && sys'.gcs == sys.gcs && sys'.cleared == sys.cleared
    requires |sys'.token| == NSHARDS && sys'.token[s] == sys.token[s]
    requires sys'.groups[g].gid == g && I.Positioned(sys.configs, sys'.groups[g])
    requires StatusOK(sys.configs, sys'.groups[g], s, sys.token[s])
    requires TokenOK(sys.configs, sys'.groups, s, sys.token[s])
    requires forall c {:trigger CopyOK(sys', s, c)} :: c in sys.copies ==> CopyOK(sys', s, c)
    requires forall x {:trigger CommandOK(sys', s, x.0, x.1)} :: x in sys.pool ==> CommandOK(sys', s, x.0, x.1)
    ensures Inv(sys', s)
  {
    assert Base(sys', s);
    forall h | h in sys'.groups ensures GroupOK(sys', s, h) {
      assert GroupOK(sys, s, h);
    }
  }

  /** The group keeps its config and its status of s. */
  lemma StillInv(sys: System, sys': System, s: nat, g: nat)
    requires Inv(sys, s) && g in sys.groups && sys'.configs == sys.configs && sys'.groups.Keys == sys.groups.Keys
    requires forall h :: h in sys.groups && h != g ==> sys'.groups[h] == sys.groups[h]
    requires sys'.pool == sys.pool && sys'.copies == sys.copies && sys'.gcs == sys.gcs && sys'.cleared == sys.cleared
    requires |sys'.token| == NSHARDS && sys'.token[s] == sys.token[s]
    requires var G, G' := sys.groups[g], sys'.groups[g];
             && |G.shards| == |G'.shards| && s < |G.shards|
             && G' == G.(shards := G'.shards, lastOps := G'.lastOps)
             && (G'.shards[s].status == G.shards[s].status ||
                 (MovedOK(sys, G', s) && !(G.shards[s].status.BePulling? && sys.token[s] < G.currentConfig.num)))
             && (AllServing(G) ==> AllServing(G'))
    ensures Inv(sys', s)
  {
    var C, e := sys.configs, sys.token[s];
    assert GroupOK(sys, s, g);
    forall n | 0 <= n < e ensures MovedOn(C, sys'.groups, s, n) {
      assert MovedOn(C, sys.groups, s, n);
    }
    forall c | c in sys.copies ensures CopyOK(sys', s, c) {
      assert CopyOK(sys, s, c);
    }
    forall x | x in sys.pool ensures CommandOK(sys', s, x.0, x.1) {
      assert CommandOK(sys, s, x.0, x.1);
    }
    MovedInv(sys, sys', s, g);
  }

  predicate MovedOK(sys: System, G: Group, s: nat)
    requires |sys.token| == NSHARDS && s < NSHARDS
  {
    I.Positioned(sys.configs, G) && StatusOK(sys.configs, G, s, sys.token[s])
  }

  lemma OperationKeeps(G: Group, req: Request)
    requires WellFormed(G)
    ensures var G' := ApplyOperation(G, req).0;
            && |G'.shards| == |G.shards| && G' == G.(shards := G'.shards, lastOps := G'.lastOps)
            && (forall t :: 0 <= t < NSHARDS ==> G'.shards[t].status == G.shards[t].status)
            && (AllServing(G) ==> AllServing(G'))
  {
  }

  lemma OperationInv(sys: System, s: nat, g: nat, req: Request)
    requires Inv(sys, s) && Enabled(sys, Apply(g, Operation(req)))
    ensures Inv(DoApply(sys, g, Operation(req)), s)
  {
    assert GroupOK(sys, s, g);
    OperationKeeps(sys.groups[g], req);
    StillInv(sys, DoApply(sys, g, Operation(req)), s, g);
  }

  lemma DeleteInv(sys: System, s: nat, g: nat, num: nat, ids: seq<nat>)
    requires Inv(sys, s) && Enabled(sys, Apply(g, DeleteShards(num, ids)))
    ensures Inv(DoApply(sys, g, DeleteShards(num, ids)), s)
  {
    var x := (g, DeleteShards(num, ids));
    assert CommandOK(sys, s, x.0, x.1);
    assert GroupOK(sys, s, g);
    StillInv(sys, DoApply(sys, g, DeleteShards(num, ids)), s, g);
  }

  // ----- A group takes its next config -----------------------------------------------

  /** The token against a config in which the group pulls s. */
  lemma TokenBefore(sys: System, s: nat, g: nat, k: nat)
    requires Inv(sys, s) && g in sys.groups && k + 1 < |sys.configs| && sys.groups[g].currentConfig.num == k
    requires Owner(sys.configs, k + 1, s) == g && Owner(sys.configs, k, s) != 0
    requires Owner(sys.configs, k, s) != g
    ensures sys.token[s] <= k
  {
    assert !MovedOn(sys.configs, sys.groups, s, k + 1);
  }

  lemma TokenAfter(sys: System, s: nat, k: nat)
    requires Inv(sys, s) && k < |sys.configs| && Holder(sys.configs, k, s) == 0
    ensures sys.token[s] > k
  {
    if sys.token[s] <= k {
      NoHolderBefore(sys.configs, k, sys.token[s], s);
    }
  }

  lemma ReassignOK(sys: System, s: nat, g: nat)
    requires Inv(sys, s) && g in sys.groups && sys.groups[g].shards != [] && s < |sys.groups[g].shards|
    requires sys.groups[g].currentConfig.num + 1 < |sys.configs| && sys.groups[g].shards[s].status.Serving?
    ensures WellFormed(sys.groups[g])
    ensures var G' := ApplyConfiguration(sys.groups[g], sys.configs[sys.groups[g].currentConfig.num + 1]);
            G'.gid == g && I.Positioned(sys.configs, G') && StatusOK(sys.configs, G', s, sys.token[s])
  {
    var C, G, e := sys.configs, sys.groups[g], sys.token[s];
    var k := G.currentConfig.num;
    assert GroupOK(sys, s, g);
    var last, now := Owner(C, k, s), Owner(C, k + 1, s);
    assert C[k + 1].num == k + 1;
    if now == g && last != g {
      if last != 0 {
        TokenBefore(sys, s, g, k);
      } else if Holder(C, k, s) == 0 {
        TokenAfter(sys, s, k);
      } else {
        assert Holder(C, k, s) == g;
      }
    } else if last == g && now != g {
      if now != 0 && e <= k {
        SinceConstant(C, k, e, s);
      }
    }
  }

  lemma ConfigToken(sys: System, s: nat, g: nat, G': Group)
    requires Inv(sys, s) && g in sys.groups && s < |sys.groups[g].shards| && sys.groups[g].shards[s].status.Serving?
    requires sys.groups[g].currentConfig.num + 1 < |sys.configs| && G'.currentConfig.num == sys.groups[g].currentConfig.num + 1
    ensures TokenOK(sys.configs, sys.groups[g := G'], s, sys.token[s])
  {
    var C, groups', e, k := sys.configs, sys.groups[g := G'], sys.token[s], sys.groups[g].currentConfig.num;
    assert GroupOK(sys, s, g);
    forall n | 0 <= n < e ensures MovedOn(C, groups', s, n) {
      assert MovedOn(C, sys.groups, s, n);
    }
    if e < |C| {
      forall m | e <= m < |C| - 1 && Ends(C, s, e, m) ensures I.NumOf(groups', Owner(C, e, s)) <= m + 1 {
        assert I.NumOf(sys.groups, Owner(C, e, s)) <= m + 1;
      }
    }
  }

  lemma ConfigurationInv(sys: System, s: nat, g: nat, config: Config)
    requires Inv(sys, s) && Enabled(sys, Apply(g, Configuration(config)))
    ensures Inv(DoApply(sys, g, Configuration(config)), s)
  {
    var sys', G := DoApply(sys, g, Configuration(config)), sys.groups[g];
    var y := (g, Configuration(config));
    assert CommandOK(sys, s, y.0, y.1);
    assert GroupOK(sys, s, g);
    if config.num == G.currentConfig.num + 1 {
      ReassignOK(sys, s, g);
      ConfigToken(sys, s, g, sys'.groups[g]);
      ConfigRecords(sys, sys', s, g);
      MovedInv(sys, sys', s, g);
    } else {
      assert sys'.groups == sys.groups;
      assert sys' == sys;
    }
  }

  /** The source of a copy is not the group that moves on. */
  lemma ConfigRecords(sys: System, sys': System, s: nat, g: nat)
    requires Inv(sys, s) && g in sys.groups && s < |sys.groups[g].shards| && sys.groups[g].shards[s].status.Serving?
    requires g in sys'.groups && sys'.groups[g].currentConfig.num == sys.groups[g].currentConfig.num + 1
    requires sys' == sys.(groups := sys'.groups) && sys'.groups == sys.groups[g := sys'.groups[g]]
    ensures forall c {:trigger CopyOK(sys', s, c)} :: c in sys.copies ==> CopyOK(sys', s, c)
    ensures forall x {:trigger CommandOK(sys', s, x.0, x.1)} :: x in sys.pool ==> CommandOK(sys', s, x.0, x.1)
  {
    forall c | c in sys.copies ensures CopyOK(sys', s, c) {
      assert CopyOK(sys, s, c);
    }
    forall x | x in sys.pool ensures CommandOK(sys', s, x.0, x.1) {
      assert CommandOK(sys, s, x.0, x.1);
    }
  }

  // ----- A copy arrives --------------------------------------------------------------

  /** Holders from the old token up to the config of the copy. */
  lemma Between(C: seq<Config>, s: nat, e: nat, k: nat, m: nat)
    requires Rows(C) && s < NSHARDS && 0 < k < |C| && e == Since(C, k - 1, s) && e <= m < |C|
    requires Holder(C, k, s) != Holder(C, k - 1, s)
    ensures m < k ==> Holder(C, m, s) == Holder(C, k - 1, s) && Since(C, m, s) == e
    ensures Since(C, m, s) == e ==> m < k
  {
    if m < k {
      SinceConstant(C, k - 1, m, s);
    } else if Since(C, m, s) == e {
      SinceConstant(C, m, k, s);
    }
  }

  lemma ArrivalToken(sys: System, s: nat, g: nat, groups': map<nat, Group>, k: nat)
    requires Inv(sys, s) && g in sys.groups && groups'.Keys == sys.groups.Keys
    requires forall h :: h in groups' ==> groups'[h].currentConfig.num == sys.groups[h].currentConfig.num
    requires k == sys.groups[g].currentConfig.num && 0 < k < |sys.configs| && Owner(sys.configs, k, s) == g != 0
    requires sys.token[s] < k && SourceWaits(sys.configs, sys.groups, k, s, sys.token[s])
    requires Owner(sys.configs, k - 1, s) != 0 && Owner(sys.configs, k - 1, s) != g
    ensures TokenOK(sys.configs, groups', s, k)
  {
    var C, e := sys.configs, sys.token[s];
    forall n | 0 <= n < k ensures MovedOn(C, groups', s, n) {
      if n < e {
        assert MovedOn(C, sys.groups, s, n);
      } else {
        Between(C, s, e, k, n);
      }
    }
  }

  lemma NoHandover(C: seq<Config>, s: nat, e: nat, k: nat, m: nat)
    requires Rows(C) && s < NSHARDS && 0 < k < |C| && e == Since(C, k - 1, s) && e < m < k && Owner(C, k - 1, s) != 0
    ensures Owner(C, m - 1, s) == 0 || Owner(C, m, s) == 0 || Owner(C, m - 1, s) == Owner(C, m, s)
  {
    SinceConstant(C, k - 1, m, s);
    SinceConstant(C, k - 1, m - 1, s);
  }

  lemma ArrivalStatus(sys: System, s: nat, h: nat, g: nat, k: nat)
    requires Inv(sys, s) && h in sys.groups && h != g && g != 0
    requires 0 < k < |sys.configs| && Owner(sys.configs, k, s) == g
    requires sys.token[s] == Since(sys.configs, k - 1, s) && Owner(sys.configs, k - 1, s) != 0 && Owner(sys.configs, k - 1, s) != g
    ensures I.Positioned(sys.configs, sys.groups[h]) && StatusOK(sys.configs, sys.groups[h], s, k)
  {
    var C, e, H := sys.configs, sys.token[s], sys.groups[h];
    var kk := H.currentConfig.num;
    assert GroupOK(sys, s, h);
    match H.shards[s].status {
      case Pulling =>
        if kk < k {
          NoHandover(C, s, e, k, kk);
        }
      case BePulling =>
        if k < kk && e == Since(C, kk - 1, s) {
          Between(C, s, e, k, kk - 1);
        }
      case _ =>
    }
  }

  lemma ArrivalCopies(sys: System, sys': System, s: nat, k: nat, c: Copy)
    requires Inv(sys, s) && c in sys.copies && sys'.configs == sys.configs && |sys'.token| == NSHARDS && sys'.token[s] == k
    requires 0 < k < |sys.configs| && sys.token[s] == Since(sys.configs, k - 1, s)
    requires Holder(sys.configs, k, s) != Holder(sys.configs, k - 1, s)
    ensures CopyOK(sys', s, c)
  {
    assert CopyOK(sys, s, c);
    var C, e := sys.configs, sys.token[s];
    if s in c.shards && k < c.num {
      Between(C, s, e, k, c.num - 1);
    }
  }

  /** The group that pulls s against its source, before and after the copy. */
  lemma Arrival(sys: System, s: nat, g: nat, copy: Copy)
    requires Inv(sys, s) && Enabled(sys, Apply(g, InsertShards(copy))) && Moves(sys.groups[g], copy, s)
    ensures var C, k := sys.configs, sys.groups[g].currentConfig.num;
            && 0 < k < |C| && g != 0 && Owner(C, k, s) == g && Owner(C, k - 1, s) != 0 && Owner(C, k - 1, s) != g
            && sys.token[s] == Since(C, k - 1, s) && SourceWaits(C, sys.groups, k, s, sys.token[s])
            && I.Positioned(C, ApplyInsert(sys.groups[g], copy)) && StatusOK(C, ApplyInsert(sys.groups[g], copy), s, k)
  {
    var y := (g, InsertShards(copy));
    assert CommandOK(sys, s, y.0, y.1);
    assert CopyOK(sys, s, copy) && GroupOK(sys, s, g);
  }

  lemma ArrivalGroups(sys: System, sys': System, s: nat, g: nat, copy: Copy)
    requires Inv(sys, s) && Enabled(sys, Apply(g, InsertShards(copy))) && Moves(sys.groups[g], copy, s)
    requires sys' == DoApply(sys, g, InsertShards(copy)) && Base(sys', s) && sys'.token[s] == sys.groups[g].currentConfig.num
    ensures forall h {:trigger GroupOK(sys', s, h)} :: h in sys'.groups ==> GroupOK(sys', s, h)
  {
    Arrival(sys, s, g, copy);
    forall h | h in sys'.groups ensures GroupOK(sys', s, h) {
      if h != g {
        ArrivalStatus(sys, s, h, g, sys'.token[s]);
      }
    }
  }

  lemma ArrivesInv(sys: System, s: nat, g: nat, copy: Copy)
    requires Inv(sys, s) && Enabled(sys, Apply(g, InsertShards(copy))) && Moves(sys.groups[g], copy, s)
    ensures Inv(DoApply(sys, g, InsertShards(copy)), s)
  {
    var k, sys' := sys.groups[g].currentConfig.num, DoApply(sys, g, InsertShards(copy));
    Arrival(sys, s, g, copy);
    ArrivalToken(sys, s, g, sys'.groups, k);
    ArrivalGroups(sys, sys', s, g, copy);
    forall c | c in sys'.copies ensures CopyOK(sys', s, c) {
      ArrivalCopies(sys, sys', s, k, c);
    }
    ArrivalPool(sys, sys', s, g, copy);
  }

  lemma ArrivalPool(sys: System, sys': System, s: nat, g: nat, copy: Copy)
    requires Inv(sys, s) && Enabled(sys, Apply(g, InsertShards(copy)))
    requires sys' == DoApply(sys, g, InsertShards(copy)) && |sys'.token| == NSHARDS && sys.token[s] <= sys'.token[s]
    ensures forall x {:trigger CommandOK(sys', s, x.0, x.1)} :: x in sys'.pool ==> CommandOK(sys', s, x.0, x.1)
  {
    forall x | x in sys'.pool ensures CommandOK(sys', s, x.0, x.1) {
      assert CommandOK(sys, s, x.0, x.1);
    }
  }

  lemma InsertInv(sys: System, s: nat, g: nat, copy: Copy)
    requires Inv(sys, s) && Enabled(sys, Apply(g, InsertShards(copy)))
    ensures Inv(DoApply(sys, g, InsertShards(copy)), s)
  {
    if Moves(sys.groups[g], copy, s) {
      ArrivesInv(sys, s, g, copy);
    } else {
      assert GroupOK(sys, s, g);
      StillInv(sys, DoApply(sys, g, InsertShards(copy)), s, g);
    }
  }

  // ----- All runs --------------------------------------------------------------------

  lemma ApplyInv(sys: System, s: nat, g: nat, command: Command)
    requires Inv(sys, s) && Enabled(sys, Apply(g, command))
    ensures Inv(DoApply(sys, g, command), s)
  {
    match command {
      case Operation(req) => OperationInv(sys, s, g, req);
      case Configuration(config) => ConfigurationInv(sys, s, g, config);
      case InsertShards(copy) => InsertInv(sys, s, g, copy);
      case DeleteShards(num, ids) => DeleteInv(sys, s, g, num, ids);
      case EmptyEntry =>
        assert DoApply(sys, g, command).groups == sys.groups;
        assert DoApply(sys, g, command) == sys;
    }
  }

  lemma StepKeepsInv(sys: System, s: nat, a: Action)
    requires Inv(sys, s) && Enabled(sys, a)
    ensures Inv(Do(sys, a), s)
  {
    match a {
      case ProposeConfig(g) => ProposeConfigInv(sys, s, g);
      case Pull(g, num, ids) => PullInv(sys, s, g, num, ids);
      case ProposeInsert(g, copy) => ProposeInv(sys, s, g, InsertShards(copy));
      case AskGc(g, to, ids) => AskGcInv(sys, s, g, to, ids);
      case HandleGc(gc) => HandleGcInv(sys, s, gc);
      case FinishGc(gc) => ProposeInv(sys, s, gc.from, DeleteShards(gc.num, gc.ids));
      case ProposeOperation(g, req) => ProposeInv(sys, s, g, Operation(req));
      case ProposeEmpty(g) => ProposeInv(sys, s, g, EmptyEntry);
      case Apply(g, command) => ApplyInv(sys, s, g, command);
      case _ => QuietInv(sys, Do(sys, a), s);
    }
  }

  lemma {:induction false} HistoryInv(run: seq<System>, actions: seq<Action>, C: seq<Config>, gids: set<nat>, s: nat, k: nat)
    requires IsHistory(run, actions, C, gids) && s < NSHARDS && NoSwitch(C, s) && k < |run|
    ensures Inv(run[k], s)
  {
    if k == 0 {
      InitInv(C, gids, s);
    } else {
      HistoryInv(run, actions, C, gids, s, k - 1);
      assert StepAt(run, actions, k - 1);
      StepKeepsInv(run[k - 1], s, actions[k - 1]);
    }
  }

  ghost predicate OneServer(sys: System, s: nat)
    requires s < NSHARDS
  {
    forall g, h :: Ready(sys, g) && CanServe(sys.groups[g], s) && Ready(sys, h) && CanServe(sys.groups[h], s) ==> g == h
  }

  /** At most one group serves s, in every run over a history that does not switch s. */
  lemma ExclusiveService(run: seq<System>, actions: seq<Action>, C: seq<Config>, gids: set<nat>, s: nat, k: nat)
    requires IsHistory(run, actions, C, gids) && s < NSHARDS && NoSwitch(C, s) && k < |run|
    ensures OneServer(run[k], s)
  {
    HistoryInv(run, actions, C, gids, s, k);
    forall g, h | Ready(run[k], g) && CanServe(run[k].groups[g], s) && Ready(run[k], h) && CanServe(run[k].groups[h], s)
      ensures g == h
    {
      ServerIsHolder(run[k], s, g);
      ServerIsHolder(run[k], s, h);
    }
  }

  lemma {:induction false} HolderIsOwner(C: seq<Config>, s: nat, n: nat)
    requires NeverUnassigned(C) && s < NSHARDS && n < |C|
    ensures Holder(C, n, s) == Owner(C, n, s)
  {
    if n > 0 {
      HolderIsOwner(C, s, n - 1);
    }
  }

  /** A history that never unassigns a shard switches none. */
  lemma NeverUnassignedIsEnough(C: seq<Config>, s: nat)
    requires NeverUnassigned(C) && s < NSHARDS
    ensures NoSwitch(C, s)
  {
    forall n | 0 < n < |C| && Owner(C, n - 1, s) == 0 && Owner(C, n, s) != 0 ensures Holder(C, n - 1, s) == 0 {
      HolderIsOwner(C, s, n - 1);
    }
  }

  // ----- Every other column breaks it ------------------------------------------------

  /** The owners of one shard over a history. */
  function Column(C: seq<Config>, s: nat): seq<nat>
    requires Rows(C) && s < NSHARDS
  {
    seq(|C|, n requires 0 <= n < |C| => Owner(C, n, s))
  }

  /** A history with the given owners of s in which no other shard is ever assigned. */
  function Alone(owners: seq<nat>, s: nat): (C: seq<Config>)
    requires s < NSHARDS
    ensures Rows(C) && |C| == |owners|
    ensures forall n, t :: 0 <= n < |C| && 0 <= t < NSHARDS ==> Owner(C, n, t) == if t == s then owners[n] else 0
  {
    seq(|owners|, n requires 0 <= n < |owners| =>
      Config(n, seq(NSHARDS, t => if t == s then owners[n] else 0)))
  }

  lemma {:induction false} SameHolders(C: seq<Config>, C': seq<Config>, s: nat, n: nat)
    requires Rows(C) && Rows(C') && s < NSHARDS && Column(C, s) == Column(C', s) && n < |C| == |C'|
    ensures Owner(C, n, s) == Owner(C', n, s) && Holder(C, n, s) == Holder(C', n, s)
  {
    assert Column(C, s)[n] == Column(C', s)[n];
    if n > 0 {
      SameHolders(C, C', s, n - 1);
    }
  }

  lemma SameSwitch(C: seq<Config>, C': seq<Config>, s: nat)
    requires Rows(C) && Rows(C') && s < NSHARDS && Column(C, s) == Column(C', s) && NoSwitch(C, s)
    ensures NoSwitch(C', s)
  {
    assert |C| == |Column(C, s)| == |Column(C', s)| == |C'|;
    forall n | 0 < n < |C'| && Owner(C', n - 1, s) == 0 && Owner(C', n, s) != 0
      ensures Holder(C', n - 1, s) == 0 || Holder(C', n - 1, s) == Owner(C', n, s)
    {
      SameHolders(C, C', s, n);
      SameHolders(C, C', s, n - 1);
    }
  }

  /** The last config before a gap in which s was owned. */
  lemma {:induction false} GapBegins(C: seq<Config>, s: nat, m: nat) returns (n: nat)
    requires Rows(C) && s < NSHARDS && m < |C| && Holder(C, m, s) != 0
    ensures n <= m && Owner(C, n, s) == Holder(C, m, s)
    ensures forall i :: n < i <= m ==> Owner(C, i, s) == 0
  {
    if Owner(C, m, s) != 0 {
      n := m;
    } else {
      n := GapBegins(C, s, m - 1);
    }
  }

  /** A group with no shard before or after has nothing to do for its next config. */
  lemma CalmAdvances(C: seq<Config>, h: nat, n: nat)
    requires Rows(C) && n + 1 < |C|
    requires forall t :: 0 <= t < NSHARDS ==> Owner(C, n, t) != h && Owner(C, n + 1, t) != h
    ensures ApplyConfiguration(Calm(C, n, h), C[n + 1]) == Calm(C, n + 1, h)
  {
    assert C[n + 1].num == n + 1;
    var G := ApplyConfiguration(Calm(C, n, h), C[n + 1]);
    forall t | 0 <= t < NSHARDS ensures G.shards[t] == EMPTY {
      assert Owner(C, n, t) != h && Owner(C, n + 1, t) != h;
    }
    assert G.shards == Calm(C, n + 1, h).shards;
  }

  /** Group h walks through the gap by itself. */
  lemma {:induction false} WalkAhead(C: seq<Config>, gids: set<nat>, sys: System, s: nat, h: nat, n: nat, m: nat) returns (next: System)
    requires Reach(C, gids, sys) && Rows(C) && sys.configs == C && |sys.token| == NSHARDS && s < NSHARDS
    requires n <= m < |C| && h in sys.groups && h != 0
    requires sys.groups[h] == Calm(C, n, h)
    requires forall i, t :: n <= i <= m && 0 <= t < NSHARDS ==> Owner(C, i, t) != h
    ensures Reach(C, gids, next) && next.configs == C && |next.token| == NSHARDS
    ensures next.groups == sys.groups[h := Calm(C, m, h)]
    decreases m - n
  {
    if n == m {
      next := sys;
      assert sys.groups[h := Calm(C, m, h)] == sys.groups;
    } else {
      var mid := Advance(C, gids, sys, h);
      CalmAdvances(C, h, n);
      next := WalkAhead(C, gids, mid, s, h, n + 1, m);
    }
  }

  lemma EntersServing(C: seq<Config>, s: nat, h: nat, m: nat)
    requires Rows(C) && s < NSHARDS && m + 1 < |C| && h != 0 && Owner(C, m, s) == 0 && Owner(C, m + 1, s) == h
    ensures var G := ApplyConfiguration(Calm(C, m, h), C[m + 1]); WellFormed(G) && CanServe(G, s)
  {
    assert C[m + 1].num == m + 1;
  }

  /** The groups that ever own the shard. */
  function Owners(owners: seq<nat>): set<nat> {
    set n | 0 <= n < |owners| && owners[n] != 0 :: owners[n]
  }

  /** While group g is still at config n, group h walks on to config m + 1. */
  lemma BothServe(C: seq<Config>, gids: set<nat>, s: nat, n: nat, m: nat) returns (sys: System)
    requires Staffed(C, gids) && s < NSHARDS && n <= m && m + 1 < |C|
    requires Owner(C, n, s) != 0 && Owner(C, m + 1, s) != 0 && Owner(C, m, s) == 0
    requires forall i, t :: n <= i <= m && 0 <= t < NSHARDS ==> Owner(C, i, t) != Owner(C, m + 1, s)
    ensures Reach(C, gids, sys) && !OneServer(sys, s)
  {
    var g, h := Owner(C, n, s), Owner(C, m + 1, s);
    var calm := InStep(C, gids, n);
    assert calm.groups[h] == Calm(C, n, h) && calm.groups[g] == Calm(C, n, g);
    var near := WalkAhead(C, gids, calm, s, h, n, m);
    sys := Advance(C, gids, near, h);
    EntersServing(C, s, h, m);
    assert Ready(sys, g) && CanServe(sys.groups[g], s);
    assert Ready(sys, h) && CanServe(sys.groups[h], s);
  }

  lemma AloneStaffed(owners: seq<nat>, s: nat)
    requires s < NSHARDS && |owners| > 0 && owners[0] == 0
    ensures Staffed(Alone(owners, s), Owners(owners))
  {
  }

  /** Nothing of the next owner from the last config with an owner to the end of the gap. */
  lemma NotThere(owners: seq<nat>, s: nat, n: nat, m: nat)
    requires s < NSHARDS && n <= m && m + 1 < |owners| && owners[m + 1] != 0 && owners[n] != owners[m + 1]
    requires forall i :: n < i <= m ==> Owner(Alone(owners, s), i, s) == 0
    ensures forall i, t :: n <= i <= m && 0 <= t < NSHARDS ==>
              Owner(Alone(owners, s), i, t) != Owner(Alone(owners, s), m + 1, s)
  {
  }

  lemma SomeSwitch(C: seq<Config>, s: nat) returns (m: nat)
    requires Rows(C) && s < NSHARDS && !NoSwitch(C, s)
    ensures 0 < m < |C| && Owner(C, m - 1, s) == 0 && Owner(C, m, s) != 0
    ensures Holder(C, m - 1, s) != 0 && Holder(C, m - 1, s) != Owner(C, m, s)
  {
    m :| 0 < m < |C| && Owner(C, m - 1, s) == 0 && Owner(C, m, s) != 0 &&
         Holder(C, m - 1, s) != 0 && Holder(C, m - 1, s) != Owner(C, m, s);
  }

  /** A switch across a gap lets two groups serve the shard. */
  lemma SwitchBreaks(owners: seq<nat>, s: nat) returns (sys: System)
    requires s < NSHARDS && |owners| > 0 && owners[0] == 0 && !NoSwitch(Alone(owners, s), s)
    ensures Staffed(Alone(owners, s), Owners(owners)) && Reach(Alone(owners, s), Owners(owners), sys) && !OneServer(sys, s)
  {
    var C := Alone(owners, s);
    AloneStaffed(owners, s);
    var m := SomeSwitch(C, s);
    var n := GapBegins(C, s, m - 1);
    NotThere(owners, s, n, m - 1);
    sys := BothServe(C, Owners(owners), s, n, m - 1);
  }

  /** At most one server of s in every reachable state of every history with the given
      owners of s, if and only if these never switch groups across a gap. */
  lemma ExclusionIff(owners: seq<nat>, s: nat)
    requires s < NSHARDS && |owners| > 0 && owners[0] == 0
    ensures NoSwitch(Alone(owners, s), s) <==>
            forall C, gids, sys {:trigger Reach(C, gids, sys)} ::
              Staffed(C, gids) && Column(C, s) == owners && Reach(C, gids, sys) ==> OneServer(sys, s)
  {
    var D := Alone(owners, s);
    assert Column(D, s) == owners;
    if NoSwitch(D, s) {
      forall C, gids, sys | Staffed(C, gids) && Column(C, s) == owners && Reach(C, gids, sys) ensures OneServer(sys, s) {
        SameSwitch(D, C, s);
        var run, actions :| EndsIn(run, actions, C, gids, sys);
        ExclusiveService(run, actions, C, gids, s, |actions|);
      }
    } else {
      var sys := SwitchBreaks(owners, s);
    }
  }
}
