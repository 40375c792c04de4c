/**
 Migration never gets stuck: from every state that the groups reach over any config
 history, some continuation brings all of them to the last configuration with every shard
 serving (shardkv/server.go).
 */
module ShardProgress {
  import opened ShardGroup
  import opened ShardSystem
  import I = ShardInvariant

  // ----- Handovers -------------------------------------------------------------------

  predicate There(groups: map<nat, Group>, g: nat) {
    g in groups && WellFormed(groups[g])
  }

  predicate AtLeast(groups: map<nat, Group>, g: nat, m: nat) {
    g in groups && groups[g].currentConfig.num >= m
  }

  /** Group B is past config m or has at m all it waited for of shard s. */
  predicate Taken(groups: map<nat, Group>, B: nat, m: nat, s: nat) {
    && There(groups, B) && s < NSHARDS && groups[B].currentConfig.num >= m
    && (groups[B].currentConfig.num == m ==> !groups[B].shards[s].status.Pulling?)
  }

  /** Group A holds shard s at m for the next owner. */
  predicate Holds(groups: map<nat, Group>, A: nat, m: nat, s: nat) {
    There(groups, A) && s < NSHARDS && groups[A].currentConfig.num == m && groups[A].shards[s].status.BePulling?
  }

  /** Config m takes shard s from one group to another. */
  predicate HandsOver(C: seq<Config>, m: nat, s: nat) {
    && Rows(C) && 0 < m < |C| && s < NSHARDS
    && Owner(C, m - 1, s) != 0 && Owner(C, m, s) != 0 && Owner(C, m - 1, s) != Owner(C, m, s)
  }

  /** The new owner has the shard only after the old one has come to m, and the old one holds
      it until the new one has it. */
  predicate Handover(C: seq<Config>, groups: map<nat, Group>, s: nat, m: nat) {
    HandsOver(C, m, s) ==>
      var A, B := Owner(C, m - 1, s), Owner(C, m, s);
      && (Taken(groups, B, m, s) ==> AtLeast(groups, A, m))
      && (AtLeast(groups, A, m) ==> Taken(groups, B, m, s) || Holds(groups, A, m, s))
  }

  // ----- The invariant of one shard --------------------------------------------------

  predicate Deletes(pool: set<(nat, Command)>, g: nat, num: nat, ids: seq<nat>) {
    (g, DeleteShards(num, ids)) in pool
  }

  ghost predicate Fetching(groups: map<nat, Group>, pool: set<(nat, Command)>, A: nat, B: nat, m: nat, s: nat) {
    || (B in groups && groups[B].currentConfig.num < m)
    || (There(groups, B) && s < NSHARDS && groups[B].currentConfig.num == m &&
        (groups[B].shards[s].status.Pulling? || groups[B].shards[s].status.GCing?))
    || exists ids :: s in ids && Deletes(pool, A, m, ids)
  }

  ghost predicate StatusOK(C: seq<Config>, groups: map<nat, Group>, pool: set<(nat, Command)>, s: nat, g: nat)
    requires g in groups && I.Positioned(C, groups[g]) && s < NSHARDS
  {
    var k := groups[g].currentConfig.num;
    match groups[g].shards[s].status
    case Serving => true
    case Pulling => HandsOver(C, k, s) && Owner(C, k, s) == g
    case GCing => HandsOver(C, k, s) && Owner(C, k, s) == g
    case BePulling => HandsOver(C, k, s) && Owner(C, k - 1, s) == g && Fetching(groups, pool, g, Owner(C, k, s), k, s)
  }

  predicate CopyOK(C: seq<Config>, groups: map<nat, Group>, s: nat, c: Copy) {
    s in c.shards ==> HandsOver(C, c.num, s) && AtLeast(groups, Owner(C, c.num - 1, s), c.num)
  }

  predicate CommandOK(sys: System, s: nat, g: nat, command: Command) {
    && g in sys.groups
    && match command
       case Configuration(config) =>
         && 0 < config.num < |sys.configs| && config == sys.configs[config.num]
         && (config.num <= sys.groups[g].currentConfig.num ||
             (config.num == sys.groups[g].currentConfig.num + 1 && AllServing(sys.groups[g])))
       case InsertShards(copy) => copy in sys.copies
       case DeleteShards(num, ids) =>
         s in ids ==>
           && HandsOver(sys.configs, num, s) && Taken(sys.groups, Owner(sys.configs, num, s), num, s)
           && (g == Owner(sys.configs, num - 1, s) ||
               (g == Owner(sys.configs, num, s) && Gc(g, Owner(sys.configs, num - 1, s), num, ids) in sys.cleared))
       case _ => true
  }

  predicate GcOK(C: seq<Config>, groups: map<nat, Group>, s: nat, gc: Gc) {
    && gc.from in groups
    && (s in gc.ids ==>
          && HandsOver(C, gc.num, s) && gc.from == Owner(C, gc.num, s) && gc.to == Owner(C, gc.num - 1, s)
          && Taken(groups, gc.from, gc.num, s))
  }

  /** A call that was answered has been acted on, or will be. */
  predicate ClearedOK(sys: System, gc: Gc) {
    AtLeast(sys.groups, gc.to, gc.num + 1) || Deletes(sys.pool, gc.to, gc.num, gc.ids)
  }

  predicate Base(sys: System, s: nat) {
    && |sys.token| == NSHARDS && s < NSHARDS && Staffed(sys.configs, sys.groups.Keys)
    && forall g :: g in sys.groups ==> sys.groups[g].gid == g && I.Positioned(sys.configs, sys.groups[g])
  }

  ghost predicate Inv(sys: System, s: nat) {
    && Base(sys, s)
    && (forall g {:trigger StatusOK(sys.configs, sys.groups, sys.pool, s, g)} ::
          g in sys.groups ==> StatusOK(sys.configs, sys.groups, sys.pool, s, g))
    && (forall m: nat {:trigger Handover(sys.configs, sys.groups, s, m)} :: Handover(sys.configs, sys.groups, s, m))
    && (forall c {:trigger CopyOK(sys.configs, sys.groups, s, c)} :: c in sys.copies ==> CopyOK(sys.configs, sys.groups, s, c))
    && (forall x {:trigger CommandOK(sys, s, x.0, x.1)} :: x in sys.pool ==> CommandOK(sys, s, x.0, x.1))
    && (forall gc {:trigger GcOK(sys.configs, sys.groups, s, gc)} ::
          gc in sys.gcs || gc in sys.cleared ==> GcOK(sys.configs, sys.groups, s, gc))
    && (forall gc {:trigger ClearedOK(sys, gc)} :: gc in sys.cleared ==> ClearedOK(sys, gc))
  }

  lemma InitInv(C: seq<Config>, gids: set<nat>, s: nat)
    requires Staffed(C, gids) && s < NSHARDS
    ensures Inv(Init(C, gids), s)
  {
  }

  // ----- Steps that leave the groups as they are -------------------------------------

  /** The same to the protocol: only keys, values and tables may differ. */
  predicate SameView(G: Group, G': Group) {
    && G'.gid == G.gid && G'.currentConfig == G.currentConfig && G'.lastConfig == G.lastConfig
    && |G'.shards| == |G.shards| && forall s :: 0 <= s < |G.shards| ==> G'.shards[s].status == G.shards[s].status
  }

  predicate SameViews(groups: map<nat, Group>, groups': map<nat, Group>) {
    groups'.Keys == groups.Keys && forall g :: g in groups ==> SameView(groups[g], groups'[g])
  }

  /** Nothing of the groups changes and nothing is forgotten; what is new is given. */
  ghost predicate Adds(sys: System, sys': System) {
    && sys'.configs == sys.configs && |sys'.token| == |sys.token| && SameViews(sys.groups, sys'.groups)
    && sys.pool <= sys'.pool && sys.copies <= sys'.copies && sys.gcs <= sys'.gcs && sys.cleared <= sys'.cleared
  }

  ghost predicate NewOK(sys: System, sys': System, s: nat) {
    && (forall c {:trigger CopyOK(sys.configs, sys'.groups, s, c)} ::
          c in sys'.copies && c !in sys.copies ==> CopyOK(sys.configs, sys'.groups, s, c))
    && (forall x {:trigger CommandOK(sys', s, x.0, x.1)} :: x in sys'.pool && x !in sys.pool ==> CommandOK(sys', s, x.0, x.1))
    && (forall gc {:trigger GcOK(sys.configs, sys'.groups, s, gc)} ::
          (gc in sys'.gcs || gc in sys'.cleared) && gc !in sys.gcs && gc !in sys.cleared ==> GcOK(sys.configs, sys'.groups, s, gc))
    && (forall gc {:trigger ClearedOK(sys', gc)} :: gc in sys'.cleared && gc !in sys.cleared ==> ClearedOK(sys', gc))
  }

  lemma StatusSame(sys: System, sys': System, s: nat, g: nat)
    requires Inv(sys, s) && Base(sys', s) && Adds(sys, sys') && g in sys'.groups
    ensures StatusOK(sys'.configs, sys'.groups, sys'.pool, s, g)
  {
    assert StatusOK(sys.configs, sys.groups, sys.pool, s, g);
    var k := sys.groups[g].currentConfig.num;
    if sys.groups[g].shards[s].status.BePulling? {
      var B := Owner(sys.configs, k, s);
      if exists ids :: s in ids && Deletes(sys.pool, g, k, ids) {
        var ids :| s in ids && Deletes(sys.pool, g, k, ids);
        assert Deletes(sys'.pool, g, k, ids);
      } else {
        assert SameView(sys.groups[B], sys'.groups[B]);
      }
    }
  }

  lemma HandoverSame(C: seq<Config>, groups: map<nat, Group>, groups': map<nat, Group>, s: nat, m: nat)
    requires Handover(C, groups, s, m) && SameViews(groups, groups')
    ensures Handover(C, groups', s, m)
  {
  }

  lemma CommandSame(sys: System, sys': System, s: nat, g: nat, command: Command)
    requires CommandOK(sys, s, g, command) && Adds(sys, sys') && s < NSHARDS
    ensures CommandOK(sys', s, g, command)
  {
    assert g in sys.groups && SameView(sys.groups[g], sys'.groups[g]);
  }

  lemma CopySame(sys: System, sys': System, s: nat, c: Copy)
    requires CopyOK(sys.configs, sys.groups, s, c) && Adds(sys, sys')
    ensures CopyOK(sys'.configs, sys'.groups, s, c)
  {
  }

  lemma GcSame(sys: System, sys': System, s: nat, gc: Gc)
    requires GcOK(sys.configs, sys.groups, s, gc) && Adds(sys, sys')
    ensures GcOK(sys'.configs, sys'.groups, s, gc)
  {
  }

  lemma ClearedSame(sys: System, sys': System, gc: Gc)
    requires ClearedOK(sys, gc) && Adds(sys, sys')
    ensures ClearedOK(sys', gc)
  {
  }

  lemma RecordsSame(sys: System, sys': System, s: nat)
    requires Inv(sys, s) && Adds(sys, sys') && NewOK(sys, sys', s)
    ensures forall c {:trigger CopyOK(sys'.configs, sys'.groups, s, c)} :: c in sys'.copies ==> CopyOK(sys'.configs, sys'.groups, s, c)
    ensures forall x {:trigger CommandOK(sys', s, x.0, x.1)} :: x in sys'.pool ==> CommandOK(sys', s, x.0, x.1)
  {
    forall c | c in sys'.copies ensures CopyOK(sys'.configs, sys'.groups, s, c) {
      if c in sys.copies {
        assert CopyOK(sys.configs, sys.groups, s, c);
        CopySame(sys, sys', s, c);
      }
    }
    forall x | x in sys'.pool ensures CommandOK(sys', s, x.0, x.1) {
      if x in sys.pool {
        assert CommandOK(sys, s, x.0, x.1);
        CommandSame(sys, sys', s, x.0, x.1);
      }
    }
  }

  lemma CallsSame(sys: System, sys': System, s: nat)
    requires Inv(sys, s) && Adds(sys, sys') && NewOK(sys, sys', s)
    ensures forall gc {:trigger GcOK(sys'.configs, sys'.groups, s, gc)} ::
              gc in sys'.gcs || gc in sys'.cleared ==> GcOK(sys'.configs, sys'.groups, s, gc)
    ensures forall gc {:trigger ClearedOK(sys', gc)} :: gc in sys'.cleared ==> ClearedOK(sys', gc)
  {
    forall gc | gc in sys'.gcs || gc in sys'.cleared ensures GcOK(sys'.configs, sys'.groups, s, gc) {
      if gc in sys.gcs || gc in sys.cleared {
        assert GcOK(sys.configs, sys.groups, s, gc);
        GcSame(sys, sys', s, gc);
      }
    }
    forall gc | gc in sys'.cleared ensures ClearedOK(sys', gc) {
      if gc in sys.cleared {
        assert ClearedOK(sys, gc);
        ClearedSame(sys, sys', gc);
      }
    }
  }

  lemma BaseSame(sys: System, sys': System, s: nat)
    requires Base(sys, s) && Adds(sys, sys')
    ensures Base(sys', s)
  {
    forall g | g in sys'.groups ensures sys'.groups[g].gid == g && I.Positioned(sys'.configs, sys'.groups[g]) {
      assert SameView(sys.groups[g], sys'.groups[g]);
    }
  }

  lemma AddsInv(sys: System, sys': System, s: nat)
    requires Inv(sys, s) && Adds(sys, sys') && NewOK(sys, sys', s)
    ensures Inv(sys', s)
  {
    BaseSame(sys, sys', s);
    forall g | g in sys'.groups ensures StatusOK(sys'.configs, sys'.groups, sys'.pool, s, g) {
      StatusSame(sys, sys', s, g);
    }
    forall m: nat ensures Handover(sys'.configs, sys'.groups, s, m) {
      assert Handover(sys.configs, sys.groups, s, m);
      HandoverSame(sys.configs, sys.groups, sys'.groups, s, m);
    }
    RecordsSame(sys, sys', s);
    CallsSame(sys, sys', s);
  }

  lemma CopyMade(sys: System, s: nat, g: nat, ids: seq<nat>)
    requires Inv(sys, s) && Ready(sys, g)
    ensures CopyOK(sys.configs, sys.groups, s, MakeCopy(sys.groups[g], ids))
  {
    assert StatusOK(sys.configs, sys.groups, sys.pool, s, g);
    assert Handover(sys.configs, sys.groups, s, sys.groups[g].currentConfig.num);
  }

  lemma PullInv(sys: System, s: nat, g: nat, num: nat, ids: seq<nat>)
    requires Inv(sys, s) && Enabled(sys, Pull(g, num, ids))
    ensures Inv(Do(sys, Pull(g, num, ids)), s)
  {
    var sys' := Do(sys, Pull(g, num, ids));
    CopyMade(sys, s, g, ids);
    assert Adds(sys, sys') && NewOK(sys, sys', s);
    AddsInv(sys, sys', s);
  }

  lemma AskInv(sys: System, s: nat, g: nat, to: nat, ids: seq<nat>)
    requires Inv(sys, s) && Enabled(sys, AskGc(g, to, ids))
    ensures Inv(Do(sys, AskGc(g, to, ids)), s)
  {
    var gc := Gc(g, to, sys.groups[g].currentConfig.num, ids);
    assert StatusOK(sys.configs, sys.groups, sys.pool, s, g);
    assert GcOK(sys.configs, sys.groups, s, gc);
    AddsInv(sys, Do(sys, AskGc(g, to, ids)), s);
  }

  lemma HandleNew(sys: System, s: nat, gc: Gc)
    requires Base(sys, s) && Enabled(sys, HandleGc(gc)) && GcOK(sys.configs, sys.groups, s, gc)
    ensures Adds(sys, Do(sys, HandleGc(gc))) && NewOK(sys, Do(sys, HandleGc(gc)), s)
  {
    var sys' := Do(sys, HandleGc(gc));
    assert ClearedOK(sys', gc);
    assert CommandOK(sys', s, gc.to, DeleteShards(gc.num, gc.ids));
  }

  lemma HandleInv(sys: System, s: nat, gc: Gc)
    requires Inv(sys, s) && Enabled(sys, HandleGc(gc))
    ensures Inv(Do(sys, HandleGc(gc)), s)
  {
    var sys' := Do(sys, HandleGc(gc));
    assert GcOK(sys.configs, sys.groups, s, gc);
    HandleNew(sys, s, gc);
    AddsInv(sys, sys', s);
  }

  lemma FinishInv(sys: System, s: nat, gc: Gc)
    requires Inv(sys, s) && Enabled(sys, FinishGc(gc))
    ensures Inv(Do(sys, FinishGc(gc)), s)
  {
    var sys' := Do(sys, FinishGc(gc));
    assert GcOK(sys.configs, sys.groups, s, gc);
    assert CommandOK(sys', s, gc.from, DeleteShards(gc.num, gc.ids));
    AddsInv(sys, sys', s);
  }

  lemma ProposeInv(sys: System, s: nat, g: nat, command: Command)
    requires Inv(sys, s) && g in sys.groups && CommandOK(sys, s, g, command)
    ensures Inv(Propose(sys, g, command), s)
  {
    var sys' := Propose(sys, g, command);
    assert Adds(sys, sys');
    CommandSame(sys, sys', s, g, command);
    AddsInv(sys, sys', s);
  }

  // ----- Steps of one group ----------------------------------------------------------

  /** Within a config a shard is pulled, then collected, then serving, or held and then
      given up; all shards serve before the next config. */
  predicate GoesOn(G: Group, G': Group, s: nat) {
    && s < NSHARDS && WellFormed(G) && WellFormed(G')
    && var st, st' := G.shards[s].status, G'.shards[s].status;
       if G'.currentConfig.num == G.currentConfig.num then
         && (st' == st || (st.Pulling? && st'.GCing?) || (!st.Pulling? && st'.Serving?))
         && (AllServing(G) ==> AllServing(G'))
       else G'.currentConfig.num == G.currentConfig.num + 1 && AllServing(G)
  }

  predicate OneGoesOn(groups: map<nat, Group>, groups': map<nat, Group>, s: nat, g: nat) {
    && g in groups && groups'.Keys == groups.Keys
    && (forall h :: h in groups && h != g ==> groups'[h] == groups[h])
    && groups'[g].gid == g && GoesOn(groups[g], groups'[g], s)
  }

  ghost predicate OneMoves(sys: System, sys': System, s: nat, g: nat) {
    && sys'.configs == sys.configs && |sys'.token| == |sys.token|
    && sys'.pool == sys.pool && sys'.copies == sys.copies && sys'.gcs == sys.gcs && sys'.cleared == sys.cleared
    && OneGoesOn(sys.groups, sys'.groups, s, g) && I.Positioned(sys.configs, sys'.groups[g])
  }

  lemma TakenStays(groups: map<nat, Group>, groups': map<nat, Group>, s: nat, g: nat, B: nat, m: nat)
    requires OneGoesOn(groups, groups', s, g) && Taken(groups, B, m, s)
    ensures Taken(groups', B, m, s)
  {
  }

  lemma CommandStays(sys: System, sys': System, s: nat, g: nat, h: nat, command: Command)
    requires OneMoves(sys, sys', s, g) && CommandOK(sys, s, h, command)
    ensures CommandOK(sys', s, h, command)
  {
    match command {
      case DeleteShards(num, ids) =>
        if s in ids {
          TakenStays(sys.groups, sys'.groups, s, g, Owner(sys.configs, num, s), num);
        }
      case _ =>
    }
  }

  lemma RecordsStay(sys: System, sys': System, s: nat, g: nat)
    requires Inv(sys, s) && OneMoves(sys, sys', s, g)
    ensures forall c {:trigger CopyOK(sys'.configs, sys'.groups, s, c)} :: c in sys'.copies ==> CopyOK(sys'.configs, sys'.groups, s, c)
    ensures forall x {:trigger CommandOK(sys', s, x.0, x.1)} :: x in sys'.pool ==> CommandOK(sys', s, x.0, x.1)
  {
    forall c | c in sys'.copies ensures CopyOK(sys'.configs, sys'.groups, s, c) {
      assert CopyOK(sys.configs, sys.groups, s, c);
    }
    forall x | x in sys'.pool ensures CommandOK(sys', s, x.0, x.1) {
      assert CommandOK(sys, s, x.0, x.1);
      CommandStays(sys, sys', s, g, x.0, x.1);
    }
  }

  lemma CallsStay(sys: System, sys': System, s: nat, g: nat)
    requires Inv(sys, s) && OneMoves(sys, sys', s, g)
    ensures forall gc {:trigger GcOK(sys'.configs, sys'.groups, s, gc)} ::
              gc in sys'.gcs || gc in sys'.cleared ==> GcOK(sys'.configs, sys'.groups, s, gc)
    ensures forall gc {:trigger ClearedOK(sys', gc)} :: gc in sys'.cleared ==> ClearedOK(sys', gc)
  {
    forall gc | gc in sys'.gcs || gc in sys'.cleared ensures GcOK(sys'.configs, sys'.groups, s, gc) {
      assert GcOK(sys.configs, sys.groups, s, gc);
      if s in gc.ids {
        TakenStays(sys.groups, sys'.groups, s, g, gc.from, gc.num);
      }
    }
    forall gc | gc in sys'.cleared ensures ClearedOK(sys', gc) {
      assert ClearedOK(sys, gc);
    }
  }

  /** What is left to show for each command. */
  ghost predicate GroupsOK(sys: System, s: nat)
    requires Base(sys, s)
  {
    && (forall g {:trigger StatusOK(sys.configs, sys.groups, sys.pool, s, g)} ::
          g in sys.groups ==> StatusOK(sys.configs, sys.groups, sys.pool, s, g))
    && (forall m: nat {:trigger Handover(sys.configs, sys.groups, s, m)} :: Handover(sys.configs, sys.groups, s, m))
  }

  lemma MovesInv(sys: System, sys': System, s: nat, g: nat)
    requires Inv(sys, s) && OneMoves(sys, sys', s, g) && Base(sys', s) && GroupsOK(sys', s)
    ensures Inv(sys', s)
  {
    RecordsStay(sys, sys', s, g);
    CallsStay(sys, sys', s, g);
  }

  lemma MovesBase(sys: System, sys': System, s: nat, g: nat)
    requires Base(sys, s) && OneMoves(sys, sys', s, g)
    ensures Base(sys', s)
  {
  }

  /** Another group that holds the shard for g waits on, unless g is served. */
  lemma OtherStatus(sys: System, sys': System, s: nat, g: nat, h: nat)
    requires Inv(sys, s) && OneMoves(sys, sys', s, g) && h in sys.groups && h != g
    requires Holds(sys.groups, h, sys.groups[h].currentConfig.num, s) && Owner(sys.configs, sys.groups[h].currentConfig.num, s) == g ==>
               Fetching(sys'.groups, sys.pool, h, g, sys.groups[h].currentConfig.num, s)
    ensures h in sys'.groups && I.Positioned(sys'.configs, sys'.groups[h])
    ensures StatusOK(sys'.configs, sys'.groups, sys'.pool, s, h)
  {
    assert StatusOK(sys.configs, sys.groups, sys.pool, s, h);
  }

  // ----- A configuration -------------------------------------------------------------

  /** g takes config k + 1. */
  predicate Takes(C: seq<Config>, groups: map<nat, Group>, groups': map<nat, Group>, s: nat, g: nat) {
    && OneGoesOn(groups, groups', s, g) && I.Positioned(C, groups[g]) && I.Positioned(C, groups'[g])
    && groups'[g].currentConfig.num == groups[g].currentConfig.num + 1
    && groups'[g].shards[s] == Reassign(groups[g].shards[s], g, Owner(C, groups[g].currentConfig.num, s),
                                         Owner(C, groups'[g].currentConfig.num, s))
  }

  lemma ConfigHandover(C: seq<Config>, groups: map<nat, Group>, groups': map<nat, Group>, s: nat, g: nat, m: nat)
    requires Handover(C, groups, s, m) && Takes(C, groups, groups', s, g) && Rows(C)
    ensures Handover(C, groups', s, m)
  {
    if HandsOver(C, m, s) {
      var A, B := Owner(C, m - 1, s), Owner(C, m, s);
      if Taken(groups, B, m, s) {
        TakenStays(groups, groups', s, g, B, m);
      }
    }
  }

  lemma ConfigStatus(sys: System, sys': System, s: nat, g: nat)
    requires Inv(sys, s) && OneMoves(sys, sys', s, g) && Takes(sys.configs, sys.groups, sys'.groups, s, g)
    ensures StatusOK(sys'.configs, sys'.groups, sys'.pool, s, g)
  {
    var C, k := sys.configs, sys'.groups[g].currentConfig.num;
    assert Handover(C, sys.groups, s, k);
    if sys'.groups[g].shards[s].status.BePulling? {
      var B := Owner(C, k, s);
      assert B in sys.groups && I.Positioned(C, sys.groups[B]);
    }
  }

  lemma ConfigOther(sys: System, sys': System, s: nat, g: nat, h: nat)
    requires Inv(sys, s) && OneMoves(sys, sys', s, g) && Takes(sys.configs, sys.groups, sys'.groups, s, g)
    requires h in sys.groups && h != g
    ensures h in sys'.groups && I.Positioned(sys'.configs, sys'.groups[h])
    ensures StatusOK(sys'.configs, sys'.groups, sys'.pool, s, h)
  {
    var k := sys.groups[h].currentConfig.num;
    assert StatusOK(sys.configs, sys.groups, sys.pool, s, h);
    if Holds(sys.groups, h, k, s) && Owner(sys.configs, k, s) == g {
      if exists ids :: s in ids && Deletes(sys.pool, h, k, ids) {
        assert Fetching(sys'.groups, sys.pool, h, g, k, s);
      } else {
        assert sys.groups[g].currentConfig.num < k;
        assert Fetching(sys'.groups, sys.pool, h, g, k, s);
      }
    }
    OtherStatus(sys, sys', s, g, h);
  }

  lemma ConfigurationInv(sys: System, s: nat, g: nat, config: Config)
    requires Inv(sys, s) && Enabled(sys, Apply(g, Configuration(config)))
    ensures Inv(DoApply(sys, g, Configuration(config)), s)
  {
    var sys' := DoApply(sys, g, Configuration(config));
    var y := (g, Configuration(config));
    assert CommandOK(sys, s, y.0, y.1);
    if config.num == sys.groups[g].currentConfig.num + 1 {
      assert Takes(sys.configs, sys.groups, sys'.groups, s, g);
      MovesBase(sys, sys', s, g);
      ConfigStatus(sys, sys', s, g);
      forall h | h in sys'.groups ensures StatusOK(sys'.configs, sys'.groups, sys'.pool, s, h) {
        if h != g {
          ConfigOther(sys, sys', s, g, h);
        }
      }
      forall m: nat ensures Handover(sys'.configs, sys'.groups, s, m) {
        assert Handover(sys.configs, sys.groups, s, m);
        ConfigHandover(sys.configs, sys.groups, sys'.groups, s, g, m);
      }
      MovesInv(sys, sys', s, g);
    } else {
      assert sys'.groups == sys.groups;
      assert sys' == sys;
    }
  }

  // ----- Inserts and deletes ---------------------------------------------------------

  /** g stays at its config and in shard s at most goes on from one status to the next. */
  predicate Within(C: seq<Config>, groups: map<nat, Group>, groups': map<nat, Group>, s: nat, g: nat) {
    && OneGoesOn(groups, groups', s, g) && I.Positioned(C, groups[g]) && I.Positioned(C, groups'[g])
    && groups'[g].currentConfig == groups[g].currentConfig
  }

  /** Shard s stays as it is, or arrives from an owner that has come to this config. */
  predicate Arrives(C: seq<Config>, groups: map<nat, Group>, groups': map<nat, Group>, s: nat, g: nat) {
    && Within(C, groups, groups', s, g)
    && var k, st, st' := groups[g].currentConfig.num, groups[g].shards[s].status, groups'[g].shards[s].status;
       st' == st || (st.Pulling? && st'.GCing? && HandsOver(C, k, s) && AtLeast(groups, Owner(C, k - 1, s), k))
  }

  /** Shard s stays as it is, or is given up or collected after the new owner has it. */
  predicate LetsGo(C: seq<Config>, groups: map<nat, Group>, groups': map<nat, Group>, s: nat, g: nat) {
    && Within(C, groups, groups', s, g)
    && var k, st, st' := groups[g].currentConfig.num, groups[g].shards[s].status, groups'[g].shards[s].status;
       st' == st || (!st.Pulling? && st'.Serving? && HandsOver(C, k, s) && Taken(groups, Owner(C, k, s), k, s))
  }

  lemma InsertHandover(C: seq<Config>, groups: map<nat, Group>, groups': map<nat, Group>, s: nat, g: nat, m: nat)
    requires Handover(C, groups, s, m) && Arrives(C, groups, groups', s, g)
    ensures Handover(C, groups', s, m)
  {
    if HandsOver(C, m, s) {
      var B := Owner(C, m, s);
      if Taken(groups, B, m, s) {
        TakenStays(groups, groups', s, g, B, m);
      }
    }
  }

  lemma InsertOther(sys: System, sys': System, s: nat, g: nat, h: nat)
    requires Inv(sys, s) && OneMoves(sys, sys', s, g) && Arrives(sys.configs, sys.groups, sys'.groups, s, g)
    requires h in sys.groups && h != g
    ensures h in sys'.groups && I.Positioned(sys'.configs, sys'.groups[h])
    ensures StatusOK(sys'.configs, sys'.groups, sys'.pool, s, h)
  {
    var k := sys.groups[h].currentConfig.num;
    assert StatusOK(sys.configs, sys.groups, sys.pool, s, h);
    if Holds(sys.groups, h, k, s) && Owner(sys.configs, k, s) == g {
      if exists ids :: s in ids && Deletes(sys.pool, h, k, ids) {
        assert Fetching(sys'.groups, sys.pool, h, g, k, s);
      } else {
        assert Fetching(sys'.groups, sys.pool, h, g, k, s);
      }
    }
    OtherStatus(sys, sys', s, g, h);
  }

  lemma InsertView(G: Group, copy: Copy, s: nat)
    requires WellFormed(G) && s < NSHARDS
    ensures var G' := ApplyInsert(G, copy);
            && WellFormed(G') && G'.gid == G.gid && G'.currentConfig == G.currentConfig && G'.lastConfig == G.lastConfig
            && (AllServing(G) ==> AllServing(G'))
            && G'.shards[s].status == (if copy.num == G.currentConfig.num && s in copy.shards && G.shards[s].status.Pulling?
                                       then GCing else G.shards[s].status)
  {
  }

  lemma InsertMoves(sys: System, s: nat, g: nat, copy: Copy)
    requires Inv(sys, s) && Enabled(sys, Apply(g, InsertShards(copy)))
    ensures var sys' := DoApply(sys, g, InsertShards(copy));
            OneMoves(sys, sys', s, g) && Arrives(sys.configs, sys.groups, sys'.groups, s, g)
  {
    var y := (g, InsertShards(copy));
    assert CommandOK(sys, s, y.0, y.1) && CopyOK(sys.configs, sys.groups, s, copy);
    InsertView(sys.groups[g], copy, s);
  }

  lemma InsertGroups(sys: System, sys': System, s: nat, g: nat)
    requires Inv(sys, s) && OneMoves(sys, sys', s, g) && Arrives(sys.configs, sys.groups, sys'.groups, s, g) && Base(sys', s)
    ensures GroupsOK(sys', s)
  {
    forall h | h in sys'.groups ensures StatusOK(sys'.configs, sys'.groups, sys'.pool, s, h) {
      if h != g {
        InsertOther(sys, sys', s, g, h);
      } else {
        OwnStatus(sys, sys', s, g);
      }
    }
    forall m: nat ensures Handover(sys'.configs, sys'.groups, s, m) {
      assert Handover(sys.configs, sys.groups, s, m);
      InsertHandover(sys.configs, sys.groups, sys'.groups, s, g, m);
    }
  }

  lemma InsertInv(sys: System, s: nat, g: nat, copy: Copy)
    requires Inv(sys, s) && Enabled(sys, Apply(g, InsertShards(copy)))
    ensures Inv(DoApply(sys, g, InsertShards(copy)), s)
  {
    var sys' := DoApply(sys, g, InsertShards(copy));
    InsertMoves(sys, s, g, copy);
    MovesBase(sys, sys', s, g);
    InsertGroups(sys, sys', s, g);
    MovesInv(sys, sys', s, g);
  }

  lemma OwnStatus(sys: System, sys': System, s: nat, g: nat)
    requires Inv(sys, s) && OneMoves(sys, sys', s, g) && Within(sys.configs, sys.groups, sys'.groups, s, g)
    ensures StatusOK(sys'.configs, sys'.groups, sys'.pool, s, g)
  {
    assert StatusOK(sys.configs, sys.groups, sys.pool, s, g);
  }

  lemma DeleteMoves(sys: System, s: nat, g: nat, num: nat, ids: seq<nat>)
    requires Inv(sys, s) && Enabled(sys, Apply(g, DeleteShards(num, ids)))
    ensures var sys' := DoApply(sys, g, DeleteShards(num, ids));
            && OneMoves(sys, sys', s, g) && LetsGo(sys.configs, sys.groups, sys'.groups, s, g)
            && (sys'.groups[g].shards[s].status != sys.groups[g].shards[s].status ==>
                  s in ids && num == sys.groups[g].currentConfig.num)
  {
    var y := (g, DeleteShards(num, ids));
    assert CommandOK(sys, s, y.0, y.1);
    DeleteView(sys.groups[g], num, ids, s);
  }

  lemma DeleteView(G: Group, num: nat, ids: seq<nat>, s: nat)
    requires WellFormed(G) && s < NSHARDS
    ensures var G' := ApplyDelete(G, num, ids);
            && WellFormed(G') && G'.gid == G.gid && G'.currentConfig == G.currentConfig && G'.lastConfig == G.lastConfig
            && (AllServing(G) ==> AllServing(G'))
            && G'.shards[s].status == (if num == G.currentConfig.num && s in ids && !G.shards[s].status.Pulling?
                                       then Serving else G.shards[s].status)
  {
  }

  lemma DeleteHandover(C: seq<Config>, groups: map<nat, Group>, groups': map<nat, Group>, s: nat, g: nat, m: nat)
    requires Handover(C, groups, s, m) && LetsGo(C, groups, groups', s, g)
    ensures Handover(C, groups', s, m)
  {
    if HandsOver(C, m, s) {
      var B := Owner(C, m, s);
      if Taken(groups, B, m, s) {
        TakenStays(groups, groups', s, g, B, m);
      }
    }
  }

  /** The new owner ends collection only after the old one was told to delete. */
  lemma DeleteOther(sys: System, sys': System, s: nat, g: nat, h: nat, num: nat, ids: seq<nat>)
    requires Inv(sys, s) && OneMoves(sys, sys', s, g) && LetsGo(sys.configs, sys.groups, sys'.groups, s, g)
    requires CommandOK(sys, s, g, DeleteShards(num, ids))
    requires sys'.groups[g].shards[s].status != sys.groups[g].shards[s].status ==>
               s in ids && num == sys.groups[g].currentConfig.num
    requires h in sys.groups && h != g
    ensures h in sys'.groups && I.Positioned(sys'.configs, sys'.groups[h])
    ensures StatusOK(sys'.configs, sys'.groups, sys'.pool, s, h)
  {
    var k := sys.groups[h].currentConfig.num;
    assert StatusOK(sys.configs, sys.groups, sys.pool, s, h);
    if Holds(sys.groups, h, k, s) && Owner(sys.configs, k, s) == g {
      if s in ids && num == k && sys.groups[g].currentConfig.num == k {
        assert ClearedOK(sys, Gc(g, h, num, ids));
        assert Deletes(sys.pool, h, k, ids);
        assert Fetching(sys'.groups, sys.pool, h, g, k, s);
      } else if exists i :: s in i && Deletes(sys.pool, h, k, i) {
        assert Fetching(sys'.groups, sys.pool, h, g, k, s);
      } else {
        assert Fetching(sys'.groups, sys.pool, h, g, k, s);
      }
    }
    OtherStatus(sys, sys', s, g, h);
  }

  lemma DeleteGroups(sys: System, sys': System, s: nat, g: nat, num: nat, ids: seq<nat>)
    requires Inv(sys, s) && OneMoves(sys, sys', s, g) && LetsGo(sys.configs, sys.groups, sys'.groups, s, g) && Base(sys', s)
    requires CommandOK(sys, s, g, DeleteShards(num, ids))
    requires sys'.groups[g].shards[s].status != sys.groups[g].shards[s].status ==>
               s in ids && num == sys.groups[g].currentConfig.num
    ensures GroupsOK(sys', s)
  {
    forall h | h in sys'.groups ensures StatusOK(sys'.configs, sys'.groups, sys'.pool, s, h) {
      if h != g {
        DeleteOther(sys, sys', s, g, h, num, ids);
      } else {
        OwnStatus(sys, sys', s, g);
      }
    }
    forall m: nat ensures Handover(sys'.configs, sys'.groups, s, m) {
      assert Handover(sys.configs, sys.groups, s, m);
      DeleteHandover(sys.configs, sys.groups, sys'.groups, s, g, m);
    }
  }

  lemma DeleteInv(sys: System, s: nat, g: nat, num: nat, ids: seq<nat>)
    requires Inv(sys, s) && Enabled(sys, Apply(g, DeleteShards(num, ids)))
    ensures Inv(DoApply(sys, g, DeleteShards(num, ids)), s)
  {
    var sys' := DoApply(sys, g, DeleteShards(num, ids));
    var y := (g, DeleteShards(num, ids));
    assert CommandOK(sys, s, y.0, y.1);
    DeleteMoves(sys, s, g, num, ids);
    MovesBase(sys, sys', s, g);
    DeleteGroups(sys, sys', s, g, num, ids);
    MovesInv(sys, sys', s, g);
  }

  // ----- All runs --------------------------------------------------------------------

  lemma OperationView(G: Group, command: Command)
    requires WellFormed(G) && (command.Operation? || command.EmptyEntry?)
    ensures SameView(G, ApplyCommand(G, command))
  {
  }

  lemma OperationInv(sys: System, s: nat, g: nat, command: Command)
    requires Inv(sys, s) && Enabled(sys, Apply(g, command)) && (command.Operation? || command.EmptyEntry?)
    ensures Inv(DoApply(sys, g, command), s)
  {
    var sys' := DoApply(sys, g, command);
    OperationView(sys.groups[g], command);
    assert Adds(sys, sys') && NewOK(sys, sys', s);
    AddsInv(sys, sys', s);
  }

  lemma ApplyInv(sys: System, s: nat, g: nat, command: Command)
    requires Inv(sys, s) && Enabled(sys, Apply(g, command))
    ensures Inv(DoApply(sys, g, command), s)
  {
    match command {
      case Configuration(config) => ConfigurationInv(sys, s, g, config);
      case InsertShards(copy) => InsertInv(sys, s, g, copy);
      case DeleteShards(num, ids) => DeleteInv(sys, s, g, num, ids);
      case _ => OperationInv(sys, s, g, command);
    }
  }

  lemma ClientInv(sys: System, s: nat, a: Action)
    requires Inv(sys, s) && Enabled(sys, a) && (a.Submit? || a.AnswerDuplicate? || a.Complete?)
    ensures Inv(Do(sys, a), s)
  {
    assert Adds(sys, Do(sys, a));
    AddsInv(sys, Do(sys, a), s);
  }

  lemma StepInv(sys: System, s: nat, a: Action)
    requires Inv(sys, s) && Enabled(sys, a)
    ensures Inv(Do(sys, a), s)
  {
    match a {
      case ProposeConfig(g) => ProposeInv(sys, s, g, Configuration(sys.configs[sys.groups[g].currentConfig.num + 1]));
      case Pull(g, num, ids) => PullInv(sys, s, g, num, ids);
      case ProposeInsert(g, copy) => ProposeInv(sys, s, g, InsertShards(copy));
      case AskGc(g, to, ids) => AskInv(sys, s, g, to, ids);
      case HandleGc(gc) => HandleInv(sys, s, gc);
      case FinishGc(gc) => FinishInv(sys, s, gc);
      case ProposeOperation(g, req) => ProposeInv(sys, s, g, Operation(req));
      case ProposeEmpty(g) => ProposeInv(sys, s, g, EmptyEntry);
      case Apply(g, command) => ApplyInv(sys, s, g, command);
      case _ => ClientInv(sys, s, a);
    }
  }
}
