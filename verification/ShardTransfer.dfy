/**
 Installing a pulled shard and performing client operations keep the invariant.
 */
module ShardTransfer {
  import opened ShardGroup
  import opened ShardSystem
  import opened ShardInvariant
  import opened ShardSteps

  // ----- Installing a copy -----------------------------------------------------------

  lemma MergeCovers(ops: OpTable, more: OpTable, s: nat, done: set<Request>)
    ensures Covers(ops, s, done) ==> Covers(MergeOps(ops, more), s, done)
    ensures Covers(more, s, done) ==> Covers(MergeOps(ops, more), s, done)
  {
  }

  lemma MergeTable(ops: OpTable, more: OpTable, done: set<Request>)
    requires TableOK(ops, done) && TableOK(more, done)
    ensures TableOK(MergeOps(ops, more), done)
  {
  }

  /** What is known about a shard that is about to be installed. */
  lemma AboutToMove(sys: System, g: nat, copy: Copy, s: nat)
    requires Inv(sys) && Ready(sys, g) && copy in sys.copies && s < NSHARDS && Moves(sys.groups[g], copy, s)
    ensures var C, k, e := sys.configs, copy.num, sys.token[s];
            && 0 < k < |C| && k == sys.groups[g].currentConfig.num && e < k && Owner(C, k, s) == g != Owner(C, k - 1, s)
            && SourceHolds(C, sys.groups, k, s, e, copy.shards[s], copy.ops, sys.spec)
  {
    assert GroupOK(sys.configs, sys.groups[g], sys.token, sys.spec) && CopyOK(sys, copy);
    assert ShardOK(sys.configs, sys.groups[g], s, sys.token[s], sys.spec);
  }

  lemma MovedPast(sys: System, g: nat, copy: Copy, s: nat)
    requires Inv(sys) && Ready(sys, g) && copy in sys.copies && s < NSHARDS && Moves(sys.groups[g], copy, s)
    ensures copy.num < |sys.configs| && PastMovedOn(sys.configs, sys.groups, s, copy.num)
  {
    AboutToMove(sys, g, copy, s);
    assert TokenOK(sys.configs, sys.groups, s, sys.token[s], sys.spec);
    PastExtends(sys.configs, sys.groups, s, sys.token[s], copy.num);
  }

  lemma PastExtends(C: seq<Config>, groups: map<nat, Group>, s: nat, e: nat, k: nat)
    requires Rows(C) && s < NSHARDS && e < k < |C| && PastMovedOn(C, groups, s, e)
    requires Start(C, k - 1, s) == e && NumOf(groups, Owner(C, k - 1, s)) == k
    ensures PastMovedOn(C, groups, s, k)
  {
    forall n | 0 <= n < k && Owner(C, n, s) != 0 ensures NumOf(groups, Owner(C, n, s)) > n {
      if n >= e {
        StartConstant(C, k - 1, n, s);
      }
    }
  }

  lemma MovedTokenOK(sys: System, groups': map<nat, Group>, g: nat, copy: Copy, s: nat)
    requires Inv(sys) && Ready(sys, g) && copy in sys.copies && s < NSHARDS && Moves(sys.groups[g], copy, s)
    requires forall h :: NumOf(groups', h) == NumOf(sys.groups, h)
    ensures TokenOK(sys.configs, groups', s, copy.num, sys.spec)
  {
    AboutToMove(sys, g, copy, s);
    MovedPast(sys, g, copy, s);
  }

  lemma InstalledOK(sys: System, g: nat, copy: Copy, s: nat, g': Group, e': nat)
    requires Inv(sys) && Ready(sys, g) && copy in sys.copies && copy.num == sys.groups[g].currentConfig.num && s < NSHARDS
    requires g' == ApplyInsert(sys.groups[g], copy)
    requires e' == if Moves(sys.groups[g], copy, s) then copy.num else sys.token[s]
    ensures Positioned(sys.configs, g') && ShardOK(sys.configs, g', s, e', sys.spec)
  {
    var G := sys.groups[g];
    assert GroupOK(sys.configs, G, sys.token, sys.spec);
    assert ShardOK(sys.configs, G, s, sys.token[s], sys.spec);
    MergeCovers(G.lastOps, copy.ops, s, sys.spec.done);
    if Moves(G, copy, s) {
      AboutToMove(sys, g, copy, s);
    }
  }

  /** Another group is not disturbed by the token moving to g. */
  lemma BystanderOK(sys: System, g: nat, copy: Copy, s: nat, h: nat)
    requires Inv(sys) && Ready(sys, g) && copy in sys.copies && s < NSHARDS && Moves(sys.groups[g], copy, s)
    requires h in sys.groups && h != g
    ensures Positioned(sys.configs, sys.groups[h]) && ShardOK(sys.configs, sys.groups[h], s, copy.num, sys.spec)
  {
    var C, H, e, k := sys.configs, sys.groups[h], sys.token[s], copy.num;
    assert GroupOK(C, H, sys.token, sys.spec);
    assert ShardOK(C, H, s, e, sys.spec);
    AboutToMove(sys, g, copy, s);
    MovedPast(sys, g, copy, s);
    var kh := H.currentConfig.num;
    match H.shards[s].status {
      case Serving =>
      case GCing =>
      case Pulling =>
        assert kh < k ==> NumOf(sys.groups, Owner(C, kh, s)) > kh;
      case BePulling =>
    }
  }

  lemma CopyAfterInsert(sys: System, sys': System, g: nat, copy: Copy, c: Copy)
    requires Inv(sys) && Ready(sys, g) && copy in sys.copies && copy.num == sys.groups[g].currentConfig.num
    requires sys' == sys.(groups := sys.groups[g := ApplyInsert(sys.groups[g], copy)],
                          token := MovedToken(sys.token, sys.groups[g], copy))
    requires c in sys.copies
    ensures CopyOK(sys', c)
  {
    assert CopyOK(sys, c);
    forall s | s in c.shards && !(c.num <= sys'.token[s])
      ensures c.num > 0 && s < NSHARDS
      ensures SourceHolds(sys'.configs, sys'.groups, c.num, s, sys'.token[s], c.shards[s], c.ops, sys'.spec)
    {
      if Moves(sys.groups[g], copy, s) {
        AboutToMove(sys, g, copy, s);
      }
    }
  }

  lemma InsertGroups(sys: System, sys': System, g: nat, copy: Copy, h: nat)
    requires Inv(sys) && Ready(sys, g) && copy in sys.copies && copy.num == sys.groups[g].currentConfig.num
    requires sys' == sys.(groups := sys.groups[g := ApplyInsert(sys.groups[g], copy)],
                          token := MovedToken(sys.token, sys.groups[g], copy))
    requires h in sys.groups
    ensures GroupOK(sys'.configs, sys'.groups[h], sys'.token, sys'.spec)
  {
    assert GroupOK(sys.configs, sys.groups[h], sys.token, sys.spec) && CopyOK(sys, copy);
    forall s | 0 <= s < NSHARDS
      ensures Positioned(sys.configs, sys'.groups[h]) && ShardOK(sys.configs, sys'.groups[h], s, sys'.token[s], sys.spec)
    {
      if h == g {
        InstalledOK(sys, g, copy, s, sys'.groups[g], sys'.token[s]);
      } else if Moves(sys.groups[g], copy, s) {
        BystanderOK(sys, g, copy, s, h);
      } else {
        assert ShardOK(sys.configs, sys.groups[h], s, sys.token[s], sys.spec);
      }
    }
    assert 0 < NSHARDS && ShardOK(sys.configs, sys'.groups[h], 0, sys'.token[0], sys.spec);
    if h == g {
      MergeTable(sys.groups[g].lastOps, copy.ops, sys.spec.done);
    }
  }

  lemma InsertTokens(sys: System, sys': System, g: nat, copy: Copy, s: nat)
    requires Inv(sys) && Ready(sys, g) && copy in sys.copies && copy.num == sys.groups[g].currentConfig.num && s < NSHARDS
    requires sys' == sys.(groups := sys.groups[g := ApplyInsert(sys.groups[g], copy)],
                          token := MovedToken(sys.token, sys.groups[g], copy))
    ensures TokenOK(sys'.configs, sys'.groups, s, sys'.token[s], sys'.spec)
    ensures sys.token[s] <= sys'.token[s]
  {
    if Moves(sys.groups[g], copy, s) {
      MovedTokenOK(sys, sys'.groups, g, copy, s);
      AboutToMove(sys, g, copy, s);
    } else {
      TokenAfterMove(sys, sys'.groups, g, s);
    }
  }

  lemma InsertEffective(sys: System, sys': System, g: nat, copy: Copy)
    requires Inv(sys) && Ready(sys, g) && copy in sys.copies && copy.num == sys.groups[g].currentConfig.num
    requires sys' == sys.(groups := sys.groups[g := ApplyInsert(sys.groups[g], copy)],
                          token := MovedToken(sys.token, sys.groups[g], copy))
    ensures Inv(sys')
  {
    forall h | h in sys'.groups ensures GroupOK(sys'.configs, sys'.groups[h], sys'.token, sys'.spec) {
      InsertGroups(sys, sys', g, copy, h);
    }
    forall s | 0 <= s < NSHARDS
      ensures TokenOK(sys'.configs, sys'.groups, s, sys'.token[s], sys'.spec) && sys.token[s] <= sys'.token[s]
    {
      InsertTokens(sys, sys', g, copy, s);
    }
    forall c | c in sys'.copies ensures CopyOK(sys', c) {
      CopyAfterInsert(sys, sys', g, copy, c);
    }
    SameClients(sys, sys');
    assert sys'.groups.Keys == sys.groups.Keys;
    MoveInv(sys, sys', g);
  }

  lemma InsertInv(sys: System, g: nat, copy: Copy)
    requires Inv(sys) && Ready(sys, g) && (g, InsertShards(copy)) in sys.pool
    ensures Inv(DoApply(sys, g, InsertShards(copy)))
  {
    var sys', x := DoApply(sys, g, InsertShards(copy)), (g, InsertShards(copy));
    assert CommandOK(sys, x.0, x.1);
    if copy.num == sys.groups[g].currentConfig.num {
      InsertEffective(sys, sys', g, copy);
    } else {
      assert sys'.groups == sys.groups && sys'.token == sys.token;
      assert sys' == sys;
    }
  }

  // ----- Performing a write ----------------------------------------------------------

  lemma WrittenHere(store: map<Str, Str>, req: Request, s: nat)
    requires Key2Shard(req.key) == s
    ensures Restrict(Written(store, req), s) == Written(Restrict(store, s), req)
  {
  }

  lemma WrittenElsewhere(store: map<Str, Str>, req: Request, s: nat)
    requires Key2Shard(req.key) != s
    ensures Restrict(Written(store, req), s) == Restrict(store, s)
  {
  }

  /** The write changes nothing that concerns another shard. */
  lemma OtherShard(sys: System, req: Request, s: nat, kv: map<Str, Str>, ops: OpTable)
    requires Key2Shard(req.key) != s
    ensures var spec' := Spec(Written(sys.spec.store, req), sys.spec.done + {req});
            && (Faithful(kv, ops, s, sys.spec) ==> Faithful(kv, ops, s, spec'))
            && (Untouched(s, sys.spec) ==> Untouched(s, spec'))
  {
    WrittenElsewhere(sys.spec.store, req, s);
  }

  predicate Performs(sys: System, g: nat, req: Request) {
    && Ready(sys, g) && CanServe(sys.groups[g], Key2Shard(req.key)) && !req.op.Get?
    && !IsDuplicate(sys.groups[g], req.client, req.command)
  }

  /** A write that the table lets through has never been performed. */
  lemma FirstTime(sys: System, g: nat, req: Request)
    requires Inv(sys) && Performs(sys, g, req)
    ensures req !in sys.spec.done
  {
    ServerIsHolder(sys, g, Key2Shard(req.key));
  }

  lemma WriterOK(sys: System, g: nat, req: Request, s: nat, g': Group, spec': Spec)
    requires Inv(sys) && Performs(sys, g, req) && s < NSHARDS
    requires g' == ApplyOperation(sys.groups[g], req).0
    requires spec' == Spec(Written(sys.spec.store, req), sys.spec.done + {req})
    ensures Positioned(sys.configs, g') && ShardOK(sys.configs, g', s, sys.token[s], spec')
  {
    var G, home := sys.groups[g], Key2Shard(req.key);
    assert GroupOK(sys.configs, G, sys.token, sys.spec);
    assert ShardOK(sys.configs, G, s, sys.token[s], sys.spec);
    if s == home {
      WrittenHere(sys.spec.store, req, s);
    } else {
      OtherShard(sys, req, s, G.shards[s].kv, G.lastOps);
      GrownCovers(G.lastOps, req, s, spec'.done);
    }
  }

  lemma GrownCovers(ops: OpTable, req: Request, s: nat, done: set<Request>)
    requires req.client in ops ==> ops[req.client].maxApplied < req.command
    ensures Covers(ops, s, done) ==> Covers(ops[req.client := OpContext(req.command, Response(OK, []))], s, done)
  {
  }

  lemma ReaderOK(sys: System, g: nat, req: Request, s: nat, h: nat, spec': Spec)
    requires Inv(sys) && Performs(sys, g, req) && s < NSHARDS && h in sys.groups && h != g
    requires spec' == Spec(Written(sys.spec.store, req), sys.spec.done + {req})
    ensures Positioned(sys.configs, sys.groups[h]) && ShardOK(sys.configs, sys.groups[h], s, sys.token[s], spec')
  {
    var H := sys.groups[h];
    assert GroupOK(sys.configs, H, sys.token, sys.spec);
    assert ShardOK(sys.configs, H, s, sys.token[s], sys.spec);
    if s == Key2Shard(req.key) {
      ServerIsHolder(sys, g, s);
      if CanServe(H, s) {
        ServerIsHolder(sys, h, s);
      } else if H.shards[s].status.BePulling? && sys.token[s] < H.currentConfig.num {
        SourceIsHolder(sys, h, s);
      }
    } else {
      OtherShard(sys, req, s, H.shards[s].kv, H.lastOps);
    }
  }

  lemma CopyAfterWrite(sys: System, sys': System, g: nat, req: Request, c: Copy)
    requires Inv(sys) && Performs(sys, g, req) && c in sys.copies
    requires sys'.configs == sys.configs && sys'.token == sys.token
    requires sys'.groups == sys.groups[g := ApplyOperation(sys.groups[g], req).0]
    requires sys'.spec == Spec(Written(sys.spec.store, req), sys.spec.done + {req})
    ensures |sys'.token| == NSHARDS && Rows(sys'.configs) && CopyOK(sys', c)
  {
    assert CopyOK(sys, c);
    TableFrame(c.ops, sys.spec.done, sys'.spec.done);
    forall s | s in c.shards && !(c.num <= sys.token[s])
      ensures c.num > 0 && s < NSHARDS
      ensures SourceHolds(sys'.configs, sys'.groups, c.num, s, sys'.token[s], c.shards[s], c.ops, sys'.spec)
    {
      if s == Key2Shard(req.key) {
        ServerIsHolder(sys, g, s);
      } else {
        OtherShard(sys, req, s, c.shards[s], c.ops);
      }
    }
  }

  lemma TokenAfterWrite(sys: System, sys': System, g: nat, req: Request, s: nat)
    requires Inv(sys) && Performs(sys, g, req) && s < NSHARDS
    requires sys'.configs == sys.configs && sys'.token == sys.token
    requires sys'.groups == sys.groups[g := ApplyOperation(sys.groups[g], req).0]
    requires sys'.spec == Spec(Written(sys.spec.store, req), sys.spec.done + {req})
    ensures |sys'.token| == NSHARDS && Rows(sys'.configs)
    ensures TokenOK(sys'.configs, sys'.groups, s, sys'.token[s], sys'.spec)
  {
    TokenAfterMove(sys, sys'.groups, g, s);
    if s == Key2Shard(req.key) {
      ServerIsHolder(sys, g, s);
    } else {
      OtherShard(sys, req, s, map[], map[]);
    }
  }

  lemma ClientsAfterWrite(sys: System, sys': System, req: Request)
    requires ClientsOK(sys) && req in sys.requests && !req.op.Get?
    requires sys'.clients == sys.clients && sys'.requests == sys.requests
    requires sys'.replies == sys.replies + {(req, Response(OK, []))}
    requires sys'.spec.done == sys.spec.done + {req}
    ensures ClientsOK(sys')
  {
    forall r | r in sys'.requests ensures RequestOK(sys', r) {
      assert RequestOK(sys, r);
    }
  }

  lemma GroupsAfterWrite(sys: System, sys': System, g: nat, req: Request, h: nat)
    requires Inv(sys) && Performs(sys, g, req) && h in sys.groups
    requires sys'.configs == sys.configs && sys'.token == sys.token
    requires sys'.groups == sys.groups[g := ApplyOperation(sys.groups[g], req).0]
    requires sys'.spec == Spec(Written(sys.spec.store, req), sys.spec.done + {req})
    ensures |sys'.token| == NSHARDS && GroupOK(sys'.configs, sys'.groups[h], sys'.token, sys'.spec)
  {
    assert GroupOK(sys.configs, sys.groups[h], sys.token, sys.spec);
    forall s | 0 <= s < NSHARDS
      ensures Positioned(sys.configs, sys'.groups[h]) && ShardOK(sys.configs, sys'.groups[h], s, sys.token[s], sys'.spec)
    {
      if h == g {
        WriterOK(sys, g, req, s, sys'.groups[g], sys'.spec);
      } else {
        ReaderOK(sys, g, req, s, h, sys'.spec);
      }
    }
    assert 0 < NSHARDS && ShardOK(sys.configs, sys'.groups[h], 0, sys.token[0], sys'.spec);
    TableFrame(sys.groups[h].lastOps, sys.spec.done, sys'.spec.done);
    if h == g {
      assert req in sys'.spec.done && Recorded(sys'.spec.done, req.client, req.command);
    }
  }

  lemma WriteInv(sys: System, g: nat, req: Request)
    requires Inv(sys) && Performs(sys, g, req) && req in sys.requests
    ensures Inv(DoApply(sys, g, Operation(req)))
    ensures DoApply(sys, g, Operation(req)).spec == SpecApply(sys.spec, req).0
    ensures ApplyOperation(sys.groups[g], req).1 == SpecApply(sys.spec, req).1
  {
    var sys' := DoApply(sys, g, Operation(req));
    FirstTime(sys, g, req);
    forall h | h in sys'.groups ensures GroupOK(sys'.configs, sys'.groups[h], sys'.token, sys'.spec) {
      GroupsAfterWrite(sys, sys', g, req, h);
    }
    forall s | 0 <= s < NSHARDS ensures TokenOK(sys'.configs, sys'.groups, s, sys'.token[s], sys'.spec) {
      TokenAfterWrite(sys, sys', g, req, s);
    }
    forall c | c in sys'.copies ensures CopyOK(sys', c) {
      CopyAfterWrite(sys, sys', g, req, c);
    }
    ClientsAfterWrite(sys, sys', req);
    assert sys'.groups.Keys == sys.groups.Keys;
    MoveInv(sys, sys', g);
  }

  /** A read or a repeated write changes nothing and answers as the single map would. */
  lemma ReadInv(sys: System, g: nat, req: Request)
    requires Inv(sys) && Ready(sys, g) && req in sys.requests && CanServe(sys.groups[g], Key2Shard(req.key))
    requires req.op.Get? || IsDuplicate(sys.groups[g], req.client, req.command)
    ensures Inv(DoApply(sys, g, Operation(req)))
    ensures DoApply(sys, g, Operation(req)).spec == sys.spec == SpecApply(sys.spec, req).0
    ensures ApplyOperation(sys.groups[g], req).1 == SpecApply(sys.spec, req).1
  {
    var sys', G := DoApply(sys, g, Operation(req)), sys.groups[g];
    assert GroupOK(sys.configs, G, sys.token, sys.spec);
    ServerIsHolder(sys, g, Key2Shard(req.key));
    if !req.op.Get? {
      DuplicateIsDone(sys, G.lastOps, req);
    }
    assert sys'.groups == sys.groups;
    assert forall r :: r in sys.requests ==> RequestOK(sys, r) && RequestOK(sys', r);
    QuietInv(sys, sys');
  }

  lemma OperationInv(sys: System, g: nat, req: Request)
    requires Inv(sys) && Ready(sys, g) && (g, Operation(req)) in sys.pool
    ensures Inv(DoApply(sys, g, Operation(req)))
  {
    var x := (g, Operation(req));
    assert CommandOK(sys, x.0, x.1);
    if !CanServe(sys.groups[g], Key2Shard(req.key)) {
      assert DoApply(sys, g, Operation(req)).groups == sys.groups;
      assert DoApply(sys, g, Operation(req)) == sys;
    } else if Performs(sys, g, req) {
      WriteInv(sys, g, req);
    } else {
      ReadInv(sys, g, req);
    }
  }
}
