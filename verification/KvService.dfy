/**
 The key/value server on top of Raft (kvraft/server.go): a store and a table of the last
 request applied for each client, changed by each committed command.  A write takes effect
 at most once, and a command delivered again changes nothing.
 */
module KvService {
  import W = Writes

  type Str = seq<char>

  datatype Kind = Get | Put | Append
  datatype Op = Op(kind: Kind, key: Str, value: Str, client: int, request: int)

  datatype Store = Store(kv: map<Str, Str>, last: map<int, int>)

  const EMPTY := Store(map[], map[])

  predicate ShouldApply(s: Store, op: Op) {
    op.client !in s.last || op.request > s.last[op.client]
  }

  function Value(kv: map<Str, Str>, key: Str): Str {
    if key in kv then kv[key] else []
  }

  function Write(kv: map<Str, Str>, op: Op): map<Str, Str> {
    match op.kind
    case Get => kv
    case Put => kv[op.key := op.value]
    case Append => kv[op.key := Value(kv, op.key) + op.value]
  }

  function ApplyOp(s: Store, op: Op): Store {
    if op.kind.Get? || !ShouldApply(s, op) then s
    else Store(Write(s.kv, op), s.last[op.client := op.request])
  }

  function ApplyAll(s: Store, ops: seq<Op>): Store {
    if ops == [] then s else ApplyOp(ApplyAll(s, ops[..|ops| - 1]), ops[|ops| - 1])
  }

  /** The state after the first commands of the log. */
  function Fold(ops: seq<Op>): Store {
    ApplyAll(EMPTY, ops)
  }

  // ----- Delivery again and again ----------------------------------------------------

  /** Once a write was handed over, the table covers it, whatever the state before. */
  lemma {:induction false} Covered(s: Store, ops: seq<Op>, i: nat)
    requires i < |ops| && !ops[i].kind.Get?
    ensures !ShouldApply(ApplyAll(s, ops), ops[i])
  {
    if i < |ops| - 1 {
      Covered(s, ops[..|ops| - 1], i);
    }
  }

  /** A command that was handed over before changes nothing. */
  lemma ReplayChangesNothing(s: Store, ops: seq<Op>, i: nat)
    requires i < |ops|
    ensures ApplyOp(ApplyAll(s, ops), ops[i]) == ApplyAll(s, ops)
  {
    if !ops[i].kind.Get? {
      Covered(s, ops, i);
    }
  }

  lemma {:induction false} ApplyConcat(s: Store, a: seq<Op>, b: seq<Op>)
    ensures ApplyAll(s, a + b) == ApplyAll(ApplyAll(s, a), b)
  {
    if b == [] {
      assert a + b == a;
    } else {
      assert (a + b)[..|a + b| - 1] == a + b[..|b| - 1];
      ApplyConcat(s, a, b[..|b| - 1]);
    }
  }

  /** Delivering any stretch of what is already included changes nothing. */
  lemma {:induction false} ReplayStretch(ops: seq<Op>, from: nat, to: nat)
    requires from <= to <= |ops|
    ensures ApplyAll(Fold(ops), ops[from..to]) == Fold(ops)
  {
    if from < to {
      ReplayStretch(ops, from, to - 1);
      assert ops[from..to][..to - from - 1] == ops[from..to - 1];
      ReplayChangesNothing(EMPTY, ops, to - 1);
    }
  }

  /** A delivery that starts inside or right after the included part and runs on brings the
      state to the end of the delivery, or leaves it where it was. */
  lemma Redelivery(log: seq<Op>, covered: nat, from: nat, to: nat)
    requires from <= covered <= |log| && from <= to <= |log|
    ensures ApplyAll(Fold(log[..covered]), log[from..to]) == Fold(log[..if to > covered then to else covered])
  {
    if to <= covered {
      assert log[..covered][from..to] == log[from..to];
      ReplayStretch(log[..covered], from, to);
    } else {
      assert log[from..to] == log[from..covered] + log[covered..to];
      assert log[..covered][from..covered] == log[from..covered];
      ReplayStretch(log[..covered], from, covered);
      ApplyConcat(Fold(log[..covered]), log[from..covered], log[covered..to]);
      assert log[..to] == log[..covered] + log[covered..to];
      ApplyConcat(EMPTY, log[..covered], log[covered..to]);
    }
  }

  // ----- At most once ----------------------------------------------------------------

  predicate WriteOf(op: Op, client: int) {
    !op.kind.Get? && op.client == client
  }

  /** Position i holds a write that is newer than every earlier write of its client. */
  predicate Fresh(ops: seq<Op>, i: nat)
    requires i < |ops|
  {
    !ops[i].kind.Get? && forall j :: 0 <= j < i && WriteOf(ops[j], ops[i].client) ==> ops[j].request < ops[i].request
  }

  /** The log without reads and without repeated or overtaken writes; the table of the
      service plays no part in this. */
  function FreshWrites(ops: seq<Op>): seq<Op> {
    if ops == [] then [] else
      FreshWrites(ops[..|ops| - 1]) + if Fresh(ops, |ops| - 1) then [ops[|ops| - 1]] else []
  }

  /** The writes as puts and appends; reads are left out. */
  function AsWrites(ops: seq<Op>): seq<W.Write<Str, char>> {
    if ops == [] then [] else
      var op := ops[|ops| - 1];
      AsWrites(ops[..|ops| - 1]) + if op.kind.Get? then [] else [W.Write(op.key, op.kind.Put?, op.value)]
  }

  function Found(kv: map<Str, Str>, key: Str): W.Option<Str> {
    if key in kv then W.Some(kv[key]) else W.None
  }

  /** Every key holds the text of its last put and of the appends since. */
  ghost predicate Holds(kv: map<Str, Str>, writes: seq<W.Write<Str, char>>) {
    forall key :: Found(kv, key) == W.ValueAfter(writes, key)
  }

  predicate Climbs(ops: seq<Op>) {
    forall i, j :: 0 <= i < j < |ops| && ops[i].client == ops[j].client ==> ops[i].request < ops[j].request
  }

  /** The table holds, for exactly the clients that wrote, the largest request number of
      their writes. */
  ghost predicate Latest(ops: seq<Op>, last: map<int, int>) {
    && (forall i :: 0 <= i < |ops| && !ops[i].kind.Get? ==> ops[i].client in last && ops[i].request <= last[ops[i].client])
    && (forall c :: c in last ==> exists i :: 0 <= i < |ops| && WriteOf(ops[i], c) && ops[i].request == last[c])
  }

  lemma {:induction false} TableIsLatest(ops: seq<Op>)
    ensures Latest(ops, Fold(ops).last)
  {
    if ops != [] {
      var front, op := ops[..|ops| - 1], ops[|ops| - 1];
      var was, last := Fold(front).last, Fold(ops).last;
      TableIsLatest(front);
      forall i | 0 <= i < |ops| && !ops[i].kind.Get? ensures ops[i].client in last && ops[i].request <= last[ops[i].client] {
        assert i < |front| ==> ops[i] == front[i];
      }
      forall c | c in last ensures exists i :: 0 <= i < |ops| && WriteOf(ops[i], c) && ops[i].request == last[c] {
        if c in was && last[c] == was[c] {
          var i :| 0 <= i < |front| && WriteOf(front[i], c) && front[i].request == was[c];
          assert ops[i] == front[i];
        } else {
          assert WriteOf(ops[|ops| - 1], c);
        }
      }
    }
  }

  /** The guard of the service lets through exactly the fresh writes. */
  lemma GuardIsFresh(ops: seq<Op>)
    requires ops != [] && !ops[|ops| - 1].kind.Get?
    ensures ShouldApply(Fold(ops[..|ops| - 1]), ops[|ops| - 1]) <==> Fresh(ops, |ops| - 1)
  {
    var front, op := ops[..|ops| - 1], ops[|ops| - 1];
    var last := Fold(front).last;
    TableIsLatest(front);
    forall j | 0 <= j < |front| ensures ops[j] == front[j] {
    }
    if op.client in last && op.request <= last[op.client] {
      var i :| 0 <= i < |front| && WriteOf(front[i], op.client) && front[i].request == last[op.client];
      assert WriteOf(ops[i], op.client);
    }
  }

  /** Every fresh write of a log is in the log. */
  lemma {:induction false} FreshFrom(ops: seq<Op>, k: nat)
    requires k < |FreshWrites(ops)|
    ensures exists i :: 0 <= i < |ops| && ops[i] == FreshWrites(ops)[k] && !ops[i].kind.Get?
  {
    var front := ops[..|ops| - 1];
    if k < |FreshWrites(front)| {
      FreshFrom(front, k);
      var i :| 0 <= i < |front| && front[i] == FreshWrites(front)[k] && !front[i].kind.Get?;
      assert ops[i] == FreshWrites(ops)[k];
    } else {
      assert ops[|ops| - 1] == FreshWrites(ops)[k];
    }
  }

  lemma WriteHolds(kv: map<Str, Str>, writes: seq<W.Write<Str, char>>, op: Op)
    requires Holds(kv, writes) && !op.kind.Get?
    ensures Holds(Write(kv, op), writes + [W.Write(op.key, op.kind.Put?, op.value)])
  {
    var x := W.Write(op.key, op.kind.Put?, op.value);
    forall key ensures Found(Write(kv, op), key) == W.ValueAfter(writes + [x], key) {
      W.ValueMore(writes, x, key);
      assert Found(kv, key) == W.ValueAfter(writes, key);
      assert [] + op.value == op.value;
    }
  }

  /** The writes before a fresh one have smaller numbers. */
  lemma FreshAbove(ops: seq<Op>, i: nat)
    requires ops != [] && Fresh(ops, |ops| - 1) && i < |FreshWrites(ops[..|ops| - 1])|
    ensures var w, op := FreshWrites(ops[..|ops| - 1])[i], ops[|ops| - 1];
            w.client == op.client ==> w.request < op.request
  {
    var front, op := ops[..|ops| - 1], ops[|ops| - 1];
    FreshFrom(front, i);
    var x :| 0 <= x < |front| && front[x] == FreshWrites(front)[i] && !front[x].kind.Get?;
    assert ops[x] == front[x];
    assert ops[x].client == op.client ==> WriteOf(ops[x], op.client);
  }

  lemma ClimbsMore(writes: seq<Op>, op: Op)
    requires Climbs(writes) && forall i :: 0 <= i < |writes| && writes[i].client == op.client ==> writes[i].request < op.request
    ensures Climbs(writes + [op])
  {
  }

  /** At most once, and at least once: every key holds the last put to it and what was
      appended since among the fresh writes of the log, and per client the request numbers
      of these strictly increase. */
  lemma {:induction false} AtMostOnce(ops: seq<Op>)
    ensures Holds(Fold(ops).kv, AsWrites(FreshWrites(ops))) && Climbs(FreshWrites(ops))
  {
    if ops != [] {
      var front, op := ops[..|ops| - 1], ops[|ops| - 1];
      AtMostOnce(front);
      if !op.kind.Get? {
        GuardIsFresh(ops);
      }
      if Fresh(ops, |ops| - 1) {
        var all := FreshWrites(front) + [op];
        assert all[..|all| - 1] == FreshWrites(front);
        WriteHolds(Fold(front).kv, AsWrites(FreshWrites(front)), op);
        forall i | 0 <= i < |FreshWrites(front)| && FreshWrites(front)[i].client == op.client
          ensures FreshWrites(front)[i].request < op.request
        {
          FreshAbove(ops, i);
        }
        ClimbsMore(FreshWrites(front), op);
      } else {
        assert FreshWrites(ops) == FreshWrites(front);
      }
    }
  }

  // ----- The server ------------------------------------------------------------------

  /** The copying loops, in any order of the keys. */
  method CopyMap<K, V>(m: map<K, V>) returns (c: map<K, V>)
    ensures c == m
  {
    c := map[];
    var keys := m.Keys;
    while keys != {}
      invariant keys <= m.Keys && c == m - keys
    {
      var k :| k in keys;
      c, keys := c[k := m[k]], keys - {k};
    }
  }

  class KVServer {
    var kvStore: map<Str, Str>
    var lastAppliedReq: map<int, int>

    function State(): Store
      reads this
    {
      Store(kvStore, lastAppliedReq)
    }

    constructor ()
      ensures State() == EMPTY
    {
      kvStore, lastAppliedReq := map[], map[];
    }

    /** The command branch of the applier; only a Get yields a value.  A write newer than
        the client's last puts its text or appends it to what the key held. */
    method Apply(op: Op) returns (value: Str)
      modifies this
      ensures State() == ApplyOp(old(State()), op)
      ensures value == if op.kind.Get? && op.key in old(kvStore) then old(kvStore)[op.key] else []
      ensures var newer := !op.kind.Get? && (op.client in old(lastAppliedReq) ==> op.request > old(lastAppliedReq)[op.client]);
              && (!newer ==> unchanged(this))
              && (newer ==>
                    && lastAppliedReq == old(lastAppliedReq)[op.client := op.request]
                    && kvStore.Keys == old(kvStore).Keys + {op.key}
                    && (forall k :: k in old(kvStore) && k != op.key ==> kvStore[k] == old(kvStore)[k])
                    && (op.kind.Put? || op.key !in old(kvStore) ==> kvStore[op.key] == op.value)
                    && (op.kind.Append? && op.key in old(kvStore) ==> kvStore[op.key] == old(kvStore)[op.key] + op.value))
    {
      value := [];
      match op.kind {
        case Get =>
          value := Value(kvStore, op.key);
        case Put =>
          if ShouldApply(State(), op) {
            kvStore := kvStore[op.key := op.value];
            lastAppliedReq := lastAppliedReq[op.client := op.request];
          }
        case Append =>
          if ShouldApply(State(), op) {
            var cur := Value(kvStore, op.key);
            kvStore := kvStore[op.key := cur + op.value];
            lastAppliedReq := lastAppliedReq[op.client := op.request];
          }
      }
    }

    /** A deep copy; the encoding to bytes is left out. */
    method EncodeSnapshot() returns (snap: Store)
      ensures snap == State()
    {
      var kv := CopyMap(kvStore);
      var last := CopyMap(lastAppliedReq);
      snap := Store(kv, last);
    }

    /** None stands for no bytes at all, which leave the state alone. */
    method RestoreSnapshot(present: bool, snap: Store)
      modifies this
      ensures State() == if present then snap else old(State())
    {
      if !present {
        return;
      }
      kvStore := CopyMap(snap.kv);
      lastAppliedReq := CopyMap(snap.last);
    }
  }
}
