/**
 The key/value service on every peer of a Raft cluster: kvraft/server.go driven by
 raft.go.  The channel between the two carries one message at a time.  A batch of
 committed commands is handed over command by command, and a snapshot from the leader may
 come in between; a service saves its state as it is after the command it has just
 applied.
 */
module KvSystem {
  import opened RaftPeer
  import opened RaftHistory
  import opened RaftCluster
  import K = KvService

  /** How a command of the log is read as an operation. */
  type Decode = string -> K.Op

  /** A state of the service, in memory or encoded in a snapshot.  The rest is history:
      the log positions whose commands went into it, and the largest of them. */
  datatype Image = Image(store: K.Store, at: nat, has: set<nat>)

  /** One service: its state, the snapshot bytes its peer has stored, the commands of the
      batch that wait to be received, and the index of the command just applied. */
  datatype Service = Service(now: Image, disk: Image, queue: seq<ApplyMsg>, hand: Option<nat>)

  /** `images` pairs every snapshot request with the bytes that went with it. */
  datatype System = System(raft: Cluster, services: seq<Service>, images: set<(SnapshotArgs, Image)>)

  /** A section of Raft, or one round of a service's applier: it takes the next command,
      goes on to save a snapshot after it, or takes in a snapshot from the leader. */
  datatype Event =
    | Raft(a: Action)
    | Deliver(p: nat)
    | SaveSnapshot(p: nat)
    | TakeIn(p: nat, args: SnapshotArgs, image: Image)

  const BLANK := Image(K.EMPTY, 0, {})

  function Start(n: nat): System {
    System(Init(n), seq(n, _ => Service(BLANK, BLANK, [], None)), {})
  }

  // ----- Steps -----------------------------------------------------------------------

  predicate Possible(x: System, e: Event) {
    && |x.services| == |x.raft.nodes|
    && match e
       case Raft(a) =>
         Enabled(x.raft, a) && !a.Install? && !a.Trim? && (a.EndApply? ==> x.services[a.p].queue == [])
       case Deliver(p) => p < |x.services| && x.services[p].queue != []
       case SaveSnapshot(p) =>
         p < |x.services| && x.services[p].hand.Some? && Enabled(x.raft, Trim(p, x.services[p].hand.value))
       case TakeIn(p, args, image) =>
         p < |x.services| && Enabled(x.raft, Install(p, args)) && (args, image) in x.images
  }

  /** The service of the peer that takes a section of Raft. */
  function Beside(P: Peer, a: Action, svc: Service): Service
    requires |P.logs| > 0
  {
    match a
    case BeginApply(_) => svc.(queue := Batch(P))
    case Restart(_) => Service(svc.disk, svc.disk, [], None)
    case _ => svc
  }

  /** The bytes that leave with a snapshot request. */
  function Shipped(P: Peer, a: Action, disk: Image): set<(SnapshotArgs, Image)>
    requires a.Replicate? ==> a.to < |P.nextIndex|
  {
    if !a.Replicate? then {} else
      match MakeRequest(P, a.p, a.to)
      case SendSnapshot(args) => {(args, disk)}
      case SendEntries(_) => {}
  }

  function After(decode: Decode, im: Image, m: ApplyMsg): Image {
    Image(K.ApplyOp(im.store, decode(m.command)), Max(im.at, m.index), im.has + {m.index})
  }

  /** The applier's command branch. */
  function Receive(decode: Decode, svc: Service): Service
    requires svc.queue != []
  {
    var m := svc.queue[0];
    svc.(now := After(decode, svc.now, m),
         queue := svc.queue[1..],
         hand := Some(m.index))
  }

  /** Raft stores a snapshot for `index` exactly if this moves its base. */
  predicate Stores(P: Peer, index: nat) {
    TakeSnapshot(P, index, []).lastIncludedIndex != P.lastIncludedIndex
  }

  function Saved(P: Peer, svc: Service): Service
    requires svc.hand.Some?
  {
    svc.(disk := if Stores(P, svc.hand.value) then svc.now else svc.disk, hand := None)
  }

  predicate Accepts(P: Peer, args: SnapshotArgs) {
    CondInstall(P, args.lastIncludedTerm, args.lastIncludedIndex, args.data).1
  }

  /** The applier's snapshot branch. */
  function TakenIn(P: Peer, args: SnapshotArgs, image: Image, svc: Service): Service {
    if Accepts(P, args) then svc.(now := image, disk := image, hand := None) else svc.(hand := None)
  }

  function Next(decode: Decode, x: System, e: Event): System
    requires Possible(x, e)
  {
    match e
    case Raft(a) =>
      var P, svc := x.raft.nodes[a.p].peer, x.services[a.p];
      System(Do(x.raft, a), x.services[a.p := Beside(P, a, svc)], x.images + Shipped(P, a, svc.disk))
    case Deliver(p) => x.(services := x.services[p := Receive(decode, x.services[p])])
    case SaveSnapshot(p) =>
      var svc := x.services[p];
      x.(raft := Do(x.raft, Trim(p, svc.hand.value)),
         services := x.services[p := Saved(x.raft.nodes[p].peer, svc)])
    case TakeIn(p, args, image) =>
      x.(raft := Do(x.raft, Install(p, args)),
         services := x.services[p := TakenIn(x.raft.nodes[p].peer, args, image, x.services[p])])
  }

  // ----- Runs ------------------------------------------------------------------------

  predicate Happens(decode: Decode, run: seq<System>, events: seq<Event>, k: nat)
    requires k < |events| < |run|
  {
    Possible(run[k], events[k]) && run[k + 1] == Next(decode, run[k], events[k])
  }

  /** Any number of steps from run[0]. */
  ghost predicate Goes(decode: Decode, run: seq<System>, events: seq<Event>) {
    && |run| == |events| + 1
    && forall k {:trigger Happens(decode, run, events, k)} :: 0 <= k < |events| ==> Happens(decode, run, events, k)
  }

  // ----- The guard that the code lacks -----------------------------------------------

  /** The last command that was handed to the service and that Raft will not hand over
      again. */
  function Consumed(node: Node, svc: Service): int {
    if svc.queue != [] then svc.queue[0].index - 1
    else Max(node.peer.lastApplied, if node.sending.Some? then node.sending.value else 0)
  }

  predicate NotBehind(node: Node, svc: Service, image: Image) {
    Consumed(node, svc) <= image.at
  }

  /** No snapshot is taken in that is behind. */
  predicate Careful(x: System, e: Event)
    requires Possible(x, e)
  {
    e.TakeIn? && Accepts(x.raft.nodes[e.p].peer, e.args) ==> NotBehind(x.raft.nodes[e.p], x.services[e.p], e.image)
  }

  predicate CarefulAt(run: seq<System>, events: seq<Event>, k: nat)
    requires k < |events| < |run|
  {
    Possible(run[k], events[k]) && Careful(run[k], events[k])
  }

  /** A run from the start in which no snapshot is taken in from behind. */
  ghost predicate CarefulRun(decode: Decode, run: seq<System>, events: seq<Event>, n: nat) {
    && Goes(decode, run, events) && run[0] == Start(n)
    && forall k {:trigger CarefulAt(run, events, k)} :: 0 <= k < |events| ==> CarefulAt(run, events, k)
  }
}
