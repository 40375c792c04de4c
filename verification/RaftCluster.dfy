/**
 n Raft peers over a network that may lose, delay, duplicate and reorder every message
 (raft.go).  Each action below is one lock-held section of one peer, or its crash and
 restart; a message once sent stays deliverable for ever, any number of times.
 */
module RaftCluster {
  import opened RaftPeer
  import opened RaftHistory

  /** The closure variables of one Election(): votes that RequestVote returned, votes
      counted so far (the candidate's own included), and whether a majority was seen. */
  datatype Tally = Tally(granted: set<nat>, counted: set<nat>, finished: bool)

  /** A peer with what its goroutines hold outside the lock: the elections it started, the
      snapshots on their way to the service, and the end of the batch being sent. */
  datatype Node = Node(
    peer: Peer,
    elections: map<nat, Tally>,
    offered: set<SnapshotArgs>,
    sending: Option<nat>)

  /** `log` in a vote request is the sender's whole log; no peer reads it. */
  datatype Message =
    | VoteRequest(to: nat, vote: VoteArgs, log: Log)
    | VoteResponse(from: nat, vote: VoteArgs, voteReply: VoteReply)
    | AppendRequest(to: nat, append: AppendArgs)
    | AppendResponse(from: nat, append: AppendArgs, appendReply: AppendReply)
    | SnapshotRequest(to: nat, snapshot: SnapshotArgs)
    | SnapshotResponse(from: nat, snapshot: SnapshotArgs, term: nat)

  datatype Delivery = Delivery(peer: nat, msg: ApplyMsg)

  datatype Cluster = Cluster(
    nodes: seq<Node>,
    net: set<Message>,
    delivered: set<Delivery>,
    history: History)

  datatype Action =
    | Timeout(p: nat)
    | AskVote(p: nat, term: nat, to: nat)
    | GetVoteRequest(p: nat, m: Message)
    | GetVoteReply(p: nat, m: Message)
    | Count(p: nat, term: nat, voter: nat)
    | Replicate(p: nat, to: nat)
    | GetAppend(p: nat, m: Message)
    | GetAppendReply(p: nat, m: Message)
    | GetSnapshot(p: nat, m: Message)
    | SnapshotHandedOver(p: nat)
    | GetSnapshotReply(p: nat, m: Message)
    | Install(p: nat, a: SnapshotArgs)
    | Trim(p: nat, index: nat)
    | ClientStart(p: nat, command: Command)
    | BeginApply(p: nat)
    | EndApply(p: nat)
    | Restart(p: nat)

  // ----- The whole log of a peer -----------------------------------------------------

  /** The part of the log that the stored snapshot stands for. */
  function Stem(p: Peer): Log {
    if p.storage.snapshot == [] then [PLACEHOLDER] else p.storage.snapshot
  }

  /** Every entry from position 0 on, snapshotted or not. */
  function Full(p: Peer): Log
    requires |p.logs| > 0
  {
    Stem(p) + p.logs[1..]
  }

  // ----- Start and steps -------------------------------------------------------------

  function InitialNode(n: nat): Node {
    Node(Boot(Storage(None, []), n), map[], {}, None)
  }

  function Init(n: nat): Cluster {
    Cluster(seq(n, _ => InitialNode(n)), {}, {}, History(map[], {}, {}, {}))
  }

  predicate WellFormed(s: Cluster) {
    forall q :: 0 <= q < |s.nodes| ==>
      && |s.nodes[q].peer.logs| > 0
      && |s.nodes[q].peer.nextIndex| == |s.nodes[q].peer.matchIndex| == |s.nodes|
  }

  /** One peer moves; messages and history are added. */
  function Move(s: Cluster, p: nat, node: Node, sent: set<Message>, history: History): Cluster
    requires p < |s.nodes|
  {
    s.(nodes := s.nodes[p := node], net := s.net + sent, history := history)
  }

  predicate Ready(s: Cluster, p: nat) {
    p < |s.nodes| && |s.nodes[p].peer.logs| > 0
  }

  predicate Enabled(s: Cluster, a: Action) {
    && a.p < |s.nodes|
    && WellFormed(s)
    && var node := s.nodes[a.p];
       match a
       case Timeout(_) => true
       case AskVote(_, term, to) => term in node.elections && to < |s.nodes| && to != a.p
       case GetVoteRequest(_, m) => m in s.net && m.VoteRequest? && m.to == a.p
       case GetVoteReply(_, m) =>
         && m in s.net && m.VoteResponse?
         && m.vote.candidate == a.p && m.vote.term in node.elections
       case Count(_, term, voter) => term in node.elections && voter in node.elections[term].granted
       case Replicate(_, to) => node.peer.role.Leader? && to < |s.nodes| && to != a.p
       case GetAppend(_, m) => m in s.net && m.AppendRequest? && m.to == a.p
       case GetAppendReply(_, m) =>
         m in s.net && m.AppendResponse? && m.append.leader == a.p && m.from < |s.nodes|
       case GetSnapshot(_, m) => m in s.net && m.SnapshotRequest? && m.to == a.p
       case SnapshotHandedOver(_) => true
       case GetSnapshotReply(_, m) =>
         m in s.net && m.SnapshotResponse? && m.snapshot.leader == a.p && m.from < |s.nodes|
       case Install(_, args) => args in node.offered
       case Trim(_, index) => index < |Full(node.peer)|
       case ClientStart(_, _) => true
       case BeginApply(_) => !node.peer.applying && CanApply(node.peer)
       case EndApply(_) => node.sending.Some?
       case Restart(_) => true
  }

  function Do(s: Cluster, a: Action): Cluster
    requires Enabled(s, a)
  {
    match a
    case Timeout(p) => DoTimeout(s, p)
    case AskVote(p, term, to) => DoAskVote(s, p, term, to)
    case GetVoteRequest(p, m) => DoGetVoteRequest(s, p, m)
    case GetVoteReply(p, m) => DoGetVoteReply(s, p, m)
    case Count(p, term, voter) => DoCount(s, p, term, voter)
    case Replicate(p, to) => DoReplicate(s, p, to)
    case GetAppend(p, m) => DoGetAppend(s, p, m)
    case GetAppendReply(p, m) => DoGetAppendReply(s, p, m)
    case GetSnapshot(p, m) => DoGetSnapshot(s, p, m)
    case SnapshotHandedOver(p) =>
      var node := s.nodes[p];
      Move(s, p, node.(peer := node.peer.(snapshotInFlight := false)), {}, s.history)
    case GetSnapshotReply(p, m) =>
      var node := s.nodes[p];
      Move(s, p, node.(peer := OnSnapshotReply(node.peer, m.from, m.term)), {}, s.history)
    case Install(p, args) =>
      var node := s.nodes[p];
      Move(s, p, node.(peer := CondInstall(node.peer, args.lastIncludedTerm, args.lastIncludedIndex, args.data).0),
           {}, s.history)
    case Trim(p, index) =>
      var node := s.nodes[p];
      Move(s, p, node.(peer := TakeSnapshot(node.peer, index, Full(node.peer)[..index + 1])), {}, s.history)
    case ClientStart(p, command) => DoClientStart(s, p, command)
    case BeginApply(p) => DoBeginApply(s, p)
    case EndApply(p) =>
      var node := s.nodes[p];
      Move(s, p, node.(peer := FinishBatch(node.peer, node.sending.value), sending := None), {}, s.history)
    case Restart(p) =>
      Move(s, p, Node(Boot(s.nodes[p].peer.storage, |s.nodes|), map[], {}, None), {}, s.history)
  }

  function DoTimeout(s: Cluster, p: nat): Cluster
    requires Ready(s, p)
  {
    var node, h := s.nodes[p], s.history;
    var peer := BeginElection(node.peer, p);
    var log := Full(node.peer);
    Move(s, p,
         node.(peer := peer, elections := node.elections[peer.currentTerm := Tally({}, {p}, false)]),
         {},
         h.(grants := h.grants + {Grant(peer.currentTerm, p, p, log, log)}))
  }

  function DoAskVote(s: Cluster, p: nat, term: nat, to: nat): Cluster
    requires Ready(s, p)
  {
    var peer := s.nodes[p].peer;
    Move(s, p, s.nodes[p], {VoteRequest(to, MakeVoteArgs(peer, p, term), Full(peer))}, s.history)
  }

  function DoGetVoteRequest(s: Cluster, p: nat, m: Message): Cluster
    requires Ready(s, p) && m.VoteRequest?
  {
    var node, h := s.nodes[p], s.history;
    var (peer, reply) := HandleVote(node.peer, m.vote);
    Move(s, p, node.(peer := peer), {VoteResponse(p, m.vote, reply)},
         if reply.granted then
           h.(grants := h.grants + {Grant(m.vote.term, p, m.vote.candidate, Full(node.peer), m.log)})
         else h)
  }

  function DoGetVoteReply(s: Cluster, p: nat, m: Message): Cluster
    requires Ready(s, p) && m.VoteResponse? && m.vote.term in s.nodes[p].elections
  {
    var node := s.nodes[p];
    var (peer, granted) := OnVoteReply(node.peer, m.voteReply);
    var tally := node.elections[m.vote.term];
    Move(s, p,
         node.(peer := peer,
               elections := if granted then
                   node.elections[m.vote.term := tally.(granted := tally.granted + {m.from})]
                 else node.elections),
         {}, s.history)
  }

  predicate Wins(node: Node, term: nat, counted: set<nat>, n: nat)
    requires term in node.elections
  {
    && !node.elections[term].finished && |counted| > n / 2
    && node.peer.role.Candidate? && node.peer.currentTerm == term
  }

  function DoCount(s: Cluster, p: nat, term: nat, voter: nat): Cluster
    requires Ready(s, p) && term in s.nodes[p].elections
  {
    var node, h, n := s.nodes[p], s.history, |s.nodes|;
    var tally := node.elections[term];
    var counted := tally.counted + {voter};
    var next := node.(elections := node.elections[term :=
                        Tally(tally.granted - {voter}, counted, tally.finished || |counted| > n / 2)]);
    if Wins(node, term, counted, n) && LastIndex(node.peer) >= 0 then
      var log := Full(node.peer);
      Move(s, p, next.(peer := Promote(node.peer, p, n)), {},
           h.(leaders := h.leaders[term := LeaderRec(p, log, log, counted)]))
    else
      Move(s, p, next, {}, h)
  }

  function DoReplicate(s: Cluster, p: nat, to: nat): Cluster
    requires Ready(s, p) && to < |s.nodes[p].peer.nextIndex|
  {
    match MakeRequest(s.nodes[p].peer, p, to)
    case SendEntries(append) => Move(s, p, s.nodes[p], {AppendRequest(to, append)}, s.history)
    case SendSnapshot(snapshot) => Move(s, p, s.nodes[p], {SnapshotRequest(to, snapshot)}, s.history)
  }

  function DoGetAppend(s: Cluster, p: nat, m: Message): Cluster
    requires Ready(s, p) && m.AppendRequest?
  {
    var (peer, reply) := HandleAppend(s.nodes[p].peer, m.append);
    Answer(s, p, m.append, peer, reply)
  }

  function AckOf(p: nat, a: AppendArgs): Ack {
    Ack(p, a.term, a.prevLogIndex + |a.entries|)
  }

  function Answer(s: Cluster, p: nat, a: AppendArgs, peer: Peer, reply: AppendReply): Cluster
    requires p < |s.nodes|
  {
    var h := s.history;
    Move(s, p, s.nodes[p].(peer := peer), {AppendResponse(p, a, reply)},
         if reply.success then h.(acks := h.acks + {AckOf(p, a)}) else h)
  }

  function DoGetAppendReply(s: Cluster, p: nat, m: Message): Cluster
    requires Ready(s, p) && m.AppendResponse?
    requires m.from < |s.nodes[p].peer.nextIndex| == |s.nodes[p].peer.matchIndex|
  {
    Counted(s, p, OnAppendReply(s.nodes[p].peer, p, m.from, m.append, m.appendReply))
  }

  /** A commit index raised by counting is recorded with its majority. */
  function Counted(s: Cluster, p: nat, peer: Peer): Cluster
    requires p < |s.nodes|
  {
    var node, h := s.nodes[p], s.history;
    Move(s, p, node.(peer := peer), {},
         if peer.commitIndex > node.peer.commitIndex then
           h.(acks := h.acks + {Ack(p, peer.currentTerm, peer.commitIndex)},
              commits := h.commits +
                {Commit(peer.currentTerm, peer.commitIndex, Replicas(peer, p, peer.commitIndex) + {p})})
         else h)
  }

  function DoGetSnapshot(s: Cluster, p: nat, m: Message): Cluster
    requires Ready(s, p) && m.SnapshotRequest?
  {
    var (peer, term, offer) := HandleSnapshot(s.nodes[p].peer, m.snapshot);
    Offer(s, p, m.snapshot, peer, term, offer)
  }

  function Offer(s: Cluster, p: nat, a: SnapshotArgs, peer: Peer, term: nat, offer: bool): Cluster
    requires p < |s.nodes|
  {
    var node := s.nodes[p];
    Move(s, p, node.(peer := peer, offered := if offer then node.offered + {a} else node.offered),
         {SnapshotResponse(p, a, term)}, s.history)
  }

  function DoClientStart(s: Cluster, p: nat, command: Command): Cluster
    requires Ready(s, p)
  {
    var node, h := s.nodes[p], s.history;
    var peer := StartCommand(node.peer, command);
    var T := peer.currentTerm;
    Move(s, p, node.(peer := peer), {},
         if node.peer.role.Leader? && T in h.leaders then
           h.(leaders := h.leaders[T := h.leaders[T].(log := Full(peer))])
         else h)
  }

  function DoBeginApply(s: Cluster, p: nat): Cluster
    requires Ready(s, p) && BatchEnd(s.nodes[p].peer) >= 0
  {
    var node := s.nodes[p];
    var batch := Batch(node.peer);
    Move(s, p, node.(peer := node.peer.(applying := true), sending := Some(BatchEnd(node.peer) as nat)), {}, s.history)
    .(delivered := s.delivered + set k | 0 <= k < |batch| :: Delivery(p, batch[k]))
  }

  // ----- Runs ------------------------------------------------------------------------

  predicate StepAt(run: seq<Cluster>, actions: seq<Action>, k: nat)
    requires k < |actions| < |run|
  {
    Enabled(run[k], actions[k]) && run[k + 1] == Do(run[k], actions[k])
  }

  ghost predicate IsRun(run: seq<Cluster>, actions: seq<Action>, n: nat) {
    && |run| == |actions| + 1
    && run[0] == Init(n)
    && forall k {:trigger StepAt(run, actions, k)} :: 0 <= k < |actions| ==> StepAt(run, actions, k)
  }
}
