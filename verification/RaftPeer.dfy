/**
 One Raft peer as a value, and each of its lock-held sections as a function from the
 state before to the state after (raft.go).  `RaftServer` proves that the loops of the
 server compute these functions; `RaftCluster` runs n of them over a network.

 Log positions are global: position 0 is the placeholder, positions 1, 2, ... hold
 commands, and `logs[0]` stands for position `lastIncludedIndex`.
 */
module RaftPeer {

  type Command = string

  datatype Entry = Entry(command: Command, term: nat)

  datatype Role = Leader | Follower | Candidate

  datatype Option<+T> = None | Some(value: T)

  const NONE_COMMAND: Command := ""
  const PLACEHOLDER := Entry(NONE_COMMAND, 0)
  const NOBODY: int := -1

  /** What persist() writes. */
  datatype HardState = HardState(
    currentTerm: nat,
    votedFor: int,
    lastIncludedIndex: nat,
    lastIncludedTerm: nat,
    logs: seq<Entry>)

  /** The persister: an encoded hard state and the service's snapshot.  Snapshot bytes
      are represented by the log prefix (positions 0 .. lastIncludedIndex) whose
      application they record; no bytes at all are the empty sequence. */
  datatype Storage = Storage(raftState: Option<HardState>, snapshot: seq<Entry>)

  datatype Peer = Peer(
    role: Role,
    currentTerm: nat,
    votedFor: int,
    logs: seq<Entry>,
    lastIncludedIndex: nat,
    lastIncludedTerm: nat,
    commitIndex: nat,
    lastApplied: nat,
    nextIndex: seq<nat>,
    matchIndex: seq<nat>,
    applying: bool,
    snapshotInFlight: bool,
    storage: Storage)

  datatype VoteArgs = VoteArgs(term: nat, candidate: nat, lastLogIndex: int, lastLogTerm: int)
  datatype VoteReply = VoteReply(term: nat, granted: bool)

  datatype AppendArgs = AppendArgs(
    term: nat,
    leader: nat,
    prevLogIndex: nat,
    prevLogTerm: int,
    entries: seq<Entry>,
    leaderCommit: nat,
    leaderCommitTerm: int)
  datatype AppendReply = AppendReply(term: nat, success: bool)

  datatype SnapshotArgs = SnapshotArgs(
    term: nat,
    leader: nat,
    lastIncludedIndex: nat,
    lastIncludedTerm: nat,
    data: seq<Entry>)

  datatype Request = SendEntries(append: AppendArgs) | SendSnapshot(snapshot: SnapshotArgs)

  /** A command handed to the service on applyCh. */
  datatype ApplyMsg = ApplyMsg(index: nat, command: Command, term: nat)

  // ----- Reading the log -------------------------------------------------------------

  function LastIndex(p: Peer): int {
    p.lastIncludedIndex + |p.logs| - 1
  }

  function TermAt(p: Peer, index: int): int {
    if index == p.lastIncludedIndex then p.lastIncludedTerm
    else
      var local := index - p.lastIncludedIndex;
      if local < 0 || local >= |p.logs| then -1 else p.logs[local].term
  }

  // ----- Persistence -----------------------------------------------------------------

  function Hard(p: Peer): HardState {
    HardState(p.currentTerm, p.votedFor, p.lastIncludedIndex, p.lastIncludedTerm, p.logs)
  }

  function Persist(p: Peer): Peer {
    p.(storage := p.storage.(raftState := Some(Hard(p))))
  }

  function PersistWith(p: Peer, snapshot: seq<Entry>): Peer {
    p.(storage := Storage(Some(Hard(p)), snapshot))
  }

  /** A peer made by Make(): fresh volatile state, then readPersist(). */
  function Boot(storage: Storage, n: nat): Peer {
    var blank := Peer(Follower, 0, NOBODY, [PLACEHOLDER], 0, 0, 0, 0,
                      seq(n, _ => 0), seq(n, _ => 0), false, false, storage);
    match storage.raftState
    case None => blank
    case Some(h) =>
      blank.(currentTerm := h.currentTerm,
             votedFor := h.votedFor,
             lastIncludedIndex := h.lastIncludedIndex,
             lastIncludedTerm := h.lastIncludedTerm,
             logs := if |h.logs| > 0 then h.logs else [PLACEHOLDER],
             commitIndex := h.lastIncludedIndex,
             lastApplied := h.lastIncludedIndex)
  }

  // ----- Elections -------------------------------------------------------------------

  /** A higher term was seen. */
  function StepDown(p: Peer, term: nat): Peer {
    Persist(p.(currentTerm := term, role := Follower, votedFor := NOBODY))
  }

  function BeginElection(p: Peer, me: nat): Peer {
    Persist(p.(role := Candidate, currentTerm := p.currentTerm + 1, votedFor := me))
  }

  /** The request carries the term of the election that started it, and the end of the
      log as it is when the request is prepared. */
  function MakeVoteArgs(p: Peer, me: nat, term: nat): VoteArgs {
    VoteArgs(term, me, LastIndex(p), TermAt(p, LastIndex(p)))
  }

  predicate UpToDate(p: Peer, a: VoteArgs) {
    var lastLogTerm := TermAt(p, LastIndex(p));
    a.lastLogTerm > lastLogTerm || (a.lastLogTerm == lastLogTerm && a.lastLogIndex >= LastIndex(p))
  }

  function HandleVote(p: Peer, a: VoteArgs): (r: (Peer, VoteReply)) {
    if a.term < p.currentTerm then (p, VoteReply(p.currentTerm, false))
    else
      var q := if a.term > p.currentTerm then StepDown(p, a.term) else p;
      if (q.votedFor == NOBODY || q.votedFor == a.candidate) && UpToDate(q, a) then
        (Persist(q.(votedFor := a.candidate)), VoteReply(p.currentTerm, true))
      else
        (q, VoteReply(p.currentTerm, false))
  }

  function OnVoteReply(p: Peer, reply: VoteReply): (r: (Peer, bool)) {
    if reply.term > p.currentTerm then (StepDown(p, reply.term), false)
    else (p, reply.granted && p.role.Candidate?)
  }

  function Promote(p: Peer, me: nat, n: nat): Peer
    requires LastIndex(p) >= 0
  {
    var last: nat := LastIndex(p);
    p.(role := Leader,
       nextIndex := seq(n, _ => last + 1),
       matchIndex := seq(n, i => if i == me then last else p.lastIncludedIndex))
  }

  // ----- Replication -----------------------------------------------------------------

  function MakeRequest(p: Peer, me: nat, server: nat): Request
    requires server < |p.nextIndex|
  {
    var next := p.nextIndex[server];
    if next <= p.lastIncludedIndex then
      SendSnapshot(SnapshotArgs(p.currentTerm, me, p.lastIncludedIndex, p.lastIncludedTerm, p.storage.snapshot))
    else
      var start := next - p.lastIncludedIndex;
      SendEntries(AppendArgs(
                    p.currentTerm, me, next - 1, TermAt(p, next - 1),
                    if start < |p.logs| then p.logs[start..] else [],
                    p.commitIndex, TermAt(p, p.commitIndex)))
  }

  /** The consistency check at prevLogIndex. */
  predicate PrevMatches(p: Peer, a: AppendArgs) {
    && a.prevLogIndex >= p.lastIncludedIndex
    && if a.prevLogIndex == p.lastIncludedIndex then a.prevLogTerm == p.lastIncludedTerm
       else
         && a.prevLogIndex - p.lastIncludedIndex < |p.logs|
         && p.logs[a.prevLogIndex - p.lastIncludedIndex].term == a.prevLogTerm
  }

  /** The log after the conflict scan: entries that agree in term are kept, the first one
      that disagrees or is missing cuts the log and the rest of the request is appended. */
  function Splice(logs: seq<Entry>, base: nat, start: nat, entries: seq<Entry>): (r: seq<Entry>)
    requires base < start <= base + |logs|
    ensures |r| >= start - base && forall k :: 0 <= k < start - base ==> r[k] == logs[k]
    decreases |entries|
  {
    if entries == [] then logs
    else if start == base + |logs| then logs + entries
    else if logs[start - base].term != entries[0].term then logs[..start - base] + entries
    else Splice(logs, base, start + 1, entries[1..])
  }

  function Min(a: nat, b: nat): nat {
    if a < b then a else b
  }

  function HandleAppend(p: Peer, a: AppendArgs): (r: (Peer, AppendReply))
    requires |p.logs| > 0
  {
    var q := if a.term > p.currentTerm then StepDown(p, a.term)
             else if a.term == p.currentTerm then p.(role := Follower)
             else p;
    if a.term < q.currentTerm || !PrevMatches(q, a) then (q, AppendReply(p.currentTerm, false))
    else if a.entries == [] then
      var candidate := Min(a.leaderCommit, a.prevLogIndex);
      if candidate > q.commitIndex && TermAt(q, candidate) == a.leaderCommitTerm then
        (q.(commitIndex := candidate), AppendReply(p.currentTerm, true))
      else
        (q, AppendReply(p.currentTerm, true))
    else
      var logs := Splice(q.logs, q.lastIncludedIndex, a.prevLogIndex + 1, a.entries);
      var s := if logs == q.logs then q else Persist(q.(logs := logs));
      var candidate := Min(a.leaderCommit, a.prevLogIndex + |a.entries|);
      (if candidate > s.commitIndex then s.(commitIndex := candidate) else s,
       AppendReply(p.currentTerm, true))
  }

  /** The servers other than `me` known to hold position N. */
  function Replicas(p: Peer, me: nat, N: nat): (r: set<nat>) {
    set i | 0 <= i < |p.matchIndex| && i != me && p.matchIndex[i] >= N :: i
  }

  predicate Committable(p: Peer, me: nat, N: nat) {
    TermAt(p, N) == p.currentTerm && |Replicas(p, me, N)| + 1 > |p.matchIndex| / 2
  }

  /** The largest committable position up to N, or the present commit index. */
  function HighestCommit(p: Peer, me: nat, N: int): (r: nat)
    ensures r >= p.commitIndex
    ensures r > p.commitIndex ==> r <= N && Committable(p, me, r)
    ensures forall M: nat :: r < M <= N ==> !Committable(p, me, M)
    decreases N - p.commitIndex
  {
    if N <= p.commitIndex then p.commitIndex
    else if Committable(p, me, N) then N
    else HighestCommit(p, me, N - 1)
  }

  function AdvanceCommit(p: Peer, me: nat): Peer {
    if p.role.Leader? then p.(commitIndex := HighestCommit(p, me, LastIndex(p))) else p
  }

  /** The follower is known to match up to `matched`; neither index moves back. */
  function NoteMatch(p: Peer, server: nat, matched: nat): Peer
    requires server < |p.nextIndex| == |p.matchIndex|
  {
    p.(matchIndex := p.matchIndex[server := Max(p.matchIndex[server], matched)],
       nextIndex := p.nextIndex[server := Max(p.nextIndex[server], matched + 1)])
  }

  function OnAppendReply(p: Peer, me: nat, server: nat, a: AppendArgs, reply: AppendReply): Peer
    requires server < |p.nextIndex| == |p.matchIndex|
  {
    if reply.term > p.currentTerm then StepDown(p, reply.term)
    else if !p.role.Leader? || a.term != p.currentTerm then p
    else if reply.success then
      AdvanceCommit(NoteMatch(p, server, a.prevLogIndex + |a.entries|), me)
    else if p.nextIndex[server] > p.lastIncludedIndex then
      p.(nextIndex := p.nextIndex[server := p.nextIndex[server] - 1])
    else p
  }

  /** A client command; refused unless this peer is the leader. */
  function StartCommand(p: Peer, command: Command): Peer {
    if p.role.Leader? then Persist(p.(logs := p.logs + [Entry(command, p.currentTerm)])) else p
  }

  // ----- Snapshots -------------------------------------------------------------------

  /** The reply's term, and whether the snapshot is handed to the service. */
  function HandleSnapshot(p: Peer, a: SnapshotArgs): (r: (Peer, nat, bool)) {
    if a.term < p.currentTerm then (p, p.currentTerm, false)
    else
      var q := if a.term > p.currentTerm then StepDown(p, a.term) else p;
      if a.lastIncludedIndex <= q.lastIncludedIndex then (q, p.currentTerm, false)
      else (q.(snapshotInFlight := true), p.currentTerm, true)
  }

  /** The sender's bookkeeping after the call returns: no role or term check. */
  function OnSnapshotReply(p: Peer, server: nat, replyTerm: nat): Peer
    requires server < |p.nextIndex| == |p.matchIndex|
  {
    if replyTerm > p.currentTerm then StepDown(p, replyTerm)
    else p.(matchIndex := p.matchIndex[server := p.lastIncludedIndex],
            nextIndex := p.nextIndex[server := p.lastIncludedIndex + 1])
  }

  function Max(a: nat, b: nat): nat {
    if a < b then b else a
  }

  /** Move the base to `index`, keeping `suffix` behind it. */
  function Rebase(p: Peer, index: nat, term: nat, suffix: seq<Entry>, snapshot: seq<Entry>): Peer {
    PersistWith(
      p.(logs := [Entry(NONE_COMMAND, term)] + suffix,
         lastIncludedIndex := index,
         lastIncludedTerm := term,
         commitIndex := Max(p.commitIndex, index),
         lastApplied := Max(p.lastApplied, index)),
      snapshot)
  }

  /** The service asks to switch to a snapshot received from the leader. */
  function CondInstall(p: Peer, term: nat, index: nat, snapshot: seq<Entry>): (r: (Peer, bool)) {
    if index <= p.lastIncludedIndex then (p, false)
    else
      var local := index - p.lastIncludedIndex;
      var suffix := if local < |p.logs| && p.logs[local].term == term then p.logs[local + 1..] else [];
      (Rebase(p, index, term, suffix, snapshot), true)
  }

  /** The service has snapshotted everything up to `index`. */
  function TakeSnapshot(p: Peer, index: nat, snapshot: seq<Entry>): Peer {
    if index <= p.lastIncludedIndex || index > p.commitIndex then p
    else
      var local := index - p.lastIncludedIndex;
      if local >= |p.logs| then p
      else Rebase(p, index, p.logs[local].term, p.logs[local + 1..], snapshot)
  }

  // ----- Handing committed commands to the service -----------------------------------

  function BatchStart(p: Peer): nat {
    Max(p.lastApplied, p.lastIncludedIndex) + 1
  }

  function BatchEnd(p: Peer): int {
    if p.commitIndex > LastIndex(p) then LastIndex(p) else p.commitIndex
  }

  /** The commands sent in one round of applyCommittedEntries. */
  function Batch(p: Peer): (r: seq<ApplyMsg>)
    requires |p.logs| > 0
    ensures |r| == if BatchStart(p) <= BatchEnd(p) then BatchEnd(p) - BatchStart(p) + 1 else 0
  {
    if BatchStart(p) > BatchEnd(p) then []
    else
      seq(BatchEnd(p) - BatchStart(p) + 1, k requires 0 <= k < BatchEnd(p) - BatchStart(p) + 1 =>
        var e := p.logs[BatchStart(p) + k - p.lastIncludedIndex];
        ApplyMsg(BatchStart(p) + k, e.command, e.term))
  }

  predicate CanApply(p: Peer) {
    && !p.snapshotInFlight
    && p.commitIndex > p.lastApplied
    && BatchStart(p) <= BatchEnd(p)
  }

  /** The lock is taken again after a batch that ended at `lastSent`. */
  function FinishBatch(p: Peer, lastSent: nat): Peer {
    if p.snapshotInFlight then p.(applying := false)
    else p.(lastApplied := Max(p.lastApplied, lastSent), applying := false)
  }
}
