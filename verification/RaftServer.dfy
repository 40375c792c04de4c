/**
 The Raft object of raft.go and its persister: fields updated in place under the lock.
 Every method is one lock-held section, and its contract ties the new state to the
 function of `RaftPeer` that the cluster model runs.
 */
module RaftServer {
  import opened RaftPeer

  /** persister.go: encoded hard state and snapshot, saved singly or together. */
  class Persister {
    var raftState: Option<HardState>
    var snapshot: seq<Entry>

    constructor ()
      ensures Contents() == Storage(None, [])
    {
      raftState, snapshot := None, [];
    }

    function Contents(): Storage
      reads this
    {
      Storage(raftState, snapshot)
    }

    method SaveRaftState(state: HardState)
      modifies this
      ensures Contents() == Storage(Some(state), old(snapshot))
    {
      raftState := Some(state);
    }

    method SaveStateAndSnapshot(state: HardState, data: seq<Entry>)
      modifies this
      ensures Contents() == Storage(Some(state), data)
    {
      raftState := Some(state);
      snapshot := data;
    }
  }

  /** The message for position i. */
  function MsgAt(p: Peer, i: nat): ApplyMsg
    requires p.lastIncludedIndex <= i < p.lastIncludedIndex + |p.logs|
  {
    var entry := p.logs[i - p.lastIncludedIndex];
    ApplyMsg(i, entry.command, entry.term)
  }

  /** The peer after a request that passed the check. */
  function Taken(q: Peer, a: AppendArgs): Peer
    requires |q.logs| > 0 && PrevMatches(q, a)
  {
    if a.entries == [] then
      var candidate := Min(a.leaderCommit, a.prevLogIndex);
      if candidate > q.commitIndex && TermAt(q, candidate) == a.leaderCommitTerm then q.(commitIndex := candidate) else q
    else
      var logs := Splice(q.logs, q.lastIncludedIndex, a.prevLogIndex + 1, a.entries);
      var s := if logs == q.logs then q else Persist(q.(logs := logs));
      s.(commitIndex := Max(s.commitIndex, Min(a.leaderCommit, a.prevLogIndex + |a.entries|)))
  }

  lemma HandleIs(p: Peer, a: AppendArgs)
    requires |p.logs| > 0
    ensures var q := if a.term > p.currentTerm then StepDown(p, a.term)
                     else if a.term == p.currentTerm then p.(role := Follower) else p;
            HandleAppend(p, a) ==
            if a.term < q.currentTerm || !PrevMatches(q, a) then (q, AppendReply(p.currentTerm, false))
            else (Taken(q, a), AppendReply(p.currentTerm, true))
  {
  }

  lemma BatchIs(p: Peer)
    requires |p.logs| > 0
    ensures |Batch(p)| == if BatchStart(p) <= BatchEnd(p) then BatchEnd(p) - BatchStart(p) + 1 else 0
    ensures BatchEnd(p) < p.lastIncludedIndex + |p.logs| && p.lastIncludedIndex < BatchStart(p)
    ensures forall k :: 0 <= k < |Batch(p)| ==> Batch(p)[k] == MsgAt(p, BatchStart(p) + k)
  {
  }


  class Raft {
    const me: nat
    const peers: nat
    const persister: Persister
    var role: Role
    var currentTerm: nat
    var votedFor: int
    var logs: seq<Entry>
    var lastIncludedIndex: nat
    var lastIncludedTerm: nat
    var commitIndex: nat
    var lastApplied: nat
    var nextIndex: seq<nat>
    var matchIndex: seq<nat>
    var applying: bool
    var snapshotInFlight: bool

    /** The peer value this object stands for. */
    function State(): Peer
      reads this, persister
    {
      Peer(role, currentTerm, votedFor, logs, lastIncludedIndex, lastIncludedTerm, commitIndex, lastApplied,
           nextIndex, matchIndex, applying, snapshotInFlight, persister.Contents())
    }

    predicate Valid()
      reads this
    {
      |logs| > 0 && |nextIndex| == |matchIndex| == peers
    }

    /** Make: fresh volatile state, then readPersist. */
    constructor Make(peers: nat, me: nat, persister: Persister)
      ensures this.me == me && this.peers == peers && this.persister == persister
      ensures State() == Boot(persister.Contents(), peers)
      ensures Valid()
    {
      this.me, this.peers, this.persister := me, peers, persister;
      role, currentTerm, votedFor := Follower, 0, NOBODY;
      logs, lastIncludedIndex, lastIncludedTerm := [PLACEHOLDER], 0, 0;
      commitIndex, lastApplied := 0, 0;
      nextIndex, matchIndex := seq(peers, _ => 0), seq(peers, _ => 0);
      applying, snapshotInFlight := false, false;
      new;
      ReadPersist();
    }

    method ReadPersist()
      requires commitIndex == lastApplied == 0 && |logs| > 0
      modifies this
      ensures persister.raftState.None? ==> State() == old(State())
      ensures persister.raftState.Some? ==>
                var h := persister.raftState.value;
                State() == old(State()).(currentTerm := h.currentTerm, votedFor := h.votedFor,
                                         lastIncludedIndex := h.lastIncludedIndex, lastIncludedTerm := h.lastIncludedTerm,
                                         logs := if |h.logs| > 0 then h.logs else old(logs),
                                         commitIndex := h.lastIncludedIndex, lastApplied := h.lastIncludedIndex)
    {
      match persister.raftState {
        case None =>
        case Some(h) =>
          currentTerm := h.currentTerm;
          votedFor := h.votedFor;
          lastIncludedIndex := h.lastIncludedIndex;
          lastIncludedTerm := h.lastIncludedTerm;
          if |h.logs| > 0 {
            logs := h.logs;
          }
          if commitIndex < lastIncludedIndex {
            commitIndex := lastIncludedIndex;
          }
          if lastApplied < lastIncludedIndex {
            lastApplied := lastIncludedIndex;
          }
      }
    }

    method SaveState()
      modifies persister
      ensures State() == Persist(old(State()))
    {
      persister.SaveRaftState(HardState(currentTerm, votedFor, lastIncludedIndex, lastIncludedTerm, logs));
    }

    // ----- Elections -----------------------------------------------------------------

    method BecomeFollower(term: nat)
      modifies this, persister
      ensures State() == StepDown(old(State()), term)
    {
      currentTerm := term;
      role := Follower;
      votedFor := NOBODY;
      SaveState();
    }

    method Election()
      modifies this, persister
      ensures State() == BeginElection(old(State()), me)
    {
      role := Candidate;
      currentTerm := currentTerm + 1;
      votedFor := me;
      SaveState();
    }

    method RequestVoteHandle(args: VoteArgs) returns (reply: VoteReply)
      modifies this, persister
      ensures (State(), reply) == HandleVote(old(State()), args)
    {
      reply := VoteReply(currentTerm, false);
      if args.term < currentTerm {
        return;
      }
      if args.term > currentTerm {
        BecomeFollower(args.term);
      }
      var lastLogIndex := LastIndex(State());
      var lastLogTerm := TermAt(State(), lastLogIndex);
      var upToDate := args.lastLogTerm > lastLogTerm || (args.lastLogTerm == lastLogTerm && args.lastLogIndex >= lastLogIndex);
      if (votedFor == NOBODY || votedFor == args.candidate) && upToDate {
        reply := reply.(granted := true);
        votedFor := args.candidate;
        SaveState();
      }
    }

    /** The winning branch of Election: every index is set up in a loop. */
    method BecomeLeader()
      requires Valid() && LastIndex(State()) >= 0
      modifies this
      ensures State() == Promote(old(State()), me, peers)
    {
      role := Leader;
      var last: nat := LastIndex(State());
      var i := 0;
      while i < peers
        invariant 0 <= i <= peers
        invariant |nextIndex| == |matchIndex| == peers
        invariant forall k :: 0 <= k < i ==> nextIndex[k] == last + 1 && matchIndex[k] == lastIncludedIndex
        invariant State() == old(State()).(role := Leader, nextIndex := nextIndex, matchIndex := matchIndex)
      {
        nextIndex := nextIndex[i := last + 1];
        matchIndex := matchIndex[i := lastIncludedIndex];
        i := i + 1;
      }
      if me < peers {
        matchIndex := matchIndex[me := last];
      }
      ghost var base := lastIncludedIndex;
      assert nextIndex == seq(peers, _ => last + 1);
      assert matchIndex == seq(peers, k => if k == me then last else base);
    }

    // ----- Replication ---------------------------------------------------------------

    /** The conflict scan of AppendEntriesHandler. */
    method Scan(start: nat, entries: seq<Entry>)
      requires Valid() && lastIncludedIndex < start <= lastIncludedIndex + |logs|
      modifies this, persister
      ensures var r := Splice(old(logs), old(lastIncludedIndex), start, entries);
              State() == if r == old(logs) then old(State()) else Persist(old(State()).(logs := r))
    {
      ghost var r := Splice(logs, lastIncludedIndex, start, entries);
      var i := 0;
      while i < |entries|
        invariant 0 <= i <= |entries| && start + i <= lastIncludedIndex + |logs|
        invariant State() == old(State())
        invariant r == Splice(logs, lastIncludedIndex, start + i, entries[i..])
      {
        var index := start + i;
        if index > LastIndex(State()) {
          logs := logs + entries[i..];
          SaveState();
          return;
        }
        if TermAt(State(), index) != entries[i].term {
          var cut := index - lastIncludedIndex;
          assert (logs[..cut] + entries[i..])[cut] != logs[cut];
          logs := logs[..cut] + entries[i..];
          SaveState();
          return;
        }
        assert entries[i..][1..] == entries[i + 1..];
        i := i + 1;
      }
    }

    /** The consistency check at prevLogIndex. */
    method CheckPrev(args: AppendArgs) returns (ok: bool)
      ensures ok == PrevMatches(State(), args)
    {
      if args.prevLogIndex < lastIncludedIndex {
        return false;
      }
      if args.prevLogIndex == lastIncludedIndex {
        return args.prevLogTerm == lastIncludedTerm;
      }
      var localPrev := args.prevLogIndex - lastIncludedIndex;
      if localPrev >= |logs| {
        return false;
      }
      return logs[localPrev].term == args.prevLogTerm;
    }

    method RaiseCommit(leaderCommit: nat, last: nat)
      modifies this
      ensures State() == old(State()).(commitIndex := Max(old(commitIndex), Min(leaderCommit, last)))
    {
      if leaderCommit > commitIndex {
        var candidate := Min(leaderCommit, last);
        if candidate > commitIndex {
          commitIndex := candidate;
        }
      }
    }

    /** A request without entries raises the commit index if the terms there agree. */
    method Heartbeat(args: AppendArgs)
      requires |logs| > 0
      modifies this
      ensures var was := old(State());
              var candidate := Min(args.leaderCommit, args.prevLogIndex);
              State() == if candidate > was.commitIndex && TermAt(was, candidate) == args.leaderCommitTerm
                         then was.(commitIndex := candidate) else was
    {
      if args.leaderCommit > commitIndex {
        var candidate := Min(args.leaderCommit, args.prevLogIndex);
        if candidate > commitIndex && TermAt(State(), candidate) == args.leaderCommitTerm {
          commitIndex := candidate;
        }
      }
    }

    method AppendEntriesHandler(args: AppendArgs) returns (reply: AppendReply)
      requires Valid()
      modifies this, persister
      ensures (State(), reply) == HandleAppend(old(State()), args)
    {
      reply := AppendReply(currentTerm, false);
      HandleIs(State(), args);
      if args.term > currentTerm {
        BecomeFollower(args.term);
      } else if args.term == currentTerm {
        role := Follower;
      }
      if args.term < currentTerm {
        return;
      }
      var ok := CheckPrev(args);
      if !ok {
        return;
      }
      TakeEntries(args);
      reply := reply.(success := true);
    }

    method TakeEntries(args: AppendArgs)
      requires Valid() && PrevMatches(State(), args)
      modifies this, persister
      ensures State() == Taken(old(State()), args)
    {
      if args.entries == [] {
        Heartbeat(args);
      } else {
        Scan(args.prevLogIndex + 1, args.entries);
        RaiseCommit(args.leaderCommit, args.prevLogIndex + |args.entries|);
      }
    }

    /** How many servers hold position N, this one included. */
    method CountReplicas(N: nat) returns (count: nat)
      requires Valid()
      ensures count == |Replicas(State(), me, N)| + 1
    {
      count := 1;
      var i := 0;
      ghost var seen: set<nat> := {};
      while i < peers
        invariant 0 <= i <= peers
        invariant seen == set q | 0 <= q < i && q != me && matchIndex[q] >= N
        invariant count == |seen| + 1
      {
        if i != me && matchIndex[i] >= N {
          seen := seen + {i};
          count := count + 1;
        }
        i := i + 1;
      }
      assert seen == Replicas(State(), me, N);
    }

    method AdvanceCommitIndex()
      requires Valid()
      modifies this
      ensures State() == AdvanceCommit(old(State()), me)
    {
      if role != Leader {
        return;
      }
      var N := LastIndex(State());
      while N > commitIndex
        invariant State() == old(State())
        invariant HighestCommit(State(), me, LastIndex(State())) == HighestCommit(State(), me, N)
      {
        if TermAt(State(), N) == currentTerm {
          var count := CountReplicas(N);
          if count > peers / 2 {
            commitIndex := N;
            return;
          }
        }
        N := N - 1;
      }
    }

    /** replicateToPeer after an AppendEntries call returned. */
    method OnAppendEntriesReply(server: nat, args: AppendArgs, reply: AppendReply)
      requires Valid() && server < peers
      modifies this, persister
      ensures State() == OnAppendReply(old(State()), me, server, args, reply)
    {
      if reply.term > currentTerm {
        BecomeFollower(reply.term);
        return;
      }
      if role != Leader || args.term != currentTerm {
        return;
      }
      if reply.success {
        var matched := args.prevLogIndex + |args.entries|;
        if matched > matchIndex[server] {
          matchIndex := matchIndex[server := matched];
        }
        if nextIndex[server] < matched + 1 {
          nextIndex := nextIndex[server := matched + 1];
        }
        assert State() == NoteMatch(old(State()), server, matched);
        AdvanceCommitIndex();
        return;
      }
      if nextIndex[server] > lastIncludedIndex {
        nextIndex := nextIndex[server := nextIndex[server] - 1];
      }
    }

    method Start(command: Command) returns (index: int, term: nat, isLeader: bool)
      requires Valid()
      modifies this, persister
      ensures State() == StartCommand(old(State()), command)
      ensures isLeader == old(role).Leader? && term == currentTerm == old(currentTerm)
      ensures index == if isLeader then old(LastIndex(State())) + 1 else -1
    {
      isLeader, term, index := role == Leader, currentTerm, -1;
      if isLeader {
        logs := logs + [Entry(command, currentTerm)];
        SaveState();
        index := LastIndex(State());
      }
    }

    // ----- Snapshots -----------------------------------------------------------------

    /** InstallSnapshot up to the point where the snapshot goes to the service. */
    method InstallSnapshot(args: SnapshotArgs) returns (replyTerm: nat, offer: bool)
      modifies this, persister
      ensures (State(), replyTerm, offer) == HandleSnapshot(old(State()), args)
    {
      replyTerm, offer := currentTerm, false;
      if args.term < currentTerm {
        return;
      }
      if args.term > currentTerm {
        BecomeFollower(args.term);
      }
      if args.lastIncludedIndex <= lastIncludedIndex {
        return;
      }
      snapshotInFlight := true;
      offer := true;
    }

    method MoveBase(index: nat, term: nat, suffix: seq<Entry>, snapshot: seq<Entry>)
      modifies this, persister
      ensures State() == Rebase(old(State()), index, term, suffix, snapshot)
    {
      logs := [Entry(NONE_COMMAND, term)] + suffix;
      lastIncludedIndex := index;
      lastIncludedTerm := term;
      if commitIndex < lastIncludedIndex {
        commitIndex := lastIncludedIndex;
      }
      if lastApplied < lastIncludedIndex {
        lastApplied := lastIncludedIndex;
      }
      persister.SaveStateAndSnapshot(
        HardState(currentTerm, votedFor, lastIncludedIndex, lastIncludedTerm, logs), snapshot);
    }

    method CondInstallSnapshot(term: nat, index: nat, snapshot: seq<Entry>) returns (ok: bool)
      modifies this, persister
      ensures (State(), ok) == CondInstall(old(State()), term, index, snapshot)
    {
      if index <= lastIncludedIndex {
        return false;
      }
      var local := index - lastIncludedIndex;
      var suffix := [];
      if local < |logs| && logs[local].term == term && local + 1 < |logs| {
        suffix := logs[local + 1..];
      }
      assert local + 1 == |logs| ==> logs[local + 1..] == [];
      MoveBase(index, term, suffix, snapshot);
      return true;
    }

    method Snapshot(index: nat, snapshot: seq<Entry>)
      modifies this, persister
      ensures State() == TakeSnapshot(old(State()), index, snapshot)
    {
      if index <= lastIncludedIndex || index > commitIndex {
        return;
      }
      var local := index - lastIncludedIndex;
      if local >= |logs| {
        return;
      }
      MoveBase(index, logs[local].term, logs[local + 1..], snapshot);
    }

    // ----- Application ---------------------------------------------------------------

    /** One round of applyCommittedEntries up to the point where the lock is released. */
    method CollectBatch() returns (msgs: seq<ApplyMsg>, lastSent: int)
      requires Valid()
      ensures msgs == Batch(State())
      ensures lastSent == BatchStart(State()) - 1 + |msgs|
    {
      ghost var p := State();
      BatchIs(p);
      var start := lastApplied + 1;
      if start <= lastIncludedIndex {
        start := lastIncludedIndex + 1;
      }
      var end := if commitIndex > LastIndex(State()) then LastIndex(State()) else commitIndex;
      assert start == BatchStart(p) && end == BatchEnd(p);
      msgs, lastSent := [], start - 1;
      var i := start;
      while i <= end
        invariant start <= i && |msgs| == i - start <= |Batch(p)| && lastSent == i - 1
        invariant forall k :: 0 <= k < |msgs| ==> msgs[k] == MsgAt(p, start + k)
      {
        var entry := logs[i - lastIncludedIndex];
        msgs := msgs + [ApplyMsg(i, entry.command, entry.term)];
        lastSent := i;
        i := i + 1;
      }
    }

    /** The lock is taken again after a batch was sent. */
    method FinishApply(lastSent: nat)
      modifies this
      ensures State() == FinishBatch(old(State()), lastSent)
    {
      if !snapshotInFlight && lastApplied < lastSent {
        lastApplied := lastSent;
      }
      applying := false;
    }
  }
}
