/**
 What has happened in a cluster so far: which peer led each term and with what log, which
 positions were acknowledged in which term, which votes were granted on what logs, and
 which positions a leader counted to a majority.  None of it is read by a peer; it is
 what the safety argument of sections 5.2 to 5.4 of the extended Raft paper is about.

 The central fact is `LeaderCompleteness`, proved here from the history alone, by
 induction on the term of the later leader.
 */
module RaftHistory {
  import opened RaftPeer

  type Log = seq<Entry>

  /** The leader of one term: the log it was elected with, its log now, and its voters. */
  datatype LeaderRec = LeaderRec(who: nat, elected: Log, log: Log, quorum: set<nat>)

  type Leaders = map<nat, LeaderRec>

  /** `peer` told the leader of `term` that it holds the leader's log up to `upto`. */
  datatype Ack = Ack(peer: nat, term: nat, upto: nat)

  /** `voter` voted for `candidate` in `term`; the two logs as they were when the vote was
      granted and when the request was prepared. */
  datatype Grant = Grant(term: nat, voter: nat, candidate: nat, voterLog: Log, candidateLog: Log)

  /** The leader of `term` counted position `index` of its own term to a majority. */
  datatype Commit = Commit(term: nat, index: nat, quorum: set<nat>)

  datatype History = History(leaders: Leaders, acks: set<Ack>, grants: set<Grant>, commits: set<Commit>)

  // ----- Logs ------------------------------------------------------------------------

  predicate Has(L: Log, T: nat, i: nat) {
    i < |L| && L[i].term == T
  }

  predicate TermsBelow(L: Log, b: int) {
    forall k :: 0 <= k < |L| ==> L[k].term <= b
  }

  /** The log up to k is the log of the leader that wrote its entry k. */
  predicate Linked(L: Log, k: nat, ls: Leaders)
    requires k < |L|
  {
    var t := L[k].term;
    t >= 1 && t in ls && k < |ls[t].log| && L[..k + 1] == ls[t].log[..k + 1]
  }

  predicate Chain(L: Log, ls: Leaders) {
    && |L| > 0
    && L[0] == PLACEHOLDER
    && forall k :: 1 <= k < |L| ==> Linked(L, k, ls)
  }

  predicate LeaderLog(T: nat, ls: Leaders)
    requires T in ls
  {
    && T >= 1
    && Chain(ls[T].log, ls)
    && TermsBelow(ls[T].log, T)
    && 0 < |ls[T].elected|
    && ls[T].elected <= ls[T].log
    && TermsBelow(ls[T].elected, T - 1)
    && forall k :: |ls[T].elected| <= k < |ls[T].log| ==> ls[T].log[k].term == T
  }

  predicate LeaderLogs(ls: Leaders) {
    forall T {:trigger LeaderLog(T, ls)} :: T in ls ==> LeaderLog(T, ls)
  }

  /** Log matching, section 5.3 of the extended Raft paper. */
  lemma Matching(A: Log, B: Log, k: nat, ls: Leaders)
    requires Chain(A, ls) && Chain(B, ls)
    requires k < |A| && k < |B| && A[k].term == B[k].term
    ensures A[..k + 1] == B[..k + 1]
  {
    if k > 0 {
      assert Linked(A, k, ls) && Linked(B, k, ls);
    }
  }

  lemma MatchingAt(A: Log, B: Log, k: nat, i: nat, ls: Leaders)
    requires Chain(A, ls) && Chain(B, ls)
    requires i <= k < |A| && k < |B| && A[k].term == B[k].term
    ensures A[i] == B[i]
  {
    Matching(A, B, k, ls);
    assert A[i] == A[..k + 1][i] && B[i] == B[..k + 1][i];
  }

  /** A log that holds entry i of the leader of T holds that leader's log up to i. */
  lemma HasPrefix(L: Log, T: nat, i: nat, k: nat, ls: Leaders)
    requires Chain(L, ls) && T in ls && LeaderLog(T, ls)
    requires Has(L, T, i) && T >= 1 && k <= i
    ensures i < |ls[T].log| && L[k] == ls[T].log[k]
  {
    assert i > 0;
    assert Linked(L, i, ls);
    assert L[k] == L[..i + 1][k] && ls[T].log[k] == ls[T].log[..i + 1][k];
  }

  lemma TermsRise(L: Log, i: nat, j: nat, ls: Leaders)
    requires Chain(L, ls) && LeaderLogs(ls)
    requires i <= j < |L|
    ensures L[i].term <= L[j].term
  {
    if j > 0 {
      var t := L[j].term;
      assert Linked(L, j, ls);
      assert LeaderLog(t, ls);
      HasPrefix(L, t, j, i, ls);
    }
  }

  lemma ChainPrefix(A: Log, B: Log, ls: Leaders)
    requires Chain(B, ls) && A <= B && |A| > 0
    ensures Chain(A, ls)
  {
    forall k | 1 <= k < |A| ensures Linked(A, k, ls) {
      assert Linked(B, k, ls);
      assert A[..k + 1] == B[..k + 1];
    }
  }

  // ----- Keeping entries -------------------------------------------------------------

  predicate Lacks(ls: Leaders, W: nat, T: nat, i: nat) {
    W in ls && !Has(ls[W].log, T, i)
  }

  /** L holds entry i of term T, unless a later leader up to term b does not hold it. */
  predicate Holds(L: Log, T: nat, i: nat, b: int, ls: Leaders) {
    Has(L, T, i) || exists W: nat :: T < W <= b && Lacks(ls, W, T, i)
  }

  /** What C holds L holds, in the sense of `Holds`. */
  ghost predicate Keeps(C: Log, L: Log, b: int, ls: Leaders) {
    forall T: nat, i: nat :: T >= 1 && Has(C, T, i) ==> Holds(L, T, i, b, ls)
  }

  lemma KeepsPrefix(C: Log, L: Log, b: int, ls: Leaders)
    requires C <= L
    ensures Keeps(C, L, b, ls)
  {
    forall T: nat, i: nat | T >= 1 && Has(C, T, i) ensures Holds(L, T, i, b, ls) {
      assert Has(L, T, i);
    }
  }

  lemma HoldsKept(C: Log, L: Log, T: nat, i: nat, b: int, b': int, ls: Leaders)
    requires T >= 1 && Holds(C, T, i, b, ls) && Keeps(C, L, b', ls) && b <= b'
    ensures Holds(L, T, i, b', ls)
  {
  }

  lemma KeepsTrans(A: Log, B: Log, C: Log, b: int, b': int, ls: Leaders)
    requires Keeps(A, B, b, ls) && Keeps(B, C, b', ls) && b <= b'
    ensures Keeps(A, C, b', ls)
  {
    forall T: nat, i: nat | T >= 1 && Has(A, T, i) ensures Holds(C, T, i, b', ls) {
      HoldsKept(B, C, T, i, b, b', ls);
    }
  }

  /** A conflict scan with entries of G leaves the log as it is, or makes it G up to e: by
      extending it, or by cutting it at a disagreement. */
  lemma SpliceShape(F: Log, G: Log, start: nat, e: nat, ls: Leaders) returns (cut: nat)
    requires Chain(F, ls) && Chain(G, ls)
    requires 0 < start <= |F| && start <= e <= |G|
    requires F[..start] == G[..start]
    ensures var r := Splice(F, 0, start, G[start..e]);
            || (r == F && e <= |F| && F[..e] == G[..e])
            || (r == G[..e] && (F <= r || (0 < cut < |F| && cut < e && F[..cut] == G[..cut] && F[cut].term != G[cut].term)))
    decreases e - start
  {
    cut := start;
    if start < e {
      if start == |F| {
        assert F + G[start..e] == G[..e];
      } else if F[start].term != G[start].term {
        assert F[..start] + G[start..e] == G[..e];
      } else {
        Matching(F, G, start, ls);
        assert G[start..e][1..] == G[start + 1..e];
        cut := SpliceShape(F, G, start + 1, e, ls);
      }
    }
  }

  /** Such a scan keeps what the leader of M does not refute. */
  lemma SpliceKeeps(F: Log, start: nat, e: nat, M: nat, ls: Leaders)
    requires LeaderLogs(ls) && M in ls && Chain(F, ls) && TermsBelow(F, M)
    requires 0 < start <= |F| && start <= e <= |ls[M].log|
    requires F[..start] == ls[M].log[..start]
    ensures var r := Splice(F, 0, start, ls[M].log[start..e]);
            && e <= |r| && r[..e] == ls[M].log[..e]
            && (r == F || r == ls[M].log[..e])
            && Keeps(F, r, M, ls)
  {
    assert LeaderLog(M, ls);
    var cut := SpliceShape(F, ls[M].log, start, e, ls);
    var r := Splice(F, 0, start, ls[M].log[start..e]);
    if F <= r {
      KeepsPrefix(F, r, M, ls);
    } else {
      forall T: nat, i: nat | T >= 1 && Has(F, T, i) ensures Holds(r, T, i, M, ls) {
        CutRefuted(F, cut, T, i, M, ls);
      }
    }
  }

  /** A prefix shared with the leader survives the scan. */
  lemma SpliceSpares(F: Log, start: nat, e: nat, M: nat, k: nat, ls: Leaders)
    requires LeaderLogs(ls) && M in ls && Chain(F, ls)
    requires 0 < start <= |F| && start <= e <= |ls[M].log|
    requires F[..start] == ls[M].log[..start]
    requires k <= |F| && F[..k] <= ls[M].log
    ensures F[..k] <= Splice(F, 0, start, ls[M].log[start..e])
  {
    assert LeaderLog(M, ls);
    var cut := SpliceShape(F, ls[M].log, start, e, ls);
    var G, r := ls[M].log, Splice(F, 0, start, ls[M].log[start..e]);
    if r != F && !(F <= r) {
      assert forall i :: 0 <= i < k ==> F[i] == F[..k][i] == G[i];
      assert F[..k] == G[..k];
    }
  }

  lemma CutRefuted(F: Log, cut: nat, T: nat, i: nat, M: nat, ls: Leaders)
    requires LeaderLogs(ls) && M in ls && Chain(F, ls) && TermsBelow(F, M)
    requires 0 < cut < |F| && cut < |ls[M].log| && F[..cut] == ls[M].log[..cut]
    requires F[cut].term != ls[M].log[cut].term
    requires T >= 1 && Has(F, T, i)
    ensures (i < cut && Has(ls[M].log, T, i)) || (cut <= i && T < M && Lacks(ls, M, T, i))
  {
    var G := ls[M].log;
    assert LeaderLog(M, ls);
    if i < cut {
      assert F[i] == F[..cut][i] == G[..cut][i] == G[i];
    } else if Has(G, T, i) {
      MatchingAt(F, G, i, cut, ls);
      assert false;
    } else if T == M {
      HasPrefix(F, M, i, i, ls);
      assert false;
    }
  }

  // ----- Growth of the history -------------------------------------------------------

  predicate LeaderGrows(T: nat, ls: Leaders, ls': Leaders)
    requires T in ls
  {
    && T in ls'
    && ls'[T].who == ls[T].who && ls'[T].elected == ls[T].elected && ls'[T].quorum == ls[T].quorum
    && ls[T].log <= ls'[T].log
    && forall k :: |ls[T].log| <= k < |ls'[T].log| ==> ls'[T].log[k].term == T
  }

  predicate Grows(ls: Leaders, ls': Leaders) {
    forall T {:trigger LeaderGrows(T, ls, ls')} :: T in ls ==> LeaderGrows(T, ls, ls')
  }

  lemma ChainGrows(L: Log, ls: Leaders, ls': Leaders)
    requires Chain(L, ls) && Grows(ls, ls')
    ensures Chain(L, ls')
  {
    forall k | 1 <= k < |L| ensures Linked(L, k, ls') {
      assert Linked(L, k, ls);
      var t := L[k].term;
      assert LeaderGrows(t, ls, ls');
      assert ls[t].log[..k + 1] == ls'[t].log[..k + 1];
    }
  }

  lemma HoldsGrows(L: Log, T: nat, i: nat, b: int, ls: Leaders, ls': Leaders)
    requires Holds(L, T, i, b, ls) && Grows(ls, ls')
    ensures Holds(L, T, i, b, ls')
  {
    if !Has(L, T, i) {
      var W: nat :| T < W <= b && Lacks(ls, W, T, i);
      assert LeaderGrows(W, ls, ls');
      assert Lacks(ls', W, T, i);
    }
  }

  lemma KeepsGrows(C: Log, L: Log, b: int, ls: Leaders, ls': Leaders)
    requires Keeps(C, L, b, ls) && Grows(ls, ls')
    ensures Keeps(C, L, b, ls')
  {
    forall T: nat, i: nat | T >= 1 && Has(C, T, i) ensures Holds(L, T, i, b, ls') {
      HoldsGrows(L, T, i, b, ls, ls');
    }
  }

  // ----- Votes, acknowledgements and commits -----------------------------------------

  function Last(L: Log): Entry
    requires |L| > 0
  {
    L[|L| - 1]
  }

  /** The vote rule: C is at least as up to date as V. */
  predicate AtLeast(C: Log, V: Log)
    requires |C| > 0 && |V| > 0
  {
    Last(C).term > Last(V).term || (Last(C).term == Last(V).term && |C| >= |V|)
  }

  predicate AckOK(a: Ack, ls: Leaders) {
    a.term in ls && a.upto < |ls[a.term].log|
  }

  predicate AcksKnown(h: History) {
    forall a {:trigger AckOK(a, h.leaders)} :: a in h.acks ==> AckOK(a, h.leaders)
  }

  /** L holds every own-term entry that the ack covers. */
  ghost predicate AckHeld(a: Ack, L: Log, b: int, ls: Leaders)
    requires AckOK(a, ls)
  {
    forall i: nat :: i <= a.upto && Has(ls[a.term].log, a.term, i) ==> Holds(L, a.term, i, b, ls)
  }

  /** L holds everything that v acknowledged in terms before U. */
  ghost predicate AcksHeld(h: History, v: nat, U: nat, L: Log, b: int)
    requires AcksKnown(h)
  {
    forall a {:trigger AckHeld(a, L, b, h.leaders)} ::
      a in h.acks && a.peer == v && a.term < U ==> AckOK(a, h.leaders) && AckHeld(a, L, b, h.leaders)
  }

  ghost predicate WonBy(h: History, U: nat, g: Grant)
    requires U in h.leaders
    requires AcksKnown(h)
  {
    && g in h.grants && g.term == U && g.candidate == h.leaders[U].who
    && Chain(g.voterLog, h.leaders) && Chain(g.candidateLog, h.leaders)
    && AtLeast(g.candidateLog, g.voterLog)
    && TermsBelow(g.candidateLog, U - 1)
    && Keeps(g.candidateLog, h.leaders[U].elected, U - 1, h.leaders)
    && AcksHeld(h, g.voter, U, g.voterLog, U - 1)
  }

  predicate IsQuorum(Q: set<nat>, n: nat) {
    (forall v :: v in Q ==> v < n) && |Q| > n / 2
  }

  ghost predicate LeaderOK(h: History, U: nat, n: nat)
    requires U in h.leaders
    requires AcksKnown(h)
  {
    && IsQuorum(h.leaders[U].quorum, n)
    && forall v :: v in h.leaders[U].quorum ==> exists g: Grant :: g.voter == v && WonBy(h, U, g)
  }

  predicate Backs(a: Ack, c: Commit, q: nat) {
    a.peer == q && a.term == c.term && a.upto >= c.index
  }

  predicate CommitOK(h: History, c: Commit, n: nat) {
    && c.term in h.leaders
    && c.term >= 1
    && Has(h.leaders[c.term].log, c.term, c.index)
    && IsQuorum(c.quorum, n)
    && forall q :: q in c.quorum ==> exists a :: a in h.acks && Backs(a, c, q)
  }

  ghost predicate HistoryOK(h: History, n: nat) {
    && LeaderLogs(h.leaders)
    && AcksKnown(h)
    && (forall U {:trigger LeaderOK(h, U, n)} :: U in h.leaders ==> LeaderOK(h, U, n))
    && (forall c {:trigger CommitOK(h, c, n)} :: c in h.commits ==> CommitOK(h, c, n))
  }

  lemma Below(n: nat, S: set<nat>)
    requires forall v :: v in S ==> v < n
    ensures |S| <= n
  {
    if n == 0 {
      assert S == {};
    } else {
      Below(n - 1, S - {n - 1});
      assert S <= (S - {n - 1}) + {n - 1};
      assert n - 1 in S ==> |S| == |S - {n - 1}| + 1;
      assert n - 1 !in S ==> S == S - {n - 1};
    }
  }

  lemma QuorumsMeet(A: set<nat>, B: set<nat>, n: nat) returns (v: nat)
    requires IsQuorum(A, n) && IsQuorum(B, n)
    ensures v in A && v in B
  {
    if A * B == {} {
      assert |A + B| == |A| + |B|;
      Below(n, A + B);
      assert false;
    }
    v :| v in A * B;
  }

  /** A voter's log holding the committed entry forces the candidate's log to hold it. */
  lemma UpToDateHas(C: Log, V: Log, T: nat, i: nat, ls: Leaders)
    requires LeaderLogs(ls) && T in ls && Has(ls[T].log, T, i) && T >= 1
    requires Chain(C, ls) && Chain(V, ls) && AtLeast(C, V) && Has(V, T, i)
    requires Last(C).term > T ==> Last(C).term in ls && Has(ls[Last(C).term].log, T, i)
    ensures Has(C, T, i)
  {
    var k := |C| - 1;
    var t := C[k].term;
    TermsRise(V, i, |V| - 1, ls);
    assert t >= T;
    assert k > 0 && Linked(C, k, ls);
    assert LeaderLog(t, ls);
    if t == T {
      TermsRise(V, i, |V| - 1, ls);
      assert Last(V).term == T;
      HasPrefix(C, T, k, i, ls);
    } else {
      if k < i {
        TermsRise(ls[t].log, k, i, ls);
        HasPrefix(C, t, k, k, ls);
        assert false;
      }
      HasPrefix(C, t, k, i, ls);
    }
  }

  /** Leader completeness, section 5.4 of the extended Raft paper: the leader of every
      later term holds every entry counted to a majority. */
  lemma {:induction false} LeaderCompleteness(h: History, c: Commit, U: nat, n: nat)
    requires HistoryOK(h, n) && c in h.commits && U in h.leaders && c.term < U
    ensures Has(h.leaders[U].log, c.term, c.index)
    decreases U
  {
    var T, i, ls := c.term, c.index, h.leaders;
    assert CommitOK(h, c, n) && LeaderOK(h, U, n) && LeaderLog(U, ls);
    var v := QuorumsMeet(c.quorum, ls[U].quorum, n);
    var a :| a in h.acks && Backs(a, c, v);
    var g: Grant :| g.voter == v && WonBy(h, U, g);
    assert AckHeld(a, g.voterLog, U - 1, ls);
    assert Holds(g.voterLog, T, i, U - 1, ls);
    NotRefuted(h, c, g.voterLog, U - 1, n);
    var t := Last(g.candidateLog).term;
    if t > T {
      assert Linked(g.candidateLog, |g.candidateLog| - 1, ls);
      LeaderCompleteness(h, c, t, n);
    }
    UpToDateHas(g.candidateLog, g.voterLog, T, i, ls);
    assert Holds(ls[U].elected, T, i, U - 1, ls);
    NotRefuted(h, c, ls[U].elected, U - 1, n);
  }

  /** No later leader refutes a committed entry, so holding it is having it. */
  lemma {:induction false} NotRefuted(h: History, c: Commit, L: Log, b: int, n: nat)
    requires HistoryOK(h, n) && c in h.commits && Holds(L, c.term, c.index, b, h.leaders)
    ensures Has(L, c.term, c.index)
    decreases b + 1, 0
  {
    if !Has(L, c.term, c.index) {
      var W: nat :| c.term < W <= b && Lacks(h.leaders, W, c.term, c.index);
      LeaderCompleteness(h, c, W, n);
      assert false;
    }
  }

  // ----- Committed prefixes ----------------------------------------------------------

  predicate Covers(c: Commit, S: Log, ls: Leaders) {
    c.term in ls && |S| <= c.index + 1 && S <= ls[c.term].log
  }

  /** S is part of what was committed in a term up to b. */
  ghost predicate Committed(S: Log, b: int, h: History) {
    S <= [PLACEHOLDER] || exists c :: c in h.commits && c.term <= b && Covers(c, S, h.leaders)
  }

  lemma CommittedPrefix(R: Log, S: Log, b: int, h: History)
    requires Committed(S, b, h) && R <= S
    ensures Committed(R, b, h)
  {
    if !(S <= [PLACEHOLDER]) {
      var c :| c in h.commits && c.term <= b && Covers(c, S, h.leaders);
      assert Covers(c, R, h.leaders);
    }
  }

  lemma CommitInLeader(h: History, c: Commit, U: nat, n: nat)
    requires HistoryOK(h, n) && c in h.commits && U in h.leaders && c.term <= U
    ensures c.term in h.leaders && c.index < |h.leaders[c.term].log|
    ensures h.leaders[c.term].log[..c.index + 1] <= h.leaders[U].log
  {
    var ls := h.leaders;
    assert CommitOK(h, c, n) && LeaderLog(U, ls) && LeaderLog(c.term, ls);
    if c.term < U {
      LeaderCompleteness(h, c, U, n);
      Matching(ls[c.term].log, ls[U].log, c.index, ls);
    }
  }

  lemma CommittedInLeader(S: Log, b: int, U: nat, h: History, n: nat)
    requires HistoryOK(h, n) && Committed(S, b, h) && b <= U && U in h.leaders
    ensures S <= h.leaders[U].log
  {
    assert LeaderLog(U, h.leaders);
    if !(S <= [PLACEHOLDER]) {
      var c :| c in h.commits && c.term <= b && Covers(c, S, h.leaders);
      CommitInLeader(h, c, U, n);
      assert S <= h.leaders[c.term].log[..c.index + 1];
    }
  }

  /** Of two committed prefixes one extends the other. */
  lemma CommittedComparable(R: Log, S: Log, b: int, h: History, n: nat)
    requires HistoryOK(h, n) && Committed(R, b, h) && Committed(S, b, h)
    ensures R <= S || S <= R
  {
    if !(R <= [PLACEHOLDER]) && !(S <= [PLACEHOLDER]) {
      var c :| c in h.commits && c.term <= b && Covers(c, R, h.leaders);
      var d :| d in h.commits && d.term <= b && Covers(d, S, h.leaders);
      var U := if c.term <= d.term then d.term else c.term;
      assert CommitOK(h, c, n) && CommitOK(h, d, n);
      CommittedInLeader(R, c.term, U, h, n);
      CommittedInLeader(S, d.term, U, h, n);
    } else if !(R <= [PLACEHOLDER]) {
      CommittedFirst(R, b, h, n);
    } else if !(S <= [PLACEHOLDER]) {
      CommittedFirst(S, b, h, n);
    }
  }

  lemma CommittedFirst(S: Log, b: int, h: History, n: nat)
    requires HistoryOK(h, n) && Committed(S, b, h)
    ensures S <= [PLACEHOLDER] || [PLACEHOLDER] <= S
    ensures |S| > 0 ==> Chain(S, h.leaders)
  {
    if !(S <= [PLACEHOLDER]) {
      var c :| c in h.commits && c.term <= b && Covers(c, S, h.leaders);
      assert LeaderLog(c.term, h.leaders);
      ChainPrefix(S, h.leaders[c.term].log, h.leaders);
    }
  }

  /** Replacing a log by a committed prefix that it does not contain loses nothing that is
      not refuted by a leader up to b. */
  lemma InstallKeeps(L: Log, S: Log, b: int, h: History, n: nat)
    requires HistoryOK(h, n) && Chain(L, h.leaders) && Committed(S, b, h) && |S| >= 2
    requires !Has(L, Last(S).term, |S| - 1)
    ensures Keeps(L, S, b, h.leaders)
  {
    var c :| c in h.commits && c.term <= b && Covers(c, S, h.leaders);
    forall T: nat, i: nat | T >= 1 && Has(L, T, i) ensures Holds(S, T, i, b, h.leaders) {
      if !Has(S, T, i) {
        InstallRefutes(L, S, T, i, c, h, n);
      }
    }
  }

  lemma InstallRefutes(L: Log, S: Log, T: nat, i: nat, c: Commit, h: History, n: nat)
    requires HistoryOK(h, n) && Chain(L, h.leaders) && c in h.commits && Covers(c, S, h.leaders) && |S| >= 2
    requires !Has(L, Last(S).term, |S| - 1)
    requires T >= 1 && Has(L, T, i) && !Has(S, T, i)
    ensures T < c.term && Lacks(h.leaders, c.term, T, i)
  {
    var ls, k := h.leaders, |S| - 1;
    var G := ls[c.term].log;
    assert CommitOK(h, c, n) && LeaderLog(c.term, ls);
    assert i > 0 && Linked(L, i, ls);
    assert LeaderLog(T, ls);
    if Has(G, T, i) {
      if i >= k {
        MatchingAt(L, G, i, k, ls);
      }
      assert false;
    }
    if T == c.term {
      HasPrefix(L, T, i, i, ls);
      assert false;
    }
    if T > c.term {
      CommitInLeader(h, c, T, n);
      assert S <= ls[T].log;
      if i >= k {
        HasPrefix(L, T, i, k, ls);
      } else {
        HasPrefix(L, T, i, i, ls);
      }
      assert false;
    }
  }
}
