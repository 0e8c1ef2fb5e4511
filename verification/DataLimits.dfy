/** When a commit finds the store of the vote: the exact condition, and the runs behind it. */
module DataLimits {
  import opened Types
  import opened TxLog
  import opened Manager
  import opened Worker
  import opened Segments
  import opened System
  import opened DataRuns
  import opened Limits
  import Undo

  const CHANGED := Store(1, 0, "")

  /** Worker 0 listens at endpoint 1 in its current participation. */
  ghost predicate Listens(s: Sys, tid: nat) {
    && |s.workers| > 0 && tid != 0
    && Here(s, 0, 1) && s.parts[1].tid == tid
    && var k := s.workers[0]; k.up && k.active && k.ep == 1 && k.port == 1 && k.tid == tid
  }

  // One step

  /** The rest of the system is as before, and no datagram to a worker is gone. */
  ghost predicate Around(d: Data, d': Data) {
    && d'.voted == d.voted && d'.sys.parts == d.sys.parts
    && forall q :: q in d.sys.net && q.ToWorker? ==> q in d'.sys.net
  }

  lemma AfterObey(rules: Rules, d: Data, c: Command) returns (d': Data)
    requires Reached(rules, d) && Possible(rules, d, Obeys(0, c))
    ensures Reached(rules, d') && Around(d, d')
    ensures d'.sys.workers == d.sys.workers[0 := Obey(d.sys.workers[0], c).worker]
  {
    ReachedNext(rules, d, Obeys(0, c));
    d' := Next(rules, d, Obeys(0, c));
  }

  lemma AfterCrash(rules: Rules, d: Data, left: Store) returns (d': Data)
    requires Reached(rules, d) && Possible(rules, d, WorkerCrashes(0, left))
    ensures Reached(rules, d') && Around(d, d')
    ensures d'.sys.workers == d.sys.workers[0 := d.sys.workers[0].(up := false, store := left)]
  {
    ReachedNext(rules, d, WorkerCrashes(0, left));
    d' := Next(rules, d, WorkerCrashes(0, left));
  }

  lemma AfterRestart(rules: Rules, d: Data) returns (d': Data)
    requires Reached(rules, d) && Possible(rules, d, WorkerRestarts(0))
    ensures Reached(rules, d') && Around(d, d')
    ensures d'.sys.workers == d.sys.workers[0 := Restart(d.sys.workers[0])]
  {
    ReachedNext(rules, d, WorkerRestarts(0));
    d' := Next(rules, d, WorkerRestarts(0));
  }

  // The last steps

  ghost predicate AlwaysKeeps(rules: Rules) {
    forall d, step, w, e :: KeepsVote(rules, d, step, w, e)
  }

  /** COMMIT reaches a voter whose store is not that of its vote. */
  lemma Breaks(rules: Rules, d: Data, tid: nat)
    requires Reached(rules, d) && Listens(d.sys, tid) && LPrepared in Trace(d.sys, 1)
    requires ToWorker(1, Commit) in d.sys.net && 1 in d.voted && d.voted[1] != d.sys.workers[0].store
    ensures !AlwaysKeeps(rules)
  {
    var step := WorkerReceives(0, ToWorker(1, Commit), false);
    assert Possible(rules, d, step);
    var log := d.sys.workers[0].log;
    assert Next(rules, d, step).sys.workers[0].log == log + [Record(LCommit, tid)];
    assert !KeepsVote(rules, d, step, 0, 1);
  }

  /** Worker 0 has changed A and voted to commit. */
  ghost predicate Voter(d: Data, tid: nat) {
    && Listens(d.sys, tid) && LPrepared in Trace(d.sys, 1)
    && 1 in d.voted && d.voted[1] == CHANGED
    && var k := d.sys.workers[0];
       && k.uncertain && LastIs(k.log, LPrepared) && k.log[|k.log| - 1].tid == tid && k.store == CHANGED
       && Unwind(k.log, ZERO_STORE) == Unwind(k.log, CHANGED)
  }

  /** It changes A again before it is told. */
  lemma Changes(rules: Rules, d: Data, tid: nat)
    requires rules.lateUpdates && Reached(rules, d) && Voter(d, tid) && ToWorker(1, Commit) in d.sys.net
    ensures !AlwaysKeeps(rules)
  {
    var k := d.sys.workers[0];
    var d' := AfterObey(rules, d, NewA(2));
    SegAppend(k.log, Entry(LUpdate, tid, CHANGED));
    Breaks(rules, d', tid);
  }

  /** It starts to undo, crashes and comes back uncertain. */
  lemma StartsUndo(rules: Rules, d: Data, tid: nat)
    requires Reached(rules, d) && Voter(d, tid) && ToWorker(1, Commit) in d.sys.net
    requires ToWorker(1, Abort) in d.sys.net || rules.lateAborts
    ensures !AlwaysKeeps(rules)
  {
    MayUndo(rules, d, tid);
    var down := AfterCrash(rules, d, ZERO_STORE);
    var back := ComesBack(rules, down, tid);
    Resumes(d.sys, back.sys, tid);
    Breaks(rules, back, tid);
  }

  lemma MayUndo(rules: Rules, d: Data, tid: nat)
    requires Voter(d, tid) && (ToWorker(1, Abort) in d.sys.net || rules.lateAborts)
    ensures Possible(rules, d, WorkerCrashes(0, ZERO_STORE))
  {
  }

  lemma ComesBack(rules: Rules, d: Data, tid: nat) returns (d': Data)
    requires Reached(rules, d) && |d.sys.workers| > 0
    requires var k := d.sys.workers[0];
             !k.up && k.port == 1 && LastIs(k.log, LPrepared) && k.log[|k.log| - 1].tid == tid
    ensures Reached(rules, d') && Around(d, d') && |d'.sys.workers| > 0
    ensures var k, k' := d.sys.workers[0], d'.sys.workers[0];
            && k'.log == k.log && k'.store == k.store
            && k'.up && k'.active && k'.ep == 1 && k'.port == 1 && k'.tid == tid
  {
    d' := AfterRestart(rules, d);
  }

  lemma Resumes(s: Sys, s': Sys, tid: nat)
    requires Listens(s, tid) && s'.parts == s.parts && |s'.workers| > 0
    requires var k, k' := s.workers[0], s'.workers[0];
             k'.log == k.log && k'.up && k'.active && k'.ep == 1 && k'.port == 1 && k'.tid == tid
    ensures Listens(s', tid) && Trace(s', 1) == Trace(s, 1)
  {
  }

  // The vote

  /** Worker 0 has changed A and is asked to vote. */
  ghost predicate Ready(s: Sys, tid: nat) {
    && Listens(s, tid) && ToWorker(1, PrepareToCommit) in s.net
    && var k := s.workers[0];
       !k.uncertain && k.doCommit && LastIs(k.log, LUpdate) && k.store == CHANGED
  }

  lemma Votes(rules: Rules, s: Sys, tid: nat) returns (d: Data)
    requires Attained(rules, s) && Ready(s, tid)
    ensures Reached(rules, d) && Voter(d, tid) && d.sys.mgr == s.mgr && ToManager(1, Prepared, tid) in d.sys.net
    ensures forall q :: q in s.net && q != ToWorker(1, PrepareToCommit) ==> q in d.sys.net
  {
    var before :| Reached(rules, before) && before.sys == s;
    d := AfterVote(rules, before);
    NowVoter(s, d, tid);
  }

  lemma AfterVote(rules: Rules, d: Data) returns (d': Data)
    requires Reached(rules, d) && Running(d.sys, 0) && ToWorker(1, PrepareToCommit) in d.sys.net
    requires var k := d.sys.workers[0]; k.active && !k.uncertain && k.doCommit && k.ep == 1
    ensures var k := d.sys.workers[0];
            && Reached(rules, d') && d'.sys.mgr == d.sys.mgr && d'.sys.parts == d.sys.parts
            && d'.voted == d.voted[1 := k.store]
            && d'.sys.workers == d.sys.workers[0 := Append(k, Record(LPrepared, k.tid)).(uncertain := true)]
            && d'.sys.net == d.sys.net - {ToWorker(1, PrepareToCommit)} + {ToManager(1, Prepared, k.tid)}
  {
    var step, k := WorkerReceives(0, ToWorker(1, PrepareToCommit), false), d.sys.workers[0];
    assert React(k, PrepareToCommit) ==
           WReaction(Append(k, Record(LPrepared, k.tid)).(uncertain := true), [ToManager(1, Prepared, k.tid)], Some(true));
    ReachedNext(rules, d, step);
    d' := Next(rules, d, step);
  }

  lemma NowVoter(s: Sys, d: Data, tid: nat)
    requires Ready(s, tid) && d.sys.parts == s.parts && 1 in d.voted && d.voted[1] == CHANGED
    requires d.sys.workers == s.workers[0 := Append(s.workers[0], Record(LPrepared, tid)).(uncertain := true)]
    ensures Voter(d, tid)
  {
    var k, x := s.workers[0], Record(LPrepared, tid);
    SegAppend(k.log, x);
    Undo.UnwindAppend(k.log, x, ZERO_STORE);
    Undo.UnwindAppend(k.log, x, CHANGED);
  }

  lemma Handles(rules: Rules, d: Data, p: Packet, again: bool, tid: nat) returns (d': Data)
    requires Reached(rules, d) && Voter(d, tid) && Enabled(rules, d.sys, ManagerReceives(p, again))
    ensures var r := Handle(d.sys.mgr, p.ep, p.mtype, p.tid);
            && Reached(rules, d') && Voter(d', tid) && d'.sys.mgr == r.mgr
            && (forall q :: q in r.sends ==> q in d'.sys.net)
            && (forall q :: q in d.sys.net && (again || q != p) ==> q in d'.sys.net)
  {
    d' := AfterMessage(rules, d, p, again);
    StillVoter(d, d', tid);
  }

  lemma AfterMessage(rules: Rules, d: Data, p: Packet, again: bool) returns (d': Data)
    requires Reached(rules, d) && Enabled(rules, d.sys, ManagerReceives(p, again))
    ensures Reached(rules, d') && d'.voted == d.voted && d'.sys == ApplyManager(d.sys, p, again)
  {
    ReachedNext(rules, d, ManagerReceives(p, again));
    d' := Next(rules, d, ManagerReceives(p, again));
  }

  lemma StillVoter(d: Data, d': Data, tid: nat)
    requires Voter(d, tid) && d'.sys.workers == d.sys.workers && d'.sys.parts == d.sys.parts && d'.voted == d.voted
    ensures Voter(d', tid)
  {
  }

  // The runs

  /** A change of A, then the request to commit. */
  lemma Prepares(rules: Rules, s: Sys, log: Log, tid: nat, nodes: Nodes, count: nat) returns (s': Sys)
    requires Attained(rules, s) && s.mgr == Mgr(true, log, OneSlot(BeginState, tid, nodes, count))
    requires Listens(s, tid) && 1 in Members(nodes)
    requires var k := s.workers[0]; !k.uncertain && k.doCommit && LastIs(k.log, LBegin) && k.store == ZERO_STORE
    ensures Attained(rules, s') && Ready(s', tid)
    ensures s'.mgr == Mgr(true, log, OneSlot(PrepareState, tid, nodes, count))
    ensures |s'.workers| == |s.workers| && forall v :: 0 < v < |s.workers| ==> s'.workers[v] == s.workers[v]
    ensures forall e :: e in Members(nodes) ==> ToWorker(e, PrepareToCommit) in s'.net
    ensures forall q :: q in s.net && q.ToWorker? ==> q in s'.net
  {
    var k := s.workers[0];
    s' := Obeyed(rules, s, 0, NewA(1));
    SegAppend(k.log, Entry(LUpdate, tid, ZERO_STORE));
    s' := CommitAsked(rules, s', 0, log, 1, tid, BeginState, nodes, count);
  }

  /** The only member votes and is committed. */
  lemma Commits(rules: Rules, s: Sys, log: Log, tid: nat) returns (d: Data)
    requires Attained(rules, s) && Ready(s, tid)
    requires s.mgr == Mgr(true, log, OneSlot(PrepareState, tid, ONE, 1))
    ensures Reached(rules, d) && Voter(d, tid) && ToWorker(1, Commit) in d.sys.net
    ensures ToWorker(1, Abort) in s.net ==> ToWorker(1, Abort) in d.sys.net
  {
    d := Votes(rules, s, tid);
    Voted(log, 1, tid, PrepareState, ONE, 1);
    assert ONE[0] == 1;
    BroadcastReaches(ONE, Commit, ToWorker(1, Commit));
    d := Handles(rules, d, ToManager(1, Prepared, tid), false, tid);
  }

  /** A lone participant that disturbs its vote. */
  lemma LateBreaks(rules: Rules)
    requires Late(rules)
    ensures !AlwaysKeeps(rules)
  {
    var s := OneBegan(rules, 1);
    assert ONE[0] == 1;
    s := Prepares(rules, s, [Record(LBegin, 5)], 5, ONE, 1);
    var d := Commits(rules, s, [Record(LBegin, 5)], 5);
    if rules.lateUpdates {
      Changes(rules, d, 5);
    } else {
      StartsUndo(rules, d, 5);
    }
  }

  /** A vote counted twice, and the other member's vote to abort. */
  lemma DuplicateBreaks(rules: Rules)
    requires rules.dupVotes
    ensures !AlwaysKeeps(rules)
  {
    var s := BothJoined(rules);
    assert BOTH[0] == 1 && BOTH[1] == 2;
    s := Prepares(rules, s, [Record(LBegin, 5)], 5, BOTH, 2);
    s := VotesNo(rules, s, 1, 2, 5);
    var d := Votes(rules, s, 5);
    d := BothTold(rules, d);
    StartsUndo(rules, d, 5);
  }

  lemma BothTold(rules: Rules, d0: Data) returns (d: Data)
    requires rules.dupVotes && Reached(rules, d0) && Voter(d0, 5)
    requires d0.sys.mgr == Mgr(true, [Record(LBegin, 5)], OneSlot(PrepareState, 5, BOTH, 2))
    requires ToManager(1, Prepared, 5) in d0.sys.net && ToManager(2, Abort, 5) in d0.sys.net
    ensures Reached(rules, d) && Voter(d, 5)
    ensures ToWorker(1, Commit) in d.sys.net && ToWorker(1, Abort) in d.sys.net
  {
    var begun, vote := [Record(LBegin, 5)], ToManager(1, Prepared, 5);
    assert BOTH[0] == 1;
    BroadcastReaches(BOTH, Commit, ToWorker(1, Commit));
    BroadcastReaches(BOTH, Abort, ToWorker(1, Abort));
    Voted(begun, 1, 5, PrepareState, BOTH, 2);
    d := Handles(rules, d0, vote, true, 5);
    Voted(begun, 1, 5, PrepareState, BOTH, 1);
    d := Handles(rules, d, vote, false, 5);
    Refused(begun + [Record(LCommit, 5)], 2, 5, CommitState, BOTH, 0);
    d := Handles(rules, d, ToManager(2, Abort, 5), false, 5);
  }

  const ABORTED: Log := [Record(LBegin, 5), Record(LAbort, 5)]

  /** Transaction 5 is aborted; a duplicate of the message that says so stays in flight. */
  lemma FirstAborted(rules: Rules) returns (s: Sys)
    ensures Attained(rules, s) && s.mgr == Mgr(true, ABORTED, OneSlot(AbortState, 5, ONE, 1))
    ensures s.workers == [Fresh(1, 5).(log := ABORTED, active := false)] && ToWorker(1, Abort) in s.net
  {
    s := FirstRefused(rules);
    s := Reacted(rules, s, 0, ToWorker(1, Abort), true);
    assert AbortLogged([Record(LBegin, 5)]) == ABORTED;
  }

  lemma FirstRefused(rules: Rules) returns (s: Sys)
    ensures Attained(rules, s) && s.mgr == Mgr(true, ABORTED, OneSlot(AbortState, 5, ONE, 1))
    ensures s.workers == [Fresh(1, 5).(uncertain := true)] && ToWorker(1, Abort) in s.net
  {
    var begun := [Record(LBegin, 5)];
    s := OneBegan(rules, 1);
    assert ONE[0] == 1;
    s := CommitAsked(rules, s, 0, begun, 1, 5, BeginState, ONE, 1);
    s := VotesNo(rules, s, 0, 1, 5);
    Refused(begun, 1, 5, PrepareState, ONE, 1);
    BroadcastReaches(ONE, Abort, ToWorker(1, Abort));
    s := Managed(rules, s, ToManager(1, Abort, 5), false);
    assert begun + [Record(LAbort, 5)] == ABORTED;
  }

  /** It reaches transaction 7, which uses the same endpoint, after the vote. */
  lemma ReuseBreaks(rules: Rules)
    requires rules.reuseEndpoints
    ensures !AlwaysKeeps(rules)
  {
    var s := FirstAborted(rules);
    s := Started(rules, s, 0, 1, 7, BeginTx);
    SecondBegin(LAbort, AbortState, ONE, 1, 1);
    s := Managed(rules, s, ToManager(1, BeginTx, 7), false);
    SegAppend(ABORTED, Record(LBegin, 7));
    var log := ABORTED + [Record(LBegin, 7)];
    assert s.workers[0].log == log && ONE[0] == 1;
    s := Prepares(rules, s, log, 7, ONE, 1);
    var d := Commits(rules, s, log, 7);
    StartsUndo(rules, d, 7);
  }

  /** A commit finds and leaves the store of the vote, in every run, exactly when votes are
      not duplicated, endpoints are not used again, and no user updates or aborts at a worker
      that has voted PREPARED. */
  lemma CommitKeepsVoteExactly(rules: Rules)
    ensures AlwaysKeeps(rules) <==>
            !rules.dupVotes && !rules.reuseEndpoints && !rules.lateUpdates && !rules.lateAborts
  {
    if rules.dupVotes {
      DuplicateBreaks(rules);
    } else if rules.reuseEndpoints {
      ReuseBreaks(rules);
    } else if Late(rules) {
      LateBreaks(rules);
    } else {
      forall d, step, w, e ensures KeepsVote(rules, d, step, w, e) {
        CommitKeepsVote(rules, d, step, w, e);
      }
    }
  }
}
