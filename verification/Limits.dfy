/** Where the guarantees end: runs that break them when a hypothesis is dropped, and with
    them the exact conditions under which they hold. */
module Limits {
  import opened Types
  import opened TxLog
  import opened Recovery
  import opened Manager
  import opened Worker
  import opened Segments
  import opened System
  import opened Theorems
  import opened Votes
  import opened DataRuns

  /** Everything but a crash that leaves a changed store. */
  predicate Clean(s: Sys, step: Step) {
    step.WorkerCrashes? && step.w < |s.workers| ==> step.left == s.workers[step.w].store
  }

  lemma Goes(rules: Rules, s: Sys, step: Step)
    requires Attained(rules, s) && Enabled(rules, s, step) && Clean(s, step)
    ensures Attained(rules, Apply(rules, s, step))
  {
    var d :| Reached(rules, d) && d.sys == s;
    ReachedNext(rules, d, step);
    assert Next(rules, d, step).sys == Apply(rules, s, step);
  }

  lemma Begins(rules: Rules, n: nat)
    ensures Attained(rules, Init(n))
  {
    assert ReachedBy(rules, n, [], First(n));
    assert First(n).sys == Init(n);
  }

  // One step of a concrete run

  lemma Started(rules: Rules, s: Sys, w: nat, ep: nat, tid: nat, mtype: MsgType) returns (s': Sys)
    requires Attained(rules, s) && CanStart(rules, s, w, ep, mtype) && !s.workers[w].uncertain
    ensures Attained(rules, s') && s'.mgr == s.mgr && s'.roster == s.roster && s'.ballots == s.ballots
    ensures s'.workers == s.workers[w := Start(s.workers[w], ep, tid, mtype).worker]
    ensures s'.parts == s.parts[ep := Part(w, tid, true, |s.workers[w].log|)]
    ensures s'.net == s.net + {ToManager(ep, mtype, tid)}
  {
    var step := Starts(w, ep, tid, mtype);
    Goes(rules, s, step);
    s' := Apply(rules, s, step);
  }

  lemma Obeyed(rules: Rules, s: Sys, w: nat, c: Command) returns (s': Sys)
    requires Attained(rules, s) && Enabled(rules, s, Obeys(w, c))
    ensures Attained(rules, s') && Quiet(s, s') && s'.mgr == s.mgr && s'.ballots == s.ballots
    ensures s'.workers == s.workers[w := Obey(s.workers[w], c).worker]
    ensures s'.net == s.net + set q | q in Obey(s.workers[w], c).sends
  {
    Goes(rules, s, Obeys(w, c));
    s' := Apply(rules, s, Obeys(w, c));
  }

  lemma Managed(rules: Rules, s: Sys, p: Packet, again: bool) returns (s': Sys)
    requires Attained(rules, s) && Enabled(rules, s, ManagerReceives(p, again))
    ensures var r := Handle(s.mgr, p.ep, p.mtype, p.tid);
            && Attained(rules, s') && s'.workers == s.workers && s'.parts == s.parts
            && s'.mgr == r.mgr && s'.ballots == s.ballots
            && s'.roster == (if r.joined then s.roster + {p.ep} else s.roster)
            && s'.net == (if again then s.net else s.net - {p}) + set q | q in r.sends
  {
    Goes(rules, s, ManagerReceives(p, again));
    s' := Apply(rules, s, ManagerReceives(p, again));
  }

  lemma Reacted(rules: Rules, s: Sys, w: nat, p: Packet, again: bool) returns (s': Sys)
    requires Attained(rules, s) && Enabled(rules, s, WorkerReceives(w, p, again))
    ensures var r := React(s.workers[w], p.mtype);
            && Attained(rules, s') && Quiet(s, s') && s'.mgr == s.mgr
            && s'.workers == s.workers[w := r.worker]
            && s'.ballots == Recount(s.ballots, s.workers[w].ep, r.vote)
            && s'.net == (if again then s.net else s.net - {p}) + set q | q in r.sends
  {
    Goes(rules, s, WorkerReceives(w, p, again));
    s' := Apply(rules, s, WorkerReceives(w, p, again));
  }

  /** No endpoint is opened or entered. */
  ghost predicate Quiet(s: Sys, s': Sys) {
    s'.roster == s.roster && s'.parts == s.parts
  }

  // What the manager and the workers do in these runs

  const ONE: seq<nat> := NO_NODES[0 := 1]
  const TWO: seq<nat> := NO_NODES[0 := 2]
  const BOTH: seq<nat> := NO_NODES[0 := 1][1 := 2]

  function OneSlot(state: TxState, tid: nat, nodes: Nodes, count: nat): Table {
    EMPTY_TABLE[0 := Slot(state, tid, nodes, count)]
  }

  /** A worker that has just begun or joined its first transaction. */
  function Fresh(ep: nat, tid: nat): Worker {
    Worker(true, [Record(LBegin, tid)], ZERO_STORE, ep, true, false, true, false, tid, ep)
  }

  lemma FirstMessages()
    ensures Handle(Mgr(true, [], EMPTY_TABLE), 1, BeginTx, 5) ==
            Reaction(Mgr(true, [Record(LBegin, 5)], OneSlot(BeginState, 5, ONE, 1)), [], true, false)
    ensures Handle(Mgr(true, [Record(LBegin, 5)], OneSlot(BeginState, 5, ONE, 1)), 2, JoinTx, 5) ==
            Reaction(Mgr(true, [Record(LBegin, 5)], OneSlot(BeginState, 5, BOTH, 2)), [], true, false)
  {
    assert Find(OneSlot(BeginState, 5, ONE, 1), 5) == 0;
    assert ONE[0] == 1 && ONE[1] == 0;
    assert FirstFree(ONE) == 1;
  }

  lemma FirstJoin(log: Log, ep: nat)
    ensures Handle(Mgr(true, log, EMPTY_TABLE), ep, JoinTx, 0) ==
            Reaction(Mgr(true, log, OneSlot(BeginState, 0, NO_NODES[0 := ep], 1)), [], true, false)
  {
  }

  /** The next transaction takes over the slot of one that is finished. */
  lemma SecondBegin(kind: Kind, state: TxState, nodes: Nodes, count: nat, ep: nat)
    requires state == CommitState || state == AbortState
    ensures var log := [Record(LBegin, 5), Record(kind, 5)];
            Handle(Mgr(true, log, OneSlot(state, 5, nodes, count)), ep, BeginTx, 7) ==
            Reaction(Mgr(true, log + [Record(LBegin, 7)], OneSlot(BeginState, 7, NO_NODES[0 := ep], 1)), [], true, false)
  {
    var log := [Record(LBegin, 5), Record(kind, 5)];
    assert log[..1] == [Record(LBegin, 5)];
    assert LastOf(log[..1], 7) == None;
  }

  lemma Asked(log: Log, ep: nat, tid: nat, state: TxState, nodes: Nodes, count: nat)
    requires state != PrepareState
    ensures var r := Handle(Mgr(true, log, OneSlot(state, tid, nodes, count)), ep, Commit, tid);
            && r.mgr == Mgr(true, log, OneSlot(PrepareState, tid, nodes, count))
            && !r.joined && r.sends == Broadcast(nodes, PrepareToCommit)
  {
    assert Find(OneSlot(state, tid, nodes, count), tid) == 0;
  }

  lemma Voted(log: Log, ep: nat, tid: nat, state: TxState, nodes: Nodes, count: nat)
    requires count > 0 && state != AbortState
    ensures var r := Handle(Mgr(true, log, OneSlot(state, tid, nodes, count)), ep, Prepared, tid);
            && !r.joined
            && (count > 1 ==> r.mgr == Mgr(true, log, OneSlot(state, tid, nodes, count - 1)))
            && (count == 1 ==>
                  && r.mgr == Mgr(true, log + [Record(LCommit, tid)], OneSlot(CommitState, tid, nodes, 0))
                  && r.sends == Broadcast(nodes, Commit))
  {
    assert Find(OneSlot(state, tid, nodes, count), tid) == 0;
  }

  lemma Refused(log: Log, ep: nat, tid: nat, state: TxState, nodes: Nodes, count: nat)
    ensures var r := Handle(Mgr(true, log, OneSlot(state, tid, nodes, count)), ep, Abort, tid);
            && !r.joined && r.sends == Broadcast(nodes, Abort)
            && r.mgr == Mgr(true, log + [Record(LAbort, tid)], OneSlot(AbortState, tid, nodes, count))
  {
    assert Find(OneSlot(state, tid, nodes, count), tid) == 0;
  }

  /** Worker w asks the manager to commit; every listed endpoint is asked to vote. */
  lemma CommitAsked(rules: Rules, s: Sys, w: nat, log: Log, ep: nat, tid: nat, state: TxState, nodes: Nodes, count: nat)
    returns (s': Sys)
    requires Attained(rules, s) && s.mgr == Mgr(true, log, OneSlot(state, tid, nodes, count)) && state != PrepareState
    requires w < |s.workers| && s.workers[w].up && s.workers[w].active
    requires s.workers[w].ep == ep && s.workers[w].tid == tid
    ensures Attained(rules, s') && s'.mgr == Mgr(true, log, OneSlot(PrepareState, tid, nodes, count))
    ensures s'.workers == s.workers && Quiet(s, s') && s'.ballots == s.ballots
    ensures forall e :: e in Members(nodes) ==> ToWorker(e, PrepareToCommit) in s'.net
    ensures forall q :: q in s.net && q.ToWorker? ==> q in s'.net
  {
    var p := ToManager(ep, Commit, tid);
    s' := Obeyed(rules, s, w, CommitCmd);
    assert p in Obey(s.workers[w], CommitCmd).sends;
    assert s'.workers == s.workers;
    Asked(log, ep, tid, state, nodes, count);
    s' := Managed(rules, s', p, false);
    forall e | e in Members(nodes) ensures ToWorker(e, PrepareToCommit) in s'.net {
      BroadcastReaches(nodes, PrepareToCommit, ToWorker(e, PrepareToCommit));
    }
  }

  /** A worker votes to commit; the request may be delivered again later. */
  lemma VotesYes(rules: Rules, s: Sys, w: nat, ep: nat, tid: nat, again: bool) returns (s': Sys)
    requires Attained(rules, s) && w < |s.workers| && s.workers[w] == Fresh(ep, tid)
    requires ToWorker(ep, PrepareToCommit) in s.net
    ensures Attained(rules, s') && s'.mgr == s.mgr && Quiet(s, s')
    ensures s'.workers == s.workers[w := Append(Fresh(ep, tid), Record(LPrepared, tid)).(uncertain := true)]
    ensures s'.ballots == s.ballots + [Ballot(ep, true)]
    ensures s'.net == (if again then s.net else s.net - {ToWorker(ep, PrepareToCommit)}) + {ToManager(ep, Prepared, tid)}
  {
    s' := Reacted(rules, s, w, ToWorker(ep, PrepareToCommit), again);
  }

  /** A worker is told to vote to abort and does. */
  lemma VotesNo(rules: Rules, s: Sys, w: nat, ep: nat, tid: nat) returns (s': Sys)
    requires Attained(rules, s) && w < |s.workers| && s.workers[w] == Fresh(ep, tid)
    requires ToWorker(ep, PrepareToCommit) in s.net
    ensures Attained(rules, s') && s'.mgr == s.mgr && Quiet(s, s')
    ensures s'.workers == s.workers[w := Fresh(ep, tid).(uncertain := true)]
    ensures s'.ballots == s.ballots + [Ballot(ep, false)]
    ensures s'.net == s.net - {ToWorker(ep, PrepareToCommit)} + {ToManager(ep, Abort, tid)}
  {
    s' := ToldNo(rules, s, w, ep, tid);
    s' := Reacted(rules, s', w, ToWorker(ep, PrepareToCommit), false);
  }

  lemma ToldNo(rules: Rules, s: Sys, w: nat, ep: nat, tid: nat) returns (s': Sys)
    requires Attained(rules, s) && w < |s.workers| && s.workers[w] == Fresh(ep, tid)
    ensures Attained(rules, s') && s'.mgr == s.mgr && Quiet(s, s') && s'.ballots == s.ballots && s'.net == s.net
    ensures s'.workers == s.workers[w := Fresh(ep, tid).(doCommit := false, doAbort := true)]
  {
    s' := Obeyed(rules, s, w, VoteAbortCmd);
  }

  // Duplicate votes

  const COMMITTED: Log := [Record(LBegin, 5), Record(LCommit, 5)]

  lemma OneBegan(rules: Rules, n: nat) returns (s: Sys)
    requires n > 0
    ensures Attained(rules, s) && s.workers == Init(n).workers[0 := Fresh(1, 5)]
    ensures s.mgr == Mgr(true, [Record(LBegin, 5)], OneSlot(BeginState, 5, ONE, 1))
    ensures s.roster == {1} && s.parts == map[1 := Part(0, 5, true, 0)] && s.ballots == []
  {
    Begins(rules, n);
    s := Started(rules, Init(n), 0, 1, 5, BeginTx);
    FirstMessages();
    s := Managed(rules, s, ToManager(1, BeginTx, 5), false);
  }

  /** Two workers in transaction 5. */
  lemma BothJoined(rules: Rules) returns (s: Sys)
    ensures Attained(rules, s) && s.workers == [Fresh(1, 5), Fresh(2, 5)]
    ensures s.mgr == Mgr(true, [Record(LBegin, 5)], OneSlot(BeginState, 5, BOTH, 2))
    ensures 2 in s.roster && s.parts == map[1 := Part(0, 5, true, 0), 2 := Part(1, 5, true, 0)]
  {
    s := OneBegan(rules, 2);
    s := Started(rules, s, 1, 2, 5, JoinTx);
    FirstMessages();
    s := Managed(rules, s, ToManager(2, JoinTx, 5), false);
    assert s.workers == [Fresh(1, 5), Fresh(2, 5)];
  }

  /** One has voted to commit, the other to abort. */
  lemma SplitVote(rules: Rules) returns (s: Sys)
    ensures Attained(rules, s)
    ensures s.mgr == Mgr(true, [Record(LBegin, 5)], OneSlot(PrepareState, 5, BOTH, 2))
    ensures ToManager(1, Prepared, 5) in s.net && ToManager(2, Abort, 5) in s.net
    ensures |s.workers| == 2 && s.workers[1] == Fresh(2, 5).(uncertain := true)
    ensures 2 in s.roster && 2 in s.parts && s.parts[2] == Part(1, 5, true, 0)
  {
    s := BothJoined(rules);
    s := CommitAsked(rules, s, 0, [Record(LBegin, 5)], 1, 5, BeginState, BOTH, 2);
    assert BOTH[0] == 1 && BOTH[1] == 2;
    assert 1 in Members(BOTH) && 2 in Members(BOTH);
    s := VotesYes(rules, s, 0, 1, 5, false);
    s := VotesNo(rules, s, 1, 2, 5);
  }

  /** One vote delivered twice commits a transaction that the other worker has voted against. */
  lemma CountedTwice(rules: Rules) returns (s: Sys)
    requires rules.dupVotes
    ensures Attained(rules, s) && s.mgr == Mgr(true, COMMITTED, OneSlot(CommitState, 5, BOTH, 0))
    ensures ToManager(2, Abort, 5) in s.net
    ensures |s.workers| == 2 && s.workers[1] == Fresh(2, 5).(uncertain := true)
    ensures 2 in s.roster && 2 in s.parts && s.parts[2] == Part(1, 5, true, 0)
  {
    s := SplitVote(rules);
    var begun := [Record(LBegin, 5)];
    assert begun + [Record(LCommit, 5)] == COMMITTED;
    s := VoteCounted(rules, s, begun, BOTH, 2, true);
    s := VoteCounted(rules, s, begun, BOTH, 1, false);
  }

  /** The vote of endpoint 1 for transaction 5 reaches the manager. */
  lemma VoteCounted(rules: Rules, s: Sys, log: Log, nodes: Nodes, count: nat, again: bool) returns (s': Sys)
    requires Attained(rules, s) && s.mgr == Mgr(true, log, OneSlot(PrepareState, 5, nodes, count))
    requires count > 0 && ToManager(1, Prepared, 5) in s.net && (again ==> rules.dupVotes)
    ensures Attained(rules, s') && s'.workers == s.workers && Quiet(s, s')
    ensures s'.mgr == if count > 1 then Mgr(true, log, OneSlot(PrepareState, 5, nodes, count - 1))
                      else Mgr(true, log + [Record(LCommit, 5)], OneSlot(CommitState, 5, nodes, 0))
    ensures forall q :: q in s.net && (again || q != ToManager(1, Prepared, 5)) ==> q in s'.net
  {
    Voted(log, 1, 5, PrepareState, nodes, count);
    s' := Managed(rules, s, ToManager(1, Prepared, 5), again);
  }

  /** When that vote arrives, the transaction is aborted too. */
  lemma BothOutcomes(rules: Rules) returns (s: Sys)
    requires rules.dupVotes
    ensures Attained(rules, s) && s.mgr.log == COMMITTED + [Record(LAbort, 5)]
    ensures |s.workers| == 2 && s.workers[1] == Fresh(2, 5).(uncertain := true)
    ensures 2 in s.roster && 2 in s.parts && s.parts[2] == Part(1, 5, true, 0) && ToWorker(2, Abort) in s.net
  {
    s := CountedTwice(rules);
    Refused(COMMITTED, 2, 5, CommitState, BOTH, 0);
    BroadcastReaches(BOTH, Abort, ToWorker(2, Abort));
    assert BOTH[1] == 2;
    s := Managed(rules, s, ToManager(2, Abort, 5), false);
  }

  /** The manager contradicts itself, and the other worker its COMMIT. */
  lemma DuplicateVote(rules: Rules) returns (s: Sys)
    requires rules.dupVotes
    ensures Attained(rules, s) && !Agreement(s, 5)
    ensures 2 in s.roster && 2 in s.parts && s.parts[2] == Part(1, 5, true, 0) && |s.workers| == 2
    ensures !Consistent(s, 2)
  {
    s := BothOutcomes(rules);
    assert s.mgr.log[1] == Record(LCommit, 5) && s.mgr.log[2] == Record(LAbort, 5);
    var k := s.workers[1];
    s := Reacted(rules, s, 1, ToWorker(2, Abort), false);
    assert AbortLogged(k.log) == k.log + [Record(LAbort, 5)];
    SegAppend(k.log, Record(LAbort, 5));
    SegAppend([], Record(LBegin, 5));
    assert [] + [Record(LBegin, 5)] == k.log;
  }

  // Commands after the vote

  /** A lone participant whose transaction the manager has just committed. */
  lemma LoneCommit(rules: Rules, s0: Sys, w: nat, log: Log, tid: nat, again: bool) returns (s: Sys)
    requires Attained(rules, s0) && s0.mgr == Mgr(true, log, OneSlot(BeginState, tid, ONE, 1))
    requires w < |s0.workers| && s0.workers[w] == Fresh(1, tid)
    ensures Attained(rules, s)
    ensures s.mgr == Mgr(true, log + [Record(LCommit, tid)], OneSlot(CommitState, tid, ONE, 0))
    ensures Quiet(s0, s) && s.ballots == s0.ballots + [Ballot(1, true)]
    ensures s.workers == s0.workers[w := Append(Fresh(1, tid), Record(LPrepared, tid)).(uncertain := true)]
    ensures ToWorker(1, Commit) in s.net && (again ==> ToWorker(1, PrepareToCommit) in s.net)
  {
    s := CommitAsked(rules, s0, w, log, 1, tid, BeginState, ONE, 1);
    assert ONE[0] == 1;
    s := VotesYes(rules, s, w, 1, tid, again);
    Voted(log, 1, tid, PrepareState, ONE, 1);
    BroadcastReaches(ONE, Commit, ToWorker(1, Commit));
    s := Managed(rules, s, ToManager(1, Prepared, tid), false);
  }

  lemma LoneTransaction(rules: Rules, n: nat, again: bool) returns (s: Sys)
    requires n > 0
    ensures Attained(rules, s) && s.mgr == Mgr(true, COMMITTED, OneSlot(CommitState, 5, ONE, 0))
    ensures s.roster == {1} && s.parts == map[1 := Part(0, 5, true, 0)] && s.ballots == [Ballot(1, true)]
    ensures s.workers == Init(n).workers[0 := Append(Fresh(1, 5), Record(LPrepared, 5)).(uncertain := true)]
    ensures ToWorker(1, Commit) in s.net && (again ==> ToWorker(1, PrepareToCommit) in s.net)
  {
    s := OneBegan(rules, n);
    s := LoneCommit(rules, s, 0, [Record(LBegin, 5)], 5, again);
    assert s.mgr.log == COMMITTED;
  }

  /** An update after the vote, then a crash: the restart undoes a committed transaction. */
  lemma LateUpdate(rules: Rules) returns (s: Sys)
    requires rules.lateUpdates
    ensures Attained(rules, s)
    ensures 1 in s.roster && 1 in s.parts && s.parts[1] == Part(0, 5, true, 0) && |s.workers| == 1
    ensures !Consistent(s, 1)
  {
    s := LoneTransaction(rules, 1, false);
    s := Obeyed(rules, s, 0, NewA(1));
    var b, p, u := Record(LBegin, 5), Record(LPrepared, 5), Entry(LUpdate, 5, ZERO_STORE);
    assert s.workers[0].log == [b] + [p] + [u];
    s := Revived(rules, s);
    Unprepared(b, p, u);
    assert LAbort in Trace(s, 1) && COMMITTED[1] == Record(LCommit, 5);
  }

  /** An abort after the vote undoes a committed transaction at once. */
  lemma LateAbort(rules: Rules) returns (s: Sys)
    requires rules.lateAborts
    ensures Attained(rules, s)
    ensures 1 in s.roster && 1 in s.parts && s.parts[1] == Part(0, 5, true, 0) && |s.workers| == 1
    ensures !Consistent(s, 1)
  {
    s := LoneTransaction(rules, 1, false);
    var b, p, x := Record(LBegin, 5), Record(LPrepared, 5), Record(LAbort, 5);
    assert s.workers[0].log == [b] + [p];
    s := Obeyed(rules, s, 0, AbortCmd);
    assert ([b] + [p])[..1] == [b] && Stop([b]) == 0 && Stop([b] + [p]) == 0;
    SegAppend([b], p);
    SegAppend([b] + [p], x);
    assert LAbort in Trace(s, 1) && COMMITTED[1] == Record(LCommit, 5);
  }

  lemma Revived(rules: Rules, s: Sys) returns (s': Sys)
    requires Attained(rules, s) && Running(s, 0) && LastIs(s.workers[0].log, LUpdate)
    ensures Attained(rules, s') && s'.mgr == s.mgr && s'.roster == s.roster && s'.parts == s.parts
    ensures |s'.workers| == |s.workers| && s'.workers[0].log == AbortLogged(s.workers[0].log)
  {
    var left := s.workers[0].store;
    Goes(rules, s, WorkerCrashes(0, left));
    s' := Apply(rules, s, WorkerCrashes(0, left));
    Goes(rules, s', WorkerRestarts(0));
    s' := Apply(rules, s', WorkerRestarts(0));
  }

  lemma Unprepared(b: Entry, p: Entry, u: Entry)
    requires b == Record(LBegin, 5) && p == Record(LPrepared, 5) && u == Entry(LUpdate, 5, ZERO_STORE)
    ensures AbortLogged([b] + [p] + [u]) == [b] + [p] + [u] + [Record(LAbort, 5)]
    ensures LAbort in SegKinds([b] + [p] + [u] + [Record(LAbort, 5)], 0)
  {
    var x := Record(LAbort, 5);
    var log := [b] + [p] + [u];
    assert log[..2] == [b] + [p] && ([b] + [p])[..1] == [b];
    assert Stop([b]) == 0 && Stop([b] + [p]) == 0 && Stop(log) == 0;
    SegAppend([b], p);
    SegAppend([b] + [p], u);
    SegAppend(log, x);
  }

  // Endpoints used again

  /** Worker 0 is told the outcome of transaction 5; a duplicate of that message and of the
      request to vote may still be in flight. */
  lemma Finished(rules: Rules, n: nat) returns (s: Sys)
    requires n > 0
    ensures Attained(rules, s) && s.mgr == Mgr(true, COMMITTED, OneSlot(CommitState, 5, ONE, 0))
    ensures s.roster == {1} && s.parts == map[1 := Part(0, 5, true, 0)] && s.ballots == [Ballot(1, true)]
    ensures |s.workers| == n && forall v :: 0 < v < n ==> s.workers[v] == NEW_WORKER
    ensures s.workers[0] == Fresh(1, 5).(log := DONE, active := false)
    ensures ToWorker(1, Commit) in s.net && ToWorker(1, PrepareToCommit) in s.net
  {
    s := LoneTransaction(rules, n, true);
    s := Reacted(rules, s, 0, ToWorker(1, Commit), true);
    assert s.workers[0].log == DONE;
  }

  const DONE: Log := [Record(LBegin, 5), Record(LPrepared, 5), Record(LCommit, 5)]

  /** The log that worker 0 or the manager has when transaction 7 follows, and its outcome. */
  lemma SecondSegment(log: Log, kind: Kind)
    requires kind != LBegin
    ensures kind in SegKinds(log + [Record(LBegin, 7)] + [Record(kind, 7)], |log|)
  {
    SegAppend(log, Record(LBegin, 7));
    SegAppend(log + [Record(LBegin, 7)], Record(kind, 7));
  }

  /** A COMMIT of transaction 5 that is delivered a second time reaches transaction 7, which
      uses the same endpoint and which the manager, after a crash, aborts. */
  lemma StaleCommit(rules: Rules) returns (s: Sys)
    requires rules.reuseEndpoints
    ensures Attained(rules, s)
    ensures 1 in s.roster && 1 in s.parts && s.parts[1] == Part(0, 7, true, 3) && |s.workers| == 1
    ensures !Consistent(s, 1)
  {
    s := Finished(rules, 1);
    s := Started(rules, s, 0, 1, 7, BeginTx);
    SecondBegin(LCommit, CommitState, ONE, 0, 1);
    s := Managed(rules, s, ToManager(1, BeginTx, 7), false);
    s := Reacted(rules, s, 0, ToWorker(1, Commit), false);
    assert s.workers[0].log == DONE + [Record(LBegin, 7)] + [Record(LCommit, 7)];
    SecondSegment(DONE, LCommit);
    var log := COMMITTED + [Record(LBegin, 7)];
    assert s.mgr.log == log;
    s := Rebooted(rules, s);
    SevenAborted(log);
  }

  lemma SevenAborted(log: Log)
    requires log == COMMITTED + [Record(LBegin, 7)]
    ensures Logged(log + RecoveryAborts(log), LAbort, 7)
  {
    assert log[0].tid == 5 && log[1].tid == 5 && log[2] == Record(LBegin, 7) && |log| == 3;
    RecoveryExactly(log, 7);
    var i :| 0 <= i < |RecoveryAborts(log)| && RecoveryAborts(log)[i] == Record(LAbort, 7);
    assert (log + RecoveryAborts(log))[|log| + i] == Record(LAbort, 7);
  }

  /** Worker 1 begins transaction 7 after worker 0 has finished transaction 5. */
  lemma NextBegan(rules: Rules) returns (s: Sys)
    ensures Attained(rules, s) && s.ballots == [Ballot(1, true)]
    ensures s.mgr == Mgr(true, COMMITTED + [Record(LBegin, 7)], OneSlot(BeginState, 7, TWO, 1))
    ensures ToWorker(1, PrepareToCommit) in s.net && 1 in s.parts
    ensures |s.workers| == 2 && s.workers[0] == Fresh(1, 5).(log := DONE, active := false)
    ensures s.workers[1] == Fresh(2, 7)
  {
    s := Finished(rules, 2);
    s := Started(rules, s, 1, 2, 7, BeginTx);
    SecondBegin(LCommit, CommitState, ONE, 0, 2);
    s := Managed(rules, s, ToManager(2, BeginTx, 7), false);
  }

  /** A request to vote on transaction 5 reaches worker 0 in transaction 7, which uses the
      same endpoint and which the manager has not entered it for. Its vote takes the place of
      the vote of the only member. */
  lemma StaleRequest(rules: Rules) returns (s: Sys)
    requires rules.reuseEndpoints
    ensures Attained(rules, s) && s.ballots == [Ballot(1, true), Ballot(1, true)]
    ensures s.mgr == Mgr(true, COMMITTED + [Record(LBegin, 7)], OneSlot(BeginState, 7, TWO, 1))
    ensures ToManager(1, Prepared, 7) in s.net
    ensures |s.workers| == 2 && s.workers[1] == Fresh(2, 7)
  {
    s := NextBegan(rules);
    s := Started(rules, s, 0, 1, 7, JoinTx);
    s := Reacted(rules, s, 0, ToWorker(1, PrepareToCommit), false);
  }

  /** The transaction is committed without its member, which then votes to abort it. */
  lemma StaleVote(rules: Rules) returns (s: Sys)
    requires rules.reuseEndpoints
    ensures Attained(rules, s) && !Agreement(s, 7)
  {
    s := StaleRequest(rules);
    var begun := COMMITTED + [Record(LBegin, 7)];
    Voted(begun, 1, 7, BeginState, TWO, 1);
    s := Managed(rules, s, ToManager(1, Prepared, 7), false);
    var log := begun + [Record(LCommit, 7)];
    s := CommitAsked(rules, s, 1, log, 2, 7, CommitState, TWO, 0);
    assert TWO[0] == 2;
    s := VotesNo(rules, s, 1, 2, 7);
    Refused(log, 2, 7, PrepareState, TWO, 0);
    s := Managed(rules, s, ToManager(2, Abort, 7), false);
    assert s.mgr.log == log + [Record(LAbort, 7)];
    assert s.mgr.log[3] == Record(LCommit, 7) && s.mgr.log[4] == Record(LAbort, 7);
  }

  // Transaction zero

  /** Transaction id zero also marks an empty slot: joining it needs no BEGIN. */
  lemma ZeroCommitted(rules: Rules) returns (s: Sys)
    ensures Attained(rules, s) && s.mgr.up && s.mgr.log == [Record(LCommit, 0)]
    ensures |s.workers| == 2 && s.workers[0].ep == 1 && s.workers[1] == NEW_WORKER && 2 !in s.parts
  {
    Begins(rules, 2);
    s := Started(rules, Init(2), 0, 1, 0, JoinTx);
    FirstJoin([], 1);
    s := Managed(rules, s, ToManager(1, JoinTx, 0), false);
    assert s.workers[0] == Fresh(1, 0);
    s := LoneCommit(rules, s, 0, [], 0, false);
  }

  /** Committed and then forgotten, it can be joined again. */
  lemma ZeroRejoined(rules: Rules, log: Log) returns (s: Sys)
    requires log == [Record(LCommit, 0)]
    ensures Attained(rules, s) && s.mgr == Mgr(true, log, OneSlot(BeginState, 0, TWO, 1))
    ensures |s.workers| == 2 && s.workers[1] == Fresh(2, 0)
  {
    s := ZeroCommitted(rules);
    s := Rebooted(rules, s);
    assert Aborts(log, 0) == [] && Aborts(log, 1) == [] && |log| == 1;
    assert log + [] == log;
    s := Started(rules, s, 1, 2, 0, JoinTx);
    FirstJoin(log, 2);
    s := Managed(rules, s, ToManager(2, JoinTx, 0), false);
  }

  /** And then it can be aborted as well. */
  lemma TransactionZero(rules: Rules) returns (s: Sys)
    ensures Attained(rules, s) && !Agreement(s, 0)
  {
    var log := [Record(LCommit, 0)];
    s := ZeroRejoined(rules, log);
    s := ZeroAborted(rules, s, log);
    assert s.mgr.log[0] == Record(LCommit, 0) && s.mgr.log[1] == Record(LAbort, 0);
  }

  lemma ZeroAborted(rules: Rules, s0: Sys, log: Log) returns (s: Sys)
    requires Attained(rules, s0) && s0.mgr == Mgr(true, log, OneSlot(BeginState, 0, TWO, 1))
    requires |s0.workers| == 2 && s0.workers[1] == Fresh(2, 0)
    ensures Attained(rules, s) && s.mgr.log == log + [Record(LAbort, 0)]
  {
    s := CommitAsked(rules, s0, 1, log, 2, 0, BeginState, TWO, 1);
    assert TWO[0] == 2;
    s := VotesNo(rules, s, 1, 2, 0);
    Refused(log, 2, 0, PrepareState, TWO, 1);
    s := Managed(rules, s, ToManager(2, Abort, 0), false);
  }

  lemma Rebooted(rules: Rules, s: Sys) returns (s': Sys)
    requires Attained(rules, s) && s.mgr.up
    ensures Attained(rules, s') && s'.mgr == Mgr(true, s.mgr.log + RecoveryAborts(s.mgr.log), EMPTY_TABLE)
    ensures s'.workers == s.workers && Quiet(s, s')
  {
    Goes(rules, s, ManagerCrashes);
    s' := Apply(rules, s, ManagerCrashes);
    Goes(rules, s', ManagerRestarts);
    s' := Apply(rules, s', ManagerRestarts);
  }

  // The exact conditions

  /** The manager agrees with itself about every nonzero transaction, in every run, exactly
      when no PREPARED vote is delivered twice and no endpoint is used again. */
  lemma AgreementExactly(rules: Rules)
    ensures (forall s, tid :: Reachable(rules, s) && tid != 0 ==> Agreement(s, tid)) <==>
            !rules.dupVotes && !rules.reuseEndpoints
  {
    if rules.dupVotes {
      var s := DuplicateVote(rules);
      AttainedReachable(rules, s);
      assert !Agreement(s, 5);
    } else if rules.reuseEndpoints {
      var s := StaleVote(rules);
      AttainedReachable(rules, s);
      assert !Agreement(s, 7);
    } else {
      forall s, tid | Reachable(rules, s) && tid != 0 ensures Agreement(s, tid) {
        AgreementHolds(rules, s, tid);
      }
    }
  }

  ghost predicate VotesOnce(s: Sys) {
    forall i, j :: 0 <= i < j < |s.ballots| ==> s.ballots[i].ep != s.ballots[j].ep
  }

  /** No endpoint votes twice, in every run, exactly when no endpoint is used again, however
      often requests and votes are delivered and whatever the users command. */
  lemma SingleVoteExactly(rules: Rules)
    ensures (forall s :: Reachable(rules, s) ==> VotesOnce(s)) <==> !rules.reuseEndpoints
  {
    if rules.reuseEndpoints {
      var s := StaleRequest(rules);
      AttainedReachable(rules, s);
      assert s.ballots[0].ep == s.ballots[1].ep;
      assert !VotesOnce(s);
    } else {
      forall s | Reachable(rules, s) ensures VotesOnce(s) {
        forall i, j | 0 <= i < j < |s.ballots| ensures s.ballots[i].ep != s.ballots[j].ep {
          if s.ballots[i].ep == s.ballots[j].ep {
            SingleVote(rules, s, i, j);
          }
        }
      }
    }
  }

  /** Among transaction ids, agreement holds in every run exactly for those other than zero. */
  lemma AgreementExactlyNonzero(tid: nat)
    ensures (forall s :: Reachable(STRICT, s) ==> Agreement(s, tid)) <==> tid != 0
  {
    if tid == 0 {
      var s := TransactionZero(STRICT);
      AttainedReachable(STRICT, s);
      assert !Agreement(s, tid);
    } else {
      forall s | Reachable(STRICT, s) ensures Agreement(s, tid) {
        AgreementHolds(STRICT, s, tid);
      }
    }
  }

  ghost predicate AllConsistent(s: Sys) {
    forall e :: e in s.roster && e in s.parts && s.parts[e].tid != 0 ==>
      s.parts[e].wid < |s.workers| && Consistent(s, e)
  }

  /** Accepted participants never contradict the manager, in every run, exactly when votes
      are not duplicated, endpoints are not used again, and no user updates or aborts at a
      worker that has voted PREPARED. */
  lemma ConsistencyExactly(rules: Rules)
    ensures (forall s :: Reachable(rules, s) ==> AllConsistent(s)) <==>
            !rules.dupVotes && !rules.reuseEndpoints && !rules.lateUpdates && !rules.lateAborts
  {
    if rules.dupVotes {
      var s := DuplicateVote(rules);
      AttainedReachable(rules, s);
      assert !AllConsistent(s);
    } else if rules.reuseEndpoints {
      var s := StaleCommit(rules);
      AttainedReachable(rules, s);
      assert !AllConsistent(s);
    } else if rules.lateUpdates {
      var s := LateUpdate(rules);
      AttainedReachable(rules, s);
      assert !AllConsistent(s);
    } else if rules.lateAborts {
      var s := LateAbort(rules);
      AttainedReachable(rules, s);
      assert !AllConsistent(s);
    } else {
      forall s | Reachable(rules, s) ensures AllConsistent(s) {
        forall e | e in s.roster && e in s.parts && s.parts[e].tid != 0
          ensures s.parts[e].wid < |s.workers| && Consistent(s, e)
        {
          ParticipantsConsistent(rules, s, e);
        }
      }
    }
  }
}
