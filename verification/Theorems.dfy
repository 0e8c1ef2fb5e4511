/** What holds in every reachable state of the system. */
module Theorems {
  import opened Types
  import opened TxLog
  import opened Recovery
  import opened Manager
  import opened System
  import opened Invariant
  import WorkerSteps
  import ManagerSteps

  lemma StepKeeps(rules: Rules, s: Sys, step: Step)
    requires Reliable(rules) && Inv(rules, s) && Enabled(rules, s, step)
    ensures Inv(rules, Apply(rules, s, step))
  {
    match step
    case Lose(p) => WorkerSteps.Lost(rules, s, p);
    case ManagerReceives(p, again) => ManagerSteps.ReceiveKeeps(rules, s, p, again);
    case ManagerCrashes => ManagerSteps.CrashKeeps(rules, s, Apply(rules, s, step), []);
    case RecoveryStops(k) => ManagerSteps.RecoverKeeps(rules, s, false, k);
    case ManagerRestarts =>
      var a := RecoveryAborts(s.mgr.log);
      assert a[..|a|] == a;
      ManagerSteps.RecoverKeeps(rules, s, true, |a|);
    case Starts(w, fresh', tid, mtype) => WorkerSteps.StartsKeeps(rules, s, w, fresh', tid, mtype);
    case StartDies(w, fresh', tid, mtype) => WorkerSteps.StartDiesKeeps(rules, s, w, fresh', tid, mtype);
    case Obeys(w, c) => WorkerSteps.ObeysKeeps(rules, s, w, c);
    case WorkerReceives(w, p, again) => WorkerSteps.ReceivesKeeps(rules, s, w, p, again);
    case VoteDies(w, p, again) => WorkerSteps.VoteDiesKeeps(rules, s, w, p, again);
    case Asks(w) => WorkerSteps.AsksKeeps(rules, s, w);
    case WorkerCrashes(w, left) => WorkerSteps.CrashKeeps(rules, s, w, left);
    case WorkerRestarts(w) => WorkerSteps.RestartKeeps(rules, s, w);
  }

  lemma {:induction false} RunKeeps(rules: Rules, s: Sys, steps: seq<Step>)
    requires Reliable(rules) && Inv(rules, s) && Valid(rules, s, steps)
    ensures Inv(rules, Run(rules, s, steps))
    decreases |steps|
  {
    if steps != [] {
      StepKeeps(rules, s, steps[0]);
      RunKeeps(rules, Apply(rules, s, steps[0]), steps[1..]);
    }
  }

  lemma ReachableInv(rules: Rules, s: Sys)
    requires Reliable(rules) && Reachable(rules, s)
    ensures Inv(rules, s)
  {
    var n, steps :| ReachableIn(rules, n, steps, s);
    InitInv(rules, n);
    RunKeeps(rules, Init(n), steps);
  }

  /** Agreement: in every reachable state the manager's log holds at most one outcome of
      every transaction, although neither the ABORT nor the COMMIT branch checks for a
      finished transaction. Users may issue any command at any time. */
  lemma AgreementHolds(rules: Rules, s: Sys, tid: nat)
    requires Reliable(rules) && Reachable(rules, s) && tid != 0
    ensures Agreement(s, tid)
  {
    ReachableInv(rules, s);
    assert TidOk(s, tid);
    LoggedStatus(s.mgr.log, tid);
  }

  /** The manager's log for a transaction is empty, BEGIN, BEGIN COMMIT, or BEGIN ABORT+. */
  lemma HistoryShape(rules: Rules, s: Sys, tid: nat)
    requires Reliable(rules) && Reachable(rules, s) && tid != 0
    ensures var p := Projection(s.mgr.log, tid);
            || p == [] || p == [LBegin] || p == [LBegin, LCommit]
            || (|p| >= 2 && p[0] == LBegin && forall i :: 1 <= i < |p| ==> p[i] == LAbort)
  {
    ReachableInv(rules, s);
    assert TidOk(s, tid);
    StatusIsProjection(s.mgr.log, tid);
  }

  /** Commit validity: every endpoint the manager entered for a committed transaction has
      PREPARED in its own worker's log, voted so and never voted to abort. */
  lemma CommitValid(rules: Rules, s: Sys, e: nat)
    requires Reliable(rules) && Reachable(rules, s) && e in s.roster
    requires e in s.parts && s.parts[e].tid != 0 && Logged(s.mgr.log, LCommit, s.parts[e].tid)
    ensures s.parts[e].wid < |s.workers| && LPrepared in Trace(s, e)
    ensures Ballot(e, true) in s.ballots && Ballot(e, false) !in s.ballots
  {
    ReachableInv(rules, s);
    assert TidOk(s, s.parts[e].tid) && PartOk(rules, s, e);
    LoggedStatus(s.mgr.log, s.parts[e].tid);
    ManagerSteps.OneBallot(s, e);
  }

  /** Participant consistency: no endpoint the manager entered for a transaction ever logs
      the opposite of the manager's outcome, through crashes between logging and voting,
      restarts in the uncertain state and lost decisions. */
  lemma ParticipantsConsistent(rules: Rules, s: Sys, e: nat)
    requires Reliable(rules) && !Late(rules) && Reachable(rules, s)
    requires e in s.roster && e in s.parts && s.parts[e].tid != 0
    ensures s.parts[e].wid < |s.workers| && Consistent(s, e)
  {
    ReachableInv(rules, s);
    assert TidOk(s, s.parts[e].tid) && PartOk(rules, s, e);
    LoggedStatus(s.mgr.log, s.parts[e].tid);
  }

  /** A worker logs COMMIT only after the manager has, even if it was never accepted. */
  lemma WorkerCommitsAfterManager(rules: Rules, s: Sys, e: nat)
    requires Reliable(rules) && Reachable(rules, s) && e in s.parts && s.parts[e].tid != 0
    requires s.parts[e].wid < |s.workers| && LCommit in Trace(s, e)
    ensures Logged(s.mgr.log, LCommit, s.parts[e].tid)
  {
    ReachableInv(rules, s);
    assert TidOk(s, s.parts[e].tid) && PartOk(rules, s, e);
    LoggedStatus(s.mgr.log, s.parts[e].tid);
  }

  /** Decision stability: whatever happens after a transaction is decided, the log, and with
      it every answer to a question, keeps that decision. */
  lemma {:induction false} DecisionStable(rules: Rules, s: Sys, steps: seq<Step>, tid: nat, ep: nat)
    requires Reliable(rules) && Reachable(rules, s) && Valid(rules, s, steps) && tid != 0
    requires Logged(s.mgr.log, LCommit, tid) || Logged(s.mgr.log, LAbort, tid)
    ensures var later := Run(rules, s, steps);
            && (Logged(later.mgr.log, LCommit, tid) <==> Logged(s.mgr.log, LCommit, tid))
            && (Logged(later.mgr.log, LAbort, tid) <==> Logged(s.mgr.log, LAbort, tid))
            && Answer(later.mgr.log, tid, ep) == Answer(s.mgr.log, tid, ep)
            && Answer(s.mgr.log, tid, ep) ==
                 [ToWorker(ep, if Logged(s.mgr.log, LCommit, tid) then Commit else Abort)]
  {
    var later := Run(rules, s, steps);
    ReachableInv(rules, s);
    RunKeeps(rules, s, steps);
    LogGrows(rules, s, steps);
    assert TidOk(s, tid) && TidOk(later, tid);
    LoggedStatus(s.mgr.log, tid);
    LoggedStatus(later.mgr.log, tid);
    LastOfStatus(s.mgr.log, tid);
    LastOfStatus(later.mgr.log, tid);
    var more := later.mgr.log[|s.mgr.log|..];
    assert later.mgr.log == s.mgr.log + more;
    StatusStable(s.mgr.log, more, tid);
  }

  /** Whenever the manager logs a decision, a datagram with that decision is on its way to
      every endpoint it ever entered for the transaction, and to no other. */
  lemma DecisionAnnounced(rules: Rules, s: Sys, p: Packet, again: bool, e: nat)
    requires Reliable(rules) && Reachable(rules, s) && Enabled(rules, s, ManagerReceives(p, again))
    requires p.tid != 0
    ensures var s' := Apply(rules, s, ManagerReceives(p, again));
            var sends := Handle(s.mgr, p.ep, p.mtype, p.tid).sends;
            && (s'.mgr.log == s.mgr.log + [Record(LCommit, p.tid)] ==>
                  (ToWorker(e, Commit) in sends <==> e in s.roster && e in s.parts && s.parts[e].tid == p.tid))
            && (s'.mgr.log == s.mgr.log + [Record(LAbort, p.tid)] ==>
                  (ToWorker(e, Abort) in sends <==> e in s.roster && e in s.parts && s.parts[e].tid == p.tid))
            && (forall q :: q in sends ==> q in s'.net)
  {
    ReachableInv(rules, s);
    DecisionSent(s.mgr, p.ep, p.mtype, p.tid);
    var i := Find(s.mgr.table, p.tid);
    if i < MAX_TRANSACTIONS {
      assert SlotOk(s, i);
      BroadcastReaches(s.mgr.table[i].nodes, Commit, ToWorker(e, Commit));
      BroadcastReaches(s.mgr.table[i].nodes, Abort, ToWorker(e, Abort));
    }
  }

  lemma DecisionSent(m: Mgr, ep: nat, mtype: MsgType, tid: nat)
    ensures var r, i := Handle(m, ep, mtype, tid), Find(m.table, tid);
            && (r.mgr.log == m.log + [Record(LCommit, tid)] ==>
                  i < MAX_TRANSACTIONS && r.sends == Broadcast(m.table[i].nodes, Commit))
            && (r.mgr.log == m.log + [Record(LAbort, tid)] ==>
                  i < MAX_TRANSACTIONS && r.sends == Broadcast(m.table[i].nodes, Abort))
  {
    var c, a, b := m.log + [Record(LCommit, tid)], m.log + [Record(LAbort, tid)], m.log + [Record(LBegin, tid)];
    assert c[|m.log|].kind == LCommit && a[|m.log|].kind == LAbort && b[|m.log|].kind == LBegin;
  }

  /** The manager's log is append only over every run, restarts included. */
  lemma {:induction false} LogGrows(rules: Rules, s: Sys, steps: seq<Step>)
    requires Valid(rules, s, steps)
    ensures s.mgr.log <= Run(rules, s, steps).mgr.log
    decreases |steps|
  {
    if steps != [] {
      LogGrows(rules, Apply(rules, s, steps[0]), steps[1..]);
    }
  }

  /** Vote counter: for a transaction in the table the counter is the number of nodes less
      the votes taken off, at least the number of members whose vote has not been taken off
      or who have not logged PREPARED, below the wrap-around, and zero exactly when every
      member's vote has been taken off and no endpoint is listed twice. */
  lemma VoteCounter(rules: Rules, s: Sys, i: nat)
    requires Reliable(rules) && Reachable(rules, s) && i < MAX_TRANSACTIONS && s.mgr.table[i].tid != 0
    ensures var slot := s.mgr.table[i];
            var members := Members(slot.nodes);
            && slot.nodeCount == Occupied(slot.nodes) - |s.counted * members|
            && slot.nodeCount >= |members - s.counted|
            && slot.nodeCount <= MAX_NODES
            && (slot.nodeCount == 0 <==> members <= s.counted && Occupied(slot.nodes) == |members|)
            && (forall e :: e in members && e in s.counted ==>
                  e in s.parts && s.parts[e].wid < |s.workers| && LPrepared in Trace(s, e))
  {
    ReachableInv(rules, s);
    assert SlotOk(s, i);
    var slot := s.mgr.table[i];
    var members := Members(slot.nodes);
    ManagerSteps.MembersBound(slot.nodes);
    assert members == s.counted * members + (members - s.counted);
    SubsetSize(s.counted * members, members);
    forall e | e in members && e in s.counted
      ensures e in s.parts && s.parts[e].wid < |s.workers| && LPrepared in Trace(s, e)
    {
      assert PartOk(rules, s, e);
    }
  }

  /** However many members have not logged PREPARED, the counter is at least that high, so
      it cannot reach zero before all of them have. */
  lemma CounterCoversUnprepared(rules: Rules, s: Sys, i: nat, unprepared: set<nat>)
    requires Reliable(rules) && Reachable(rules, s) && i < MAX_TRANSACTIONS && s.mgr.table[i].tid != 0
    requires forall e :: e in unprepared ==>
               && e in Members(s.mgr.table[i].nodes) && e in s.parts && s.parts[e].wid < |s.workers|
               && LPrepared !in Trace(s, e)
    ensures |unprepared| <= s.mgr.table[i].nodeCount
  {
    VoteCounter(rules, s, i);
    SubsetSize(unprepared, Members(s.mgr.table[i].nodes) - s.counted);
  }

  /** The PREPARED branch never takes a counter below zero. */
  lemma CounterNeverWraps(rules: Rules, s: Sys, p: Packet)
    requires Reliable(rules) && Reachable(rules, s) && p in s.net && p.ToManager? && p.mtype == Prepared
    requires p.tid != 0 && Find(s.mgr.table, p.tid) < MAX_TRANSACTIONS
    ensures s.mgr.table[Find(s.mgr.table, p.tid)].nodeCount > 0
  {
    ReachableInv(rules, s);
    var i := Find(s.mgr.table, p.tid);
    assert PacketOk(s, p) && SlotOk(s, i);
    ManagerSteps.CounterVote(s.mgr.table[i], s.counted, p.ep);
  }

  /** The table is a cache of the log: its transactions are distinct and begun, and a slot
      that may be recycled holds a transaction whose decision is its last record. */
  lemma TableCachesLog(rules: Rules, s: Sys, i: nat, j: nat)
    requires Reliable(rules) && Reachable(rules, s) && i < MAX_TRANSACTIONS && j < MAX_TRANSACTIONS
    requires s.mgr.table[i].tid != 0
    ensures i != j ==> s.mgr.table[i].tid != s.mgr.table[j].tid
    ensures var last := LastOf(s.mgr.log, s.mgr.table[i].tid);
            && last.Some?
            && (s.mgr.table[i].state == BeginState ==> last.value.kind == LBegin)
            && (s.mgr.table[i].state == CommitState ==> last.value.kind == LCommit)
            && (s.mgr.table[i].state == AbortState ==> last.value.kind == LAbort)
  {
    ReachableInv(rules, s);
    assert SlotOk(s, i) && TidOk(s, s.mgr.table[i].tid);
    LastOfStatus(s.mgr.log, s.mgr.table[i].tid);
  }

  /** Recycling a slot never drops an undecided transaction: whatever BEGINTX overwrites is
      empty or has its decision in the log. */
  lemma RecyclingIsSafe(rules: Rules, s: Sys, ep: nat, tid: nat, lost: nat)
    requires Reliable(rules) && Reachable(rules, s) && lost != 0
    requires Find(s.mgr.table, lost) < MAX_TRANSACTIONS
    requires Find(OnBegin(s.mgr, ep, tid).mgr.table, lost) == MAX_TRANSACTIONS
    ensures Logged(s.mgr.log, LCommit, lost) || Logged(s.mgr.log, LAbort, lost)
  {
    ReachableInv(rules, s);
    var i, k := Find(s.mgr.table, lost), FirstStop(s.mgr.table, tid);
    var after := OnBegin(s.mgr, ep, tid).mgr.table;
    assert forall j :: 0 <= j < MAX_TRANSACTIONS && j != k ==> after[j] == s.mgr.table[j];
    assert SlotOk(s, i) && TidOk(s, lost);
    LoggedStatus(s.mgr.log, lost);
  }

  lemma HandleLogs(m: Mgr, ep: nat, mtype: MsgType, tid: nat)
    ensures var log := Handle(m, ep, mtype, tid).mgr.log;
            || log == m.log || log == m.log + [Record(LCommit, tid)] || log == m.log + [Record(LAbort, tid)]
            || (log == m.log + [Record(LBegin, tid)] && LastOf(m.log, tid) == None)
  {
  }

  lemma FreshHandle(m: Mgr, ep: nat, mtype: MsgType, tid: nat)
    requires FreshBegins(m.log)
    ensures FreshBegins(Handle(m, ep, mtype, tid).mgr.log)
  {
    HandleLogs(m, ep, mtype, tid);
    FreshBeginsAppend(m.log, [Record(LCommit, tid)]);
    FreshBeginsAppend(m.log, [Record(LAbort, tid)]);
    ManagerSteps.LastOfNone(m.log, tid);
    if !Used(m.log, tid) {
      ManagerSteps.FreshBeginLogged(m.log, tid);
    }
  }

  /** Whatever the network, the workers and the users do, BEGIN is only logged for a
      transaction that is not in the log. */
  lemma FreshStep(rules: Rules, s: Sys, step: Step)
    requires FreshBegins(s.mgr.log) && Enabled(rules, s, step)
    ensures FreshBegins(Apply(rules, s, step).mgr.log)
  {
    match step
    case ManagerReceives(p, again) => FreshHandle(s.mgr, p.ep, p.mtype, p.tid);
    case RecoveryStops(k) =>
      RecoveryExactly(s.mgr.log, 0);
      FreshBeginsAppend(s.mgr.log, RecoveryAborts(s.mgr.log)[..k]);
    case ManagerRestarts =>
      RecoveryExactly(s.mgr.log, 0);
      FreshBeginsAppend(s.mgr.log, RecoveryAborts(s.mgr.log));
    case _ =>
  }

  lemma {:induction false} FreshRun(rules: Rules, s: Sys, steps: seq<Step>)
    requires FreshBegins(s.mgr.log) && Valid(rules, s, steps)
    ensures FreshBegins(Run(rules, s, steps).mgr.log)
    decreases |steps|
  {
    if steps != [] {
      FreshStep(rules, s, steps[0]);
      FreshRun(rules, Apply(rules, s, steps[0]), steps[1..]);
    }
  }

  /** Recovery from any log of any run keeps it as a prefix, aborts each undecided
      transaction exactly once and no other, and may be interrupted and repeated freely. */
  lemma RecoveryCorrect(rules: Rules, s: Sys, tid: nat, k: nat)
    requires Reachable(rules, s) && k <= |RecoveryAborts(s.mgr.log)|
    ensures var a := RecoveryAborts(s.mgr.log);
            var stopped := s.mgr.log + a[..k];
            && (Undecided(s.mgr.log, tid) <==> Record(LAbort, tid) in a)
            && AbortsOnly(s.mgr.log, a) && DistinctTids(a)
            && stopped + RecoveryAborts(stopped) == s.mgr.log + a
            && RecoveryAborts(s.mgr.log + a) == []
  {
    var n, steps :| ReachableIn(rules, n, steps, s);
    FreshRun(rules, Init(n), steps);
    RecoveryExactly(s.mgr.log, tid);
    RecoveryResumes(s.mgr.log, k);
    RecoveryIdempotent(s.mgr.log);
  }
}
