/** What can always still happen: lost outcomes are recovered by asking, nobody waits for
    ever, and a transaction that all its nodes mean to commit can be committed. */
module Progress {
  import opened Types
  import opened TxLog
  import opened Recovery
  import opened Manager
  import opened Worker
  import opened System
  import opened Invariant
  import opened Theorems
  import opened ManagerResponses
  import opened WorkerResponses
  import ManagerSteps
  import Votes

  // Runs from a state

  ghost predicate LeadsBy(rules: Rules, s: Sys, steps: seq<Step>, n: nat, s': Sys) {
    |steps| <= n && Valid(rules, s, steps) && Run(rules, s, steps) == s'
  }

  /** Some run of at most n steps leads from s to s'. */
  ghost predicate Leads(rules: Rules, s: Sys, n: nat, s': Sys) {
    exists steps :: LeadsBy(rules, s, steps, n, s')
  }

  lemma Here(rules: Rules, s: Sys)
    ensures Leads(rules, s, 0, s)
  {
    assert LeadsBy(rules, s, [], 0, s);
  }

  lemma First(rules: Rules, s: Sys, step: Step, n: nat, s': Sys)
    requires Enabled(rules, s, step) && Leads(rules, Apply(rules, s, step), n, s')
    ensures Leads(rules, s, n + 1, s')
  {
    var rest :| LeadsBy(rules, Apply(rules, s, step), rest, n, s');
    var steps := [step] + rest;
    assert steps[1..] == rest;
    assert LeadsBy(rules, s, steps, n + 1, s');
  }

  lemma FirstTwo(rules: Rules, s: Sys, a: Step, s1: Sys, b: Step, s2: Sys)
    requires Enabled(rules, s, a) && s1 == Apply(rules, s, a)
    requires Enabled(rules, s1, b) && s2 == Apply(rules, s1, b)
    ensures forall n: nat, s' :: Leads(rules, s2, n, s') ==> Leads(rules, s, n + 2, s')
  {
    forall n: nat, s' | Leads(rules, s2, n, s') ensures Leads(rules, s, n + 2, s') {
      First(rules, s1, b, n, s');
      First(rules, s, a, n + 1, s');
    }
  }

  lemma LeadsMore(rules: Rules, s: Sys, n: nat, m: nat, s': Sys)
    requires Leads(rules, s, n, s') && n <= m
    ensures Leads(rules, s, m, s')
  {
    var steps :| LeadsBy(rules, s, steps, n, s');
    assert LeadsBy(rules, s, steps, m, s');
  }

  lemma {:induction false} ValidExtends(rules: Rules, s: Sys, steps: seq<Step>, step: Step)
    requires Valid(rules, s, steps) && Enabled(rules, Run(rules, s, steps), step)
    ensures Valid(rules, s, steps + [step])
    ensures Run(rules, s, steps + [step]) == Apply(rules, Run(rules, s, steps), step)
    decreases |steps|
  {
    if steps != [] {
      assert (steps + [step])[1..] == steps[1..] + [step];
      ValidExtends(rules, Apply(rules, s, steps[0]), steps[1..], step);
    }
  }

  lemma ReachableNext(rules: Rules, s: Sys, step: Step)
    requires Reachable(rules, s) && Enabled(rules, s, step)
    ensures Reachable(rules, Apply(rules, s, step))
  {
    var n, steps :| ReachableIn(rules, n, steps, s);
    ValidExtends(rules, Init(n), steps, step);
    assert ReachableIn(rules, n, steps + [step], Apply(rules, s, step));
  }

  /** Such runs are runs of the system. */
  lemma {:induction false} LeadsReachable(rules: Rules, s: Sys, steps: seq<Step>)
    requires Reachable(rules, s) && Valid(rules, s, steps)
    ensures Reachable(rules, Run(rules, s, steps))
    decreases |steps|
  {
    if steps != [] {
      ReachableNext(rules, s, steps[0]);
      LeadsReachable(rules, Apply(rules, s, steps[0]), steps[1..]);
    }
  }

  // Asking

  /** The worker listens and waits for the outcome of a transaction. */
  predicate Waiting(s: Sys, w: nat, tid: nat) {
    && Running(s, w) && s.workers[w].active && s.workers[w].uncertain
    && s.workers[w].tid == tid
  }

  ghost predicate DecidedBy(s: Sys, kind: Kind, tid: nat) {
    Decides(kind) && Logged(s.mgr.log, kind, tid)
  }

  /** The worker has ended its participation with the manager's outcome. */
  ghost predicate Resolved(s: Sys, s': Sys, w: nat, tid: nat) {
    && w < |s.workers| == |s'.workers|
    && s'.workers[w].up && !s'.workers[w].active
    && exists kind :: DecidedBy(s', kind, tid) && s'.workers[w].log == s.workers[w].log + [Record(kind, tid)]
  }

  /** A question and its answer. */
  lemma Answers(rules: Rules, s: Sys, w: nat, kind: Kind, tid: nat) returns (s': Sys)
    requires Reliable(rules) && Reachable(rules, s) && s.mgr.up && Waiting(s, w, tid) && tid != 0
    requires DecidedBy(s, kind, tid)
    ensures Reachable(rules, s') && s'.mgr == s.mgr && s'.workers == s.workers
    ensures ToWorker(s.workers[w].ep, if kind == LCommit then Commit else Abort) in s'.net
    ensures forall n: nat, last :: Leads(rules, s', n, last) ==> Leads(rules, s, n + 2, last)
  {
    var ask := ToManager(s.workers[w].ep, Ask, tid);
    var s1 := Apply(rules, s, Asks(w));
    AsksOwn(rules, s, w);
    ReachableNext(rules, s, Asks(w));
    Told(rules, s1, kind, ask);
    s' := Apply(rules, s1, ManagerReceives(ask, false));
    ReachableNext(rules, s1, ManagerReceives(ask, false));
    FirstTwo(rules, s, Asks(w), s1, ManagerReceives(ask, false), s');
  }

  /** A question, its answer and the end of the wait. */
  lemma Asking(rules: Rules, s: Sys, w: nat, kind: Kind, tid: nat) returns (s': Sys)
    requires Reliable(rules) && Reachable(rules, s) && s.mgr.up && Waiting(s, w, tid) && tid != 0
    requires DecidedBy(s, kind, tid)
    ensures Reachable(rules, s') && Leads(rules, s, 3, s') && s'.mgr == s.mgr && Resolved(s, s', w, tid)
  {
    var s1 := Answers(rules, s, w, kind, tid);
    var answer := ToWorker(s.workers[w].ep, if kind == LCommit then Commit else Abort);
    s' := Apply(rules, s1, WorkerReceives(w, answer, false));
    ReachableNext(rules, s1, WorkerReceives(w, answer, false));
    OutcomeEnds(rules, s1, w, answer, false);
    assert DecidedBy(s', kind, tid);
    Here(rules, s');
    First(rules, s1, WorkerReceives(w, answer, false), 0, s');
  }

  lemma Told(rules: Rules, s: Sys, kind: Kind, ask: Packet)
    requires Reliable(rules) && Reachable(rules, s) && s.mgr.up && ask in s.net && ask.ToManager?
    requires ask.mtype == Ask && ask.tid != 0 && DecidedBy(s, kind, ask.tid)
    ensures var s' := Apply(rules, s, ManagerReceives(ask, false));
            && s' == s.(net := s'.net)
            && ToWorker(ask.ep, if kind == LCommit then Commit else Abort) in s'.net
  {
    QuestionAnswered(rules, s, ask, false);
  }

  // Recovery decides

  lemma {:induction false} LastLogged(log: Log, tid: nat)
    ensures LastOf(log, tid).Some? ==> Logged(log, LastOf(log, tid).value.kind, tid)
  {
    if log != [] {
      var rest, last := log[..|log| - 1], log[|log| - 1];
      LastLogged(rest, tid);
      assert log == rest + [last];
      if last.tid != tid && LastOf(rest, tid).Some? {
        LoggedAppend(rest, last, LastOf(rest, tid).value.kind, tid);
      }
    }
  }

  lemma LoggedLater(log: Log, more: Log, kind: Kind, tid: nat)
    requires Logged(log, kind, tid)
    ensures Logged(log + more, kind, tid)
  {
    var i :| 0 <= i < |log| && log[i].kind == kind && log[i].tid == tid;
    assert (log + more)[i] == log[i];
  }

  /** Recovery leaves no used transaction without a decision. */
  lemma RecoveryDecides(log: Log, tid: nat) returns (kind: Kind)
    requires FreshBegins(log) && StatusOf(log, tid) != Malformed && StatusOf(log, tid) != Unused
    ensures Decides(kind) && Logged(log + RecoveryAborts(log), kind, tid)
  {
    LoggedStatus(log, tid);
    if StatusOf(log, tid) == Begun {
      LastOfStatus(log, tid);
      LastLogged(log, tid);
      assert Undecided(log, tid);
      RecoveryExactly(log, tid);
      var a := RecoveryAborts(log);
      var i :| 0 <= i < |a| && a[i] == Record(LAbort, tid);
      assert (log + a)[|log| + i] == Record(LAbort, tid);
      kind := LAbort;
    } else {
      kind := if StatusOf(log, tid) == Committed then LCommit else LAbort;
      LoggedLater(log, RecoveryAborts(log), kind, tid);
    }
  }

  /** A transaction with an entered endpoint is in the log. */
  lemma EnteredUsed(rules: Rules, s: Sys, e: nat)
    requires Reliable(rules) && Reachable(rules, s) && e in s.roster && e in s.parts && s.parts[e].tid != 0
    ensures StatusOf(s.mgr.log, s.parts[e].tid) != Unused && StatusOf(s.mgr.log, s.parts[e].tid) != Malformed
    ensures FreshBegins(s.mgr.log)
  {
    ReachableInv(rules, s);
    assert TidOk(s, s.parts[e].tid);
  }

  /** A worker that waits was entered for its transaction. */
  lemma WaitingEntered(rules: Rules, s: Sys, w: nat, tid: nat)
    requires Reliable(rules) && Reachable(rules, s) && Waiting(s, w, tid)
    ensures var e := s.workers[w].ep; e in s.roster && e in s.parts && s.parts[e].tid == tid
  {
    Votes.ReachableVotes(rules, s);
    ReachableInv(rules, s);
    assert Votes.VoterOk(s, w) && WorkerOk(rules, s, w);
  }

  /** With the manager up again, a worker that waits can be told. */
  lemma AfterRecovery(rules: Rules, s: Sys, w: nat, tid: nat) returns (s': Sys)
    requires Reliable(rules) && Reachable(rules, s) && !s.mgr.up && Waiting(s, w, tid) && tid != 0
    ensures Reachable(rules, s') && Leads(rules, s, 4, s') && Resolved(s, s', w, tid)
  {
    WaitingEntered(rules, s, w, tid);
    EnteredUsed(rules, s, s.workers[w].ep);
    var kind := RecoveryDecides(s.mgr.log, tid);
    var s1 := Apply(rules, s, ManagerRestarts);
    ReachableNext(rules, s, ManagerRestarts);
    s' := Asking(rules, s1, w, kind, tid);
    First(rules, s, ManagerRestarts, 3, s');
  }

  lemma AfterCrash(rules: Rules, s: Sys, w: nat, tid: nat) returns (s': Sys)
    requires Reliable(rules) && Reachable(rules, s) && Waiting(s, w, tid) && tid != 0
    ensures Reachable(rules, s') && Leads(rules, s, 5, s') && Resolved(s, s', w, tid)
  {
    if s.mgr.up {
      var s1 := Apply(rules, s, ManagerCrashes);
      ReachableNext(rules, s, ManagerCrashes);
      s' := AfterRecovery(rules, s1, w, tid);
      First(rules, s, ManagerCrashes, 4, s');
    } else {
      s' := AfterRecovery(rules, s, w, tid);
      LeadsMore(rules, s, 4, 5, s');
    }
  }

  // Nobody waits for ever

  /** The worker waits, or is down and will wait for the outcome when it restarts. */
  predicate Uncertain(s: Sys, w: nat, tid: nat) {
    || Waiting(s, w, tid)
    || (w < |s.workers| && !s.workers[w].up && LastIs(s.workers[w].log, LPrepared)
        && s.workers[w].log[|s.workers[w].log| - 1].tid == tid)
  }

  /** A lost outcome is recovered: while the manager is up and has decided, a worker that
      waits, or died after its PREPARED record, comes to log the manager's decision by
      restarting and asking, within four steps that the manager's log does not notice. */
  lemma AskingRecovers(rules: Rules, s: Sys, w: nat, kind: Kind, tid: nat) returns (s': Sys)
    requires Reliable(rules) && Reachable(rules, s) && s.mgr.up && Uncertain(s, w, tid) && tid != 0
    requires DecidedBy(s, kind, tid)
    ensures Leads(rules, s, 4, s') && s'.mgr == s.mgr && Resolved(s, s', w, tid)
  {
    if Waiting(s, w, tid) {
      s' := Asking(rules, s, w, kind, tid);
      LeadsMore(rules, s, 3, 4, s');
    } else {
      var s1 := Resumes(rules, s, w, tid);
      s' := Asking(rules, s1, w, kind, tid);
      First(rules, s, WorkerRestarts(w), 3, s');
    }
  }

  lemma Resumes(rules: Rules, s: Sys, w: nat, tid: nat) returns (s': Sys)
    requires Reachable(rules, s) && Uncertain(s, w, tid) && !s.workers[w].up
    ensures Enabled(rules, s, WorkerRestarts(w)) && s' == Apply(rules, s, WorkerRestarts(w))
    ensures Reachable(rules, s') && Waiting(s', w, tid) && s'.mgr == s.mgr
    ensures |s'.workers| == |s.workers| && s'.workers[w].log == s.workers[w].log
  {
    s' := Apply(rules, s, WorkerRestarts(w));
    RestartResumes(rules, s, w);
    ReachableNext(rules, s, WorkerRestarts(w));
  }

  /** Nobody is blocked: from every state a worker that waits, or will when it restarts, can
      get the outcome within six steps, at worst after the manager has crashed, restarted
      and aborted what was undecided. */
  lemma NobodyBlocked(rules: Rules, s: Sys, w: nat, tid: nat) returns (s': Sys)
    requires Reliable(rules) && Reachable(rules, s) && Uncertain(s, w, tid) && tid != 0
    ensures Leads(rules, s, 6, s') && Resolved(s, s', w, tid)
  {
    if Waiting(s, w, tid) {
      s' := AfterCrash(rules, s, w, tid);
      LeadsMore(rules, s, 5, 6, s');
    } else {
      var s1 := Resumes(rules, s, w, tid);
      s' := AfterCrash(rules, s1, w, tid);
      First(rules, s, WorkerRestarts(w), 5, s');
    }
  }

  /** A worker that need not wait is free after at most a crash and a restart. */
  lemma Freed(rules: Rules, s: Sys, w: nat) returns (s': Sys)
    requires Reachable(rules, s) && w < |s.workers|
    requires !LastIs(s.workers[w].log, LPrepared)
    ensures Leads(rules, s, 2, s') && |s'.workers| == |s.workers| && Free(rules, s', w)
  {
    if s.workers[w].up {
      var crash := WorkerCrashes(w, s.workers[w].store);
      ReachableNext(rules, s, crash);
      s' := Restarted(rules, Apply(rules, s, crash), w);
      First(rules, s, crash, 1, s');
    } else {
      s' := Restarted(rules, s, w);
      LeadsMore(rules, s, 1, 2, s');
    }
  }

  lemma Restarted(rules: Rules, s: Sys, w: nat) returns (s': Sys)
    requires Reachable(rules, s) && w < |s.workers| && !s.workers[w].up && !LastIs(s.workers[w].log, LPrepared)
    ensures Leads(rules, s, 1, s') && |s'.workers| == |s.workers| && Free(rules, s', w)
  {
    s' := Apply(rules, s, WorkerRestarts(w));
    RestartResumes(rules, s, w);
    Here(rules, s');
    First(rules, s, WorkerRestarts(w), 0, s');
  }

  /** No worker is lost: from every state each worker can come to be free to begin or join
      another transaction within six steps. */
  lemma NoWorkerLost(rules: Rules, s: Sys, w: nat) returns (s': Sys)
    requires Reliable(rules) && Reachable(rules, s) && w < |s.workers|
    requires LastIs(s.workers[w].log, LPrepared) ==> s.workers[w].log[|s.workers[w].log| - 1].tid != 0
    ensures Leads(rules, s, 6, s') && w < |s'.workers| && Free(rules, s', w)
  {
    var log := s.workers[w].log;
    if LastIs(log, LPrepared) {
      ReachableSteady(rules, s);
      assert SteadyAt(s, w);
      var tid := log[|log| - 1].tid;
      s' := NobodyBlocked(rules, s, w, tid);
      var steps :| LeadsBy(rules, s, steps, 6, s');
      LeadsReachable(rules, s, steps);
      ReachableSteady(rules, s');
      IdleIsFree(rules, s', w);
    } else {
      s' := Freed(rules, s, w);
      LeadsMore(rules, s, 2, 6, s');
    }
  }

  // Commit

  /** Endpoint e belongs to a running worker that has yet to vote and means to commit. */
  predicate Agrees(s: Sys, e: nat, tid: nat) {
    && e in s.parts && Running(s, s.parts[e].wid)
    && var k := s.workers[s.parts[e].wid];
       k.active && !k.uncertain && k.doCommit && k.ep == e && k.tid == tid
  }

  /** All are asked to vote; those in `rest` have not answered yet. */
  ghost predicate Polled(s: Sys, tid: nat, rest: set<nat>) {
    && s.mgr.up && tid != 0 && Open(s.mgr, tid)
    && (var slot := Deal(s.mgr, tid);
        && slot.state == PrepareState && Occupied(slot.nodes) == |Members(slot.nodes)|
        && Members(slot.nodes) == Entered(s, tid))
    && rest <= Entered(s, tid)
    && (forall e :: e in Entered(s, tid) ==> (e in s.counted <==> e !in rest))
    && forall e :: e in rest ==> Agrees(s, e, tid) && ToWorker(e, PrepareToCommit) in s.net
  }

  /** One of them votes. */
  lemma OneVotes(rules: Rules, s: Sys, tid: nat, rest: set<nat>, e: nat) returns (s': Sys)
    requires Reachable(rules, s) && Polled(s, tid, rest) && e in rest
    ensures Reachable(rules, s') && Enabled(rules, s, WorkerReceives(s.parts[e].wid, ToWorker(e, PrepareToCommit), false))
    ensures s' == Apply(rules, s, WorkerReceives(s.parts[e].wid, ToWorker(e, PrepareToCommit), false))
    ensures s'.mgr == s.mgr && s'.parts == s.parts && s'.roster == s.roster && s'.counted == s.counted
    ensures ToManager(e, Prepared, tid) in s'.net
    ensures forall o :: o in rest && o != e ==> Agrees(s', o, tid) && ToWorker(o, PrepareToCommit) in s'.net
  {
    var w, p := s.parts[e].wid, ToWorker(e, PrepareToCommit);
    s' := Apply(rules, s, WorkerReceives(w, p, false));
    ReachableNext(rules, s, WorkerReceives(w, p, false));
    RequestAnswered(rules, s, w, p, false);
    forall o | o in rest && o != e ensures Agrees(s', o, tid) && ToWorker(o, PrepareToCommit) in s'.net {
      assert Agrees(s, o, tid) && Agrees(s, e, tid);
    }
  }

  /** Its vote is counted. */
  lemma OneCounts(rules: Rules, s: Sys, tid: nat, rest: set<nat>, e: nat) returns (s': Sys)
    requires Reliable(rules) && Reachable(rules, s) && s.mgr.up && tid != 0 && Open(s.mgr, tid)
    requires var slot := Deal(s.mgr, tid);
             && slot.state == PrepareState && Occupied(slot.nodes) == |Members(slot.nodes)|
             && Members(slot.nodes) == Entered(s, tid)
    requires ToManager(e, Prepared, tid) in s.net && e in rest && rest <= Entered(s, tid)
    requires forall o :: o in Entered(s, tid) ==> (o in s.counted <==> o !in rest)
    requires forall o :: o in rest && o != e ==> Agrees(s, o, tid) && ToWorker(o, PrepareToCommit) in s.net
    ensures Reachable(rules, s') && Enabled(rules, s, ManagerReceives(ToManager(e, Prepared, tid), false))
    ensures s' == Apply(rules, s, ManagerReceives(ToManager(e, Prepared, tid), false))
    ensures if rest == {e} then Logged(s'.mgr.log, LCommit, tid) else Polled(s', tid, rest - {e})
  {
    var vote := ToManager(e, Prepared, tid);
    s' := Apply(rules, s, ManagerReceives(vote, false));
    ReachableNext(rules, s, ManagerReceives(vote, false));
    VoteDecides(rules, s, vote, false);
    assert Entered(s', tid) == Entered(s, tid) && s'.workers == s.workers && s'.parts == s.parts;
    if rest == {e} {
      assert Entered(s, tid) <= s'.counted;
    } else {
      var o :| o in rest && o != e;
      assert o in Entered(s, tid) && o !in s'.counted;
      forall x | x in rest - {e} ensures Agrees(s', x, tid) && ToWorker(x, PrepareToCommit) in s'.net {
        assert Agrees(s, x, tid);
      }
    }
  }

  lemma OneLess(rest: set<nat>, e: nat, n: nat)
    requires |rest| == n + 1 && e in rest
    ensures |rest - {e}| == n && (n == 0 <==> rest == {e})
  {
    assert rest == {e} + (rest - {e});
  }

  /** One of them votes and is counted. */
  lemma OneMore(rules: Rules, s: Sys, tid: nat, rest: set<nat>, n: nat) returns (s': Sys, less: set<nat>)
    requires Reliable(rules) && Reachable(rules, s) && Polled(s, tid, rest) && |rest| == n + 1
    ensures Reachable(rules, s') && |less| == n
    ensures if n == 0 then Logged(s'.mgr.log, LCommit, tid) else Polled(s', tid, less)
    ensures forall m: nat, last :: Leads(rules, s', m, last) ==> Leads(rules, s, m + 2, last)
  {
    var e :| e in rest;
    OneLess(rest, e, n);
    less := rest - {e};
    var s1 := OneVotes(rules, s, tid, rest, e);
    assert Entered(s1, tid) == Entered(s, tid);
    s' := OneCounts(rules, s1, tid, rest, e);
    FirstTwo(rules, s, WorkerReceives(s.parts[e].wid, ToWorker(e, PrepareToCommit), false), s1,
             ManagerReceives(ToManager(e, Prepared, tid), false), s');
  }

  lemma {:induction false} AllVote(rules: Rules, s: Sys, tid: nat, rest: set<nat>, n: nat) returns (s': Sys)
    requires Reliable(rules) && Reachable(rules, s) && Polled(s, tid, rest) && |rest| == n + 1
    ensures Leads(rules, s, 2 * n + 2, s') && Logged(s'.mgr.log, LCommit, tid)
    decreases n
  {
    var mid, less := OneMore(rules, s, tid, rest, n);
    if n == 0 {
      s' := mid;
      Here(rules, s');
    } else {
      s' := AllVote(rules, mid, tid, less, n - 1);
    }
    assert Leads(rules, mid, 2 * n, s');
  }

  /** The request to commit reaches the manager and everybody is asked. */
  lemma Polls(rules: Rules, s: Sys, tid: nat, e: nat) returns (s': Sys)
    requires Reliable(rules) && Reachable(rules, s) && s.mgr.up && tid != 0 && Open(s.mgr, tid)
    requires Deal(s.mgr, tid).state == BeginState
    requires Occupied(Deal(s.mgr, tid).nodes) == |Members(Deal(s.mgr, tid).nodes)|
    requires e in Entered(s, tid) && forall o :: o in Entered(s, tid) ==> Agrees(s, o, tid)
    ensures Reachable(rules, s') && Polled(s', tid, Entered(s, tid))
    ensures forall n: nat, last :: Leads(rules, s', n, last) ==> Leads(rules, s, n + 2, last)
  {
    var w, request := s.parts[e].wid, ToManager(e, Commit, tid);
    assert Agrees(s, e, tid);
    var s1 := Apply(rules, s, Obeys(w, CommitCmd));
    CommandsObeyed(rules, s, w, CommitCmd);
    ReachableNext(rules, s, Obeys(w, CommitCmd));
    assert s.workers[w := s.workers[w]] == s.workers;
    assert Entered(s1, tid) == Entered(s, tid);
    s' := Apply(rules, s1, ManagerReceives(request, false));
    ReachableNext(rules, s1, ManagerReceives(request, false));
    AllPolled(rules, s, s1, request, s');
    FirstTwo(rules, s, Obeys(w, CommitCmd), s1, ManagerReceives(request, false), s');
  }

  lemma AllPolled(rules: Rules, s: Sys, s1: Sys, request: Packet, s': Sys)
    requires Reliable(rules) && Reachable(rules, s) && Reachable(rules, s1) && s.mgr.up
    requires s1 == s.(net := s1.net) && request.ToManager? && request.mtype == Commit && request.tid != 0
    requires Enabled(rules, s1, ManagerReceives(request, false))
    requires s' == Apply(rules, s1, ManagerReceives(request, false)) && Open(s.mgr, request.tid)
    requires Deal(s.mgr, request.tid).state == BeginState
    requires Occupied(Deal(s.mgr, request.tid).nodes) == |Members(Deal(s.mgr, request.tid).nodes)|
    requires forall o :: o in Entered(s, request.tid) ==> Agrees(s, o, request.tid)
    ensures Polled(s', request.tid, Entered(s, request.tid))
  {
    var tid := request.tid;
    CommitAsksAll(rules, s1, request, false);
    DealFacts(rules, s, tid);
    assert Entered(s1, tid) == Entered(s, tid) && Entered(s', tid) == Entered(s, tid);
    forall o | o in Entered(s, tid)
      ensures o !in s'.counted && Agrees(s', o, tid) && ToWorker(o, PrepareToCommit) in s'.net
    {
      assert Agrees(s, o, tid);
      Uncounted(rules, s, o, tid);
    }
  }

  /** Commit is possible: when all endpoints entered for an open transaction belong to
      running workers that have yet to vote and mean to commit, and none is listed twice,
      one request, one vote each and no luck but delivery lead to COMMIT in the log. */
  lemma CommitPossible(rules: Rules, s: Sys, tid: nat, e: nat) returns (s': Sys)
    requires Reliable(rules) && Reachable(rules, s) && s.mgr.up && tid != 0 && Open(s.mgr, tid)
    requires Deal(s.mgr, tid).state == BeginState
    requires Occupied(Deal(s.mgr, tid).nodes) == |Members(Deal(s.mgr, tid).nodes)|
    requires e in Entered(s, tid) && forall o :: o in Entered(s, tid) ==> Agrees(s, o, tid)
    ensures Leads(rules, s, 2 + 2 * |Entered(s, tid)|, s') && Logged(s'.mgr.log, LCommit, tid)
  {
    var all := Entered(s, tid);
    assert |all| > 0;
    var mid := Polls(rules, s, tid, e);
    s' := AfterPoll(rules, s, mid, tid, all, |all| - 1);
  }

  lemma AfterPoll(rules: Rules, s: Sys, mid: Sys, tid: nat, all: set<nat>, n: nat) returns (s': Sys)
    requires Reliable(rules) && Reachable(rules, mid) && Polled(mid, tid, all) && |all| == n + 1
    requires forall m: nat, last :: Leads(rules, mid, m, last) ==> Leads(rules, s, m + 2, last)
    ensures Leads(rules, s, 2 * n + 4, s') && Logged(s'.mgr.log, LCommit, tid)
  {
    s' := AllVote(rules, mid, tid, all, n);
    assert Leads(rules, s, (2 * n + 2) + 2, s');
  }

  lemma Uncounted(rules: Rules, s: Sys, e: nat, tid: nat)
    requires Reliable(rules) && Reachable(rules, s) && Agrees(s, e, tid)
    ensures e !in s.counted
  {
    ReachableInv(rules, s);
    assert WorkerOk(rules, s, s.parts[e].wid);
  }
}
