/** What a worker does with each message and each command, and what it leaves alone, in any
    run whatever the network and the users do. */
module WorkerResponses {
  import opened Types
  import opened TxLog
  import opened Worker
  import opened System
  import Undo

  // An invariant of single workers

  /** A worker that has yet to vote will vote one way or the other; one that may be told the
      outcome has its own transaction at the point where a rollback stops. */
  predicate Steady(k: Worker) {
    && (k.up && !k.active ==> !k.uncertain)
    && (k.up && k.active ==> k.port == k.ep && Stop(k.log) >= 0 && k.log[Stop(k.log)].tid == k.tid)
    && (k.up && k.active && !k.uncertain ==> k.doCommit == !k.doAbort)
    && (LastIs(k.log, LPrepared) ==>
          && (k.up ==> k.active && k.uncertain)
          && Stop(k.log) >= 0 && k.log[Stop(k.log)].tid == k.log[|k.log| - 1].tid)
  }

  lemma StopAppend(log: Log, x: Entry)
    ensures Stop(log + [x]) == if Marks(x.kind) then |log| else Stop(log)
  {
    assert (log + [x])[..|log + [x]| - 1] == log;
  }

  lemma UpdateSteady(k: Worker, c: Command)
    requires Steady(k) && k.up && k.active && Updates(c)
    ensures Steady(Obey(k, c).worker)
  {
    var x := Entry(LUpdate, k.tid, k.store);
    StopAppend(k.log, x);
    var k' := Obey(k, c).worker;
    assert k' == k.(log := k.log + [x], store := k'.store);
  }

  lemma ObeySteady(k: Worker, c: Command)
    requires Steady(k) && k.up
    ensures Steady(Obey(k, c).worker)
  {
    if k.active && Updates(c) {
      UpdateSteady(k, c);
    } else if k.active && c.AbortCmd? {
      StopAppend(k.log, Record(LAbort, k.log[Stop(k.log)].tid));
    }
  }

  lemma ReactSteady(k: Worker, mtype: MsgType)
    requires Steady(k) && k.up && k.active
    ensures Steady(React(k, mtype).worker) && Steady(React(k, mtype).worker.(up := false))
  {
    StopAppend(k.log, Record(LPrepared, k.tid));
    StopAppend(k.log, Record(LCommit, k.tid));
    StopAppend(k.log, Record(LAbort, k.log[Stop(k.log)].tid));
  }

  lemma RestartSteady(k: Worker)
    requires Steady(k) && !k.up
    ensures Steady(Restart(k))
  {
  }

  lemma StartSteady(k: Worker, fresh': nat, tid: nat, mtype: MsgType)
    requires Steady(k) && k.up && !k.active
    ensures Steady(Start(k, fresh', tid, mtype).worker) && Steady(Spawn(k, fresh', tid).(up := false))
  {
    StopAppend(k.log, Record(LBegin, tid));
  }

  ghost predicate AllSteady(s: Sys) {
    forall w :: 0 <= w < |s.workers| ==> SteadyAt(s, w)
  }

  /** Every address in use or on disk was handed out. */
  predicate SteadyAt(s: Sys, w: nat)
    requires w < |s.workers|
  {
    var k := s.workers[w];
    Steady(k) && (k.log != [] ==> k.port in s.parts) && (k.up && k.active ==> k.ep in s.parts)
  }

  /** A step of worker w itself. */
  predicate OwnStep(step: Step, w: nat) {
    (Begins(step) || Acts(step)) && step.w == w
  }

  predicate Begins(step: Step) {
    step.Starts? || step.StartDies?
  }

  lemma BeginSteady(rules: Rules, s: Sys, step: Step, w: nat)
    requires Enabled(rules, s, step) && w < |s.workers| && SteadyAt(s, w) && Begins(step) && step.w == w
    ensures SteadyAt(Apply(rules, s, step), w)
  {
    StartSteady(s.workers[w], step.fresh', step.tid, if step.Starts? then step.mtype else BeginTx);
  }

  /** Outside of starts a worker keeps its address and does not lose its log. */
  lemma MovedShape(k: Worker, step: Step)
    requires Acts(step) && Steady(k)
    requires (step.WorkerReceives? || step.VoteDies? ==> k.up && k.active)
    requires step.Obeys? ==> k.up
    requires step.WorkerRestarts? ==> !k.up
    ensures var k' := Moved(k, step);
            && k'.port == k.port && (k'.log != [] ==> k.log != [])
            && (k'.up && k'.active ==> k'.ep == k'.port && k.log != [])
  {
    if step.Obeys? {
      ObeyedShape(k, step.c);
    }
  }

  lemma ObeyedShape(k: Worker, c: Command)
    ensures var k' := Obey(k, c).worker;
            && k'.port == k.port && k'.ep == k.ep && k'.up == k.up && k'.active == k.active
            && (k'.log != [] && !k.active ==> k.log != [])
  {
  }

  lemma MoveSteady(rules: Rules, s: Sys, step: Step, w: nat)
    requires Enabled(rules, s, step) && w < |s.workers| && SteadyAt(s, w) && Acts(step) && step.w == w
    ensures Steady(Apply(rules, s, step).workers[w])
  {
    var k := s.workers[w];
    match step
    case Obeys(_, c) => ObeySteady(k, c);
    case WorkerReceives(_, p, _) => ReactSteady(k, p.mtype);
    case VoteDies(_, p, _) => ReactSteady(k, p.mtype);
    case WorkerRestarts(_) => RestartSteady(k);
    case _ =>
  }

  lemma OwnSteady(rules: Rules, s: Sys, step: Step, w: nat)
    requires Enabled(rules, s, step) && w < |s.workers| && SteadyAt(s, w) && OwnStep(step, w)
    ensures SteadyAt(Apply(rules, s, step), w)
  {
    if Begins(step) {
      BeginSteady(rules, s, step, w);
    } else {
      ActsOnOne(rules, s, step);
      MovedShape(s.workers[w], step);
      MoveSteady(rules, s, step, w);
    }
  }

  lemma StepSteady(rules: Rules, s: Sys, step: Step)
    requires AllSteady(s) && Enabled(rules, s, step)
    ensures AllSteady(Apply(rules, s, step))
  {
    var s' := Apply(rules, s, step);
    forall v | 0 <= v < |s'.workers| ensures SteadyAt(s', v) {
      assert SteadyAt(s, v);
      if OwnStep(step, v) {
        OwnSteady(rules, s, step, v);
      }
    }
  }

  lemma {:induction false} RunSteady(rules: Rules, s: Sys, steps: seq<Step>)
    requires AllSteady(s) && Valid(rules, s, steps)
    ensures AllSteady(Run(rules, s, steps))
    decreases |steps|
  {
    if steps != [] {
      StepSteady(rules, s, steps[0]);
      RunSteady(rules, Apply(rules, s, steps[0]), steps[1..]);
    }
  }

  lemma ReachableSteady(rules: Rules, s: Sys)
    requires Reachable(rules, s)
    ensures AllSteady(s)
  {
    var n, steps :| ReachableIn(rules, n, steps, s);
    RunSteady(rules, Init(n), steps);
  }

  // Messages

  /** Only worker w changes, and only the message received is gone. */
  function With(s: Sys, w: nat, k: Worker, p: Packet, again: bool): Sys
    requires w < |s.workers|
  {
    s.(workers := s.workers[w := k], net := Left(s, p, again))
  }

  ghost predicate Hears(rules: Rules, s: Sys, w: nat, p: Packet, again: bool) {
    Reachable(rules, s) && Enabled(rules, s, WorkerReceives(w, p, again))
  }

  /** The request to vote gets exactly one vote: PREPARED, after it has been logged, from a
      worker that still means to commit, and ABORT from one that was told to abort. A worker
      that has voted ignores it. */
  lemma RequestAnswered(rules: Rules, s: Sys, w: nat, p: Packet, again: bool)
    requires Hears(rules, s, w, p, again) && p.mtype == PrepareToCommit
    ensures var s', k, k' := Apply(rules, s, WorkerReceives(w, p, again)), s.workers[w],
                             Apply(rules, s, WorkerReceives(w, p, again)).workers[w];
            if k.uncertain then s' == s.(net := Left(s, p, again))
            else
              && k.doCommit == !k.doAbort
              && s' == s.(workers := s.workers[w := k'],
                          net := Left(s, p, again) + {ToManager(k.ep, if k.doAbort then Abort else Prepared, k.tid)},
                          ballots := s.ballots + [Ballot(k.ep, !k.doAbort)])
              && k'.up && k'.active && k'.uncertain && k'.ep == k.ep && k'.port == k.port && k'.tid == k.tid
              && k'.store == k.store
              && k'.log == k.log + if k.doAbort then [] else [Record(LPrepared, k.tid)]
  {
    ReachableSteady(rules, s);
    assert SteadyAt(s, w);
    var k := s.workers[w];
    assert k.log + [] == k.log;
    assert s.workers[w := k] == s.workers;
    assert (set q | q in [ToManager(k.ep, Abort, k.tid)]) == {ToManager(k.ep, Abort, k.tid)};
    assert (set q | q in [ToManager(k.ep, Prepared, k.tid)]) == {ToManager(k.ep, Prepared, k.tid)};
  }

  /** An idle worker may begin or join at any address that was never handed out. */
  ghost predicate Free(rules: Rules, s: Sys, w: nat) {
    forall fresh', mtype :: fresh' != 0 && fresh' !in s.parts && (mtype == BeginTx || mtype == JoinTx) ==>
      CanStart(rules, s, w, fresh', mtype)
  }

  lemma IdleIsFree(rules: Rules, s: Sys, w: nat)
    requires AllSteady(s) && w < |s.workers| && s.workers[w].up && !s.workers[w].active
    ensures Free(rules, s, w)
  {
    forall fresh', mtype | fresh' != 0 && fresh' !in s.parts && (mtype == BeginTx || mtype == JoinTx)
      ensures CanStart(rules, s, w, fresh', mtype)
    {
      forall v | 0 <= v < |s.workers| && s.workers[v].up && s.workers[v].active
        ensures s.workers[v].ep != fresh'
      {
        assert SteadyAt(s, v);
      }
    }
  }

  /** An error ends the participation of a worker that has not voted, which is free to begin
      or join again, and means nothing to one that has. Nothing is logged or undone. */
  lemma ErrorEnds(rules: Rules, s: Sys, w: nat, p: Packet, again: bool)
    requires Hears(rules, s, w, p, again) && p.mtype == TxError
    ensures var s', k := Apply(rules, s, WorkerReceives(w, p, again)), s.workers[w];
            && s' == With(s, w, k.(active := k.uncertain), p, again)
            && (!k.uncertain ==> Free(rules, s', w))
  {
    var s' := Apply(rules, s, WorkerReceives(w, p, again));
    ReachableSteady(rules, s);
    StepSteady(rules, s, WorkerReceives(w, p, again));
    assert SteadyAt(s, w) && s.workers[w := s.workers[w]] == s.workers;
    if !s.workers[w].uncertain {
      IdleIsFree(rules, s', w);
    }
  }

  /** The outcome ends the participation: COMMIT is logged and the store stays, or the store
      is rolled back and ABORT is logged, in both cases for the worker's own transaction. */
  lemma OutcomeEnds(rules: Rules, s: Sys, w: nat, p: Packet, again: bool)
    requires Hears(rules, s, w, p, again) && (p.mtype == Commit || p.mtype == Abort)
    ensures var s', k := Apply(rules, s, WorkerReceives(w, p, again)), s.workers[w];
            && s' == With(s, w, k.(active := false, uncertain := false,
                                   store := if p.mtype == Commit then k.store else Unwind(k.log, k.store),
                                   log := k.log + [Record(if p.mtype == Commit then LCommit else LAbort, k.tid)]),
                          p, again)
            && Free(rules, s', w)
  {
    ReachableSteady(rules, s);
    StepSteady(rules, s, WorkerReceives(w, p, again));
    assert SteadyAt(s, w);
    IdleIsFree(rules, Apply(rules, s, WorkerReceives(w, p, again)), w);
  }

  /** Any other message is dropped. */
  lemma OthersDropped(rules: Rules, s: Sys, w: nat, p: Packet, again: bool)
    requires Hears(rules, s, w, p, again)
    requires p.mtype == BeginTx || p.mtype == JoinTx || p.mtype == Ask || p.mtype == Prepared
    ensures Apply(rules, s, WorkerReceives(w, p, again)) == s.(net := Left(s, p, again))
  {
    assert s.workers[w := s.workers[w]] == s.workers;
  }

  // Commands

  /** The commands that change nothing in the store: a commit request asks the manager, an
      abort undoes and logs ABORT for the own transaction, a vote to abort only changes the
      worker's mind. Without a transaction the first two do nothing. */
  lemma CommandsObeyed(rules: Rules, s: Sys, w: nat, c: Command)
    requires Reachable(rules, s) && Enabled(rules, s, Obeys(w, c)) && !Updates(c)
    ensures var s', k, k' := Apply(rules, s, Obeys(w, c)), s.workers[w], Apply(rules, s, Obeys(w, c)).workers[w];
            && s' == s.(workers := s.workers[w := k'],
                        net := s.net + if c.CommitCmd? && k.active then {ToManager(k.ep, Commit, k.tid)} else {})
            && (c.CommitCmd? ==> k' == k)
            && (c.VoteAbortCmd? ==> k' == k.(doCommit := false, doAbort := true))
            && (c.AbortCmd? && !k.active ==> k' == k)
            && (c.AbortCmd? && k.active ==>
                  k' == k.(doCommit := false, doAbort := true, store := Unwind(k.log, k.store),
                           log := k.log + [Record(LAbort, k.tid)]))
  {
    ReachableSteady(rules, s);
    assert SteadyAt(s, w);
    var k := s.workers[w];
    assert (set q | q in [ToManager(k.ep, Commit, k.tid)]) == {ToManager(k.ep, Commit, k.tid)};
    assert s.net + (set q | q in Obey(k, c).sends) ==
           s.net + if c.CommitCmd? && k.active then {ToManager(k.ep, Commit, k.tid)} else {};
  }

  predicate TellsAbort(c: Command) {
    c.AbortCmd? || c.VoteAbortCmd?
  }

  lemma {:induction false} MindAfter(k: Worker, cs: seq<Command>)
    requires k.active && !k.uncertain && k.doCommit == !k.doAbort
    ensures var k' := Undo.ObeyAll(k, cs);
            && k'.active && !k'.uncertain && k'.ep == k.ep && k'.tid == k.tid && k'.doCommit == !k'.doAbort
            && (k'.doAbort <==> k.doAbort || exists i :: 0 <= i < |cs| && TellsAbort(cs[i]))
    decreases |cs|
  {
    if cs != [] {
      MindAfter(Obey(k, cs[0]).worker, cs[1..]);
      assert forall i :: 1 <= i < |cs| ==> cs[i] == cs[1..][i - 1];
      assert (exists i :: 0 <= i < |cs| && TellsAbort(cs[i])) <==>
             TellsAbort(cs[0]) || exists i :: 0 <= i < |cs[1..]| && TellsAbort(cs[1..][i]) by {
        if i :| 0 <= i < |cs[1..]| && TellsAbort(cs[1..][i]) {
          assert TellsAbort(cs[i + 1]);
        }
        if i :| 0 <= i < |cs| && TellsAbort(cs[i]) {
          assert i > 0 ==> TellsAbort(cs[1..][i - 1]);
        }
      }
    }
  }

  /** The vote is what the users said: a worker that starts a participation, obeys any list
      of commands and is then asked votes to commit if and only if none of them was to abort
      or to vote so, and sends the vote for its transaction from the address it opened. */
  lemma VoteReflectsCommands(w: Worker, fresh': nat, tid: nat, mtype: MsgType, cs: seq<Command>)
    requires !w.active && !w.uncertain
    ensures var r := React(Undo.ObeyAll(Start(w, fresh', tid, mtype).worker, cs), PrepareToCommit);
            && (r.vote == Some(true) <==> forall i :: 0 <= i < |cs| ==> !TellsAbort(cs[i]))
            && (r.vote == Some(false) <==> exists i :: 0 <= i < |cs| && TellsAbort(cs[i]))
            && r.sends == [ToManager(fresh', if r.vote == Some(true) then Prepared else Abort, tid)]
            && r.worker.active && r.worker.uncertain
  {
    MindAfter(Start(w, fresh', tid, mtype).worker, cs);
  }

  // Starting and restarting

  /** A begin or join opens the address, sends the request for the transaction from it and
      logs BEGIN; a worker that is in a transaction already refuses. */
  lemma StartEnters(rules: Rules, s: Sys, w: nat, fresh': nat, tid: nat, mtype: MsgType)
    requires Reachable(rules, s) && Enabled(rules, s, Starts(w, fresh', tid, mtype))
    ensures var s', k := Apply(rules, s, Starts(w, fresh', tid, mtype)), s.workers[w];
            s' == s.(net := s.net + {ToManager(fresh', mtype, tid)},
                     parts := s.parts[fresh' := Part(w, tid, true, |k.log|)],
                     workers := s.workers[w := k.(active := true, tid := tid, ep := fresh', port := fresh',
                                                  doCommit := true, doAbort := false,
                                                  log := k.log + [Record(LBegin, tid)])])
  {
    ReachableSteady(rules, s);
    assert SteadyAt(s, w);
    assert (set q | q in [ToManager(fresh', mtype, tid)]) == {ToManager(fresh', mtype, tid)};
  }

  lemma StartRefused(k: Worker, fresh': nat, tid: nat, mtype: MsgType)
    ensures Start(k, fresh', tid, mtype).worker == k <==> k.active
    ensures k.active ==> Start(k, fresh', tid, mtype) == WReaction(k, [], None)
  {
    assert !k.active ==> |Start(k, fresh', tid, mtype).worker.log| == |k.log| + 1;
  }

  /** Restart: a worker that had voted to commit waits again, at the address and for the
      transaction of its vote; one whose last record is an update is rolled back and logs
      ABORT; any other finds its store as it was. Both of these are free to start again. */
  lemma RestartResumes(rules: Rules, s: Sys, w: nat)
    requires Reachable(rules, s) && Enabled(rules, s, WorkerRestarts(w))
    ensures var s', k, k' := Apply(rules, s, WorkerRestarts(w)), s.workers[w],
                             Apply(rules, s, WorkerRestarts(w)).workers[w];
            && s' == s.(workers := s.workers[w := k']) && k'.up && k'.port == k.port
            && (k'.active <==> LastIs(k.log, LPrepared)) && (k'.uncertain <==> LastIs(k.log, LPrepared))
            && (k'.active ==> k'.log == k.log && k'.store == k.store
                              && k'.ep == k.port && k'.tid == k.log[|k.log| - 1].tid)
            && (!k'.active ==> Free(rules, s', w))
            && (LastIs(k.log, LUpdate) ==> k'.log == AbortLogged(k.log) && k'.store == Unwind(k.log, k.store))
            && (!LastIs(k.log, LUpdate) ==> k'.log == k.log && k'.store == k.store)
  {
    ReachableSteady(rules, s);
    StepSteady(rules, s, WorkerRestarts(w));
    assert SteadyAt(s, w);
    if !LastIs(s.workers[w].log, LPrepared) {
      IdleIsFree(rules, Apply(rules, s, WorkerRestarts(w)), w);
    }
  }

  /** A worker that waits too long asks the manager about its own transaction. */
  lemma AsksOwn(rules: Rules, s: Sys, w: nat)
    requires Enabled(rules, s, Asks(w))
    ensures Apply(rules, s, Asks(w)) ==
            s.(net := s.net + {ToManager(s.workers[w].ep, Ask, s.workers[w].tid)})
  {
  }
}
