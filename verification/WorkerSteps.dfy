/** Every step of a worker keeps the invariant, with or without late commands, provided
    endpoints are not used again. */
module WorkerSteps {
  import opened Types
  import opened TxLog
  import opened Worker
  import opened Segments
  import opened System
  import opened Invariant

  lemma Lost(rules: Rules, s: Sys, p: Packet)
    requires Inv(rules, s)
    ensures Inv(rules, s.(net := s.net - {p}))
  {
    var s' := s.(net := s.net - {p});
    forall w: nat | w < |s'.workers| ensures WorkerOk(rules, s', w) {
      assert WorkerOk(rules, s, w);
    }
    forall e | e in s'.parts ensures PartOk(rules, s', e) {
      assert PartOk(rules, s, e);
    }
    forall q | q in s'.net ensures PacketOk(s', q) {
      assert PacketOk(s, q);
    }
    forall tid: nat | tid != 0 ensures TidOk(s', tid) {
      assert TidOk(s, tid);
    }
    forall i: nat | i < MAX_TRANSACTIONS ensures SlotOk(s', i) {
      assert SlotOk(s, i);
    }
  }

  /** The record at the end of a log is the one just appended. */
  lemma LastOfAppend(log: Log, x: Entry, kind: Kind)
    ensures LastIs(log + [x], kind) <==> x.kind == kind
  {
  }

  /** A worker whose log ends in PREPARED is either down or waiting for the decision. */
  lemma PreparedWaits(rules: Rules, s: Sys, w: nat)
    requires Inv(rules, s) && w < |s.workers| && LastIs(s.workers[w].log, LPrepared)
    ensures s.workers[w].up ==> s.workers[w].active && s.workers[w].uncertain
  {
    assert WorkerOk(rules, s, w);
    var log := s.workers[w].log;
    assert log == log[..|log| - 1] + [log[|log| - 1]];
    SegAppend(log[..|log| - 1], log[|log| - 1]);
  }

  /** Steps that keep the log, the endpoint and the vote of a worker as they are. */
  lemma Untouched(rules: Rules, s: Sys, s': Sys, w: nat)
    requires Inv(rules, s) && WorkerDiffers(s, s', w) && s'.ballots == s.ballots
    requires var k, k' := s.workers[w], s'.workers[w];
             && k'.log == k.log && k'.port == k.port
             && (k'.up ==> k.up && k'.active == k.active && k'.uncertain == k.uncertain
                           && k'.ep == k.ep && k'.tid == k.tid && (k'.doCommit ==> k.doCommit))
    requires forall p :: p in s'.net ==> p in s.net || PacketOk(s', p)
    ensures Inv(rules, s')
  {
    assert WorkerOk(rules, s, w);
    PartsKept(rules, s, s', w);
    WorkerChange(rules, s, s', w);
  }

  /** The end of a transaction thread that logs nothing, which only happens before the vote. */
  lemma ThreadEnds(rules: Rules, s: Sys, s': Sys, w: nat)
    requires Inv(rules, s) && WorkerDiffers(s, s', w) && s'.ballots == s.ballots && s'.net <= s.net
    requires s.workers[w].up && s.workers[w].active && !s.workers[w].uncertain
    requires s'.workers[w] == s.workers[w].(active := false, uncertain := false)
    ensures Inv(rules, s')
  {
    assert WorkerOk(rules, s, w);
    if LastIs(s.workers[w].log, LPrepared) {
      PreparedWaits(rules, s, w);
    }
    PartsKept(rules, s, s', w);
    WorkerChange(rules, s, s', w);
  }

  /** An UPDATE or ABORT record of an active worker that has not been told the outcome. */
  lemma ActiveLogs(rules: Rules, s: Sys, s': Sys, w: nat, x: Entry)
    requires Inv(rules, s) && WorkerDiffers(s, s', w) && s'.ballots == s.ballots && s'.net == s.net
    requires var k, k' := s.workers[w], s'.workers[w];
             && k.up && k.active && k'.log == k.log + [x]
             && (x.kind == LUpdate || (x.kind == LAbort && !k'.doCommit))
             && (LastIs(k.log, LPrepared) ==> Late(rules))
             && k' == k.(log := k'.log, store := k'.store, doCommit := k'.doCommit, doAbort := k'.doAbort)
             && (k'.doCommit ==> k.doCommit)
    ensures Inv(rules, s')
  {
    var k, k' := s.workers[w], s'.workers[w];
    assert WorkerOk(rules, s, w);
    SegAppend(k.log, x);
    assert !Late(rules) ==> LPrepared !in SegKinds(k.log, CurStart(k.log));
    PartsAppended(rules, s, s', w, x);
    WorkerChange(rules, s, s', w);
  }

  lemma UpdateKeeps(rules: Rules, s: Sys, w: nat, c: Command)
    requires Inv(rules, s) && Enabled(rules, s, Obeys(w, c)) && s.workers[w].active && Updates(c)
    ensures Inv(rules, Apply(rules, s, Obeys(w, c)))
  {
    var k := s.workers[w];
    ActiveLogs(rules, s, Apply(rules, s, Obeys(w, c)), w, Entry(LUpdate, k.tid, k.store));
  }

  lemma ObeysKeeps(rules: Rules, s: Sys, w: nat, c: Command)
    requires Inv(rules, s) && Enabled(rules, s, Obeys(w, c))
    ensures Inv(rules, Apply(rules, s, Obeys(w, c)))
  {
    var s' := Apply(rules, s, Obeys(w, c));
    var k := s.workers[w];
    assert WorkerOk(rules, s, w);
    if k.active && Updates(c) {
      UpdateKeeps(rules, s, w, c);
    } else if k.active && c.AbortCmd? {
      RollbackAppends(k.log);
      ActiveLogs(rules, s, s', w, Record(LAbort, k.log[Stop(k.log)].tid));
    } else {
      Untouched(rules, s, s', w);
    }
  }

  lemma AsksKeeps(rules: Rules, s: Sys, w: nat)
    requires Inv(rules, s) && Enabled(rules, s, Asks(w))
    ensures Inv(rules, Apply(rules, s, Asks(w)))
  {
    var s' := Apply(rules, s, Asks(w));
    assert WorkerOk(rules, s, w);
    Untouched(rules, s, s', w);
  }

  lemma CrashKeeps(rules: Rules, s: Sys, w: nat, left: Store)
    requires Inv(rules, s) && Enabled(rules, s, WorkerCrashes(w, left))
    ensures Inv(rules, Apply(rules, s, WorkerCrashes(w, left)))
  {
    Untouched(rules, s, Apply(rules, s, WorkerCrashes(w, left)), w);
  }

  /** Restart: uncertain after PREPARED, rolled back after UPDATE, idle otherwise. */
  lemma RestartKeeps(rules: Rules, s: Sys, w: nat)
    requires Inv(rules, s) && Enabled(rules, s, WorkerRestarts(w))
    ensures Inv(rules, Apply(rules, s, WorkerRestarts(w)))
  {
    var s' := Apply(rules, s, WorkerRestarts(w));
    var k, k' := s.workers[w], s'.workers[w];
    assert WorkerOk(rules, s, w);
    if LastIs(k.log, LUpdate) && Stop(k.log) >= 0 {
      RolledBack(rules, s, w);
    } else {
      assert k'.log == k.log;
      PartsKept(rules, s, s', w);
      WorkerChange(rules, s, s', w);
    }
  }

  lemma RolledBack(rules: Rules, s: Sys, w: nat)
    requires Inv(rules, s) && Enabled(rules, s, WorkerRestarts(w))
    requires LastIs(s.workers[w].log, LUpdate) && Stop(s.workers[w].log) >= 0
    ensures Inv(rules, Apply(rules, s, WorkerRestarts(w)))
  {
    var s', k := Apply(rules, s, WorkerRestarts(w)), s.workers[w];
    assert WorkerOk(rules, s, w);
    StopBounds(k.log);
    var x := Record(LAbort, k.log[Stop(k.log)].tid);
    SegAppend(k.log, x);
    LastOfAppend(k.log, x, LPrepared);
    PartsAppended(rules, s, s', w, x);
    WorkerChange(rules, s, s', w);
  }

  /** An active worker has one current participation. */
  lemma OneCurrent(rules: Rules, s: Sys, w: nat, e: nat)
    requires Inv(rules, s) && w < |s.workers| && s.workers[w].up && s.workers[w].active
    requires e in s.parts && Current(s, w, e, s.parts[e].tid)
    ensures e == s.workers[w].ep && s.parts[e].tid == s.workers[w].tid
  {
    assert WorkerOk(rules, s, w);
    assert Current(s, w, s.workers[w].ep, s.workers[w].tid);
  }

  /** A record of the manager's outcome that ends the transaction thread. */
  lemma OutcomeLogged(rules: Rules, s: Sys, s': Sys, w: nat, x: Entry)
    requires Inv(rules, s) && WorkerDiffers(s, s', w) && s'.ballots == s.ballots && s'.net <= s.net
    requires var k, k' := s.workers[w], s'.workers[w];
             && k.up && k.active && (x.kind == LCommit || x.kind == LAbort)
             && k' == k.(log := k.log + [x], store := k'.store, active := false, uncertain := false)
             && (k.tid != 0 ==> StatusOf(s.mgr.log, k.tid) == if x.kind == LCommit then Committed else Aborted)
    ensures Inv(rules, s')
  {
    var k := s.workers[w];
    assert WorkerOk(rules, s, w);
    SegAppend(k.log, x);
    LastOfAppend(k.log, x, LPrepared);
    forall e | e in s.parts && Current(s, w, e, s.parts[e].tid) ensures s.parts[e].tid == k.tid {
      OneCurrent(rules, s, w, e);
    }
    PartsAppended(rules, s, s', w, x);
    WorkerChange(rules, s, s', w);
  }

  /** A decision from the manager ends the thread with the manager's outcome in the log. */
  lemma DecisionKeeps(rules: Rules, s: Sys, w: nat, p: Packet, again: bool)
    requires Inv(rules, s) && Enabled(rules, s, WorkerReceives(w, p, again))
    requires p.mtype == Commit || p.mtype == Abort
    ensures Inv(rules, Apply(rules, s, WorkerReceives(w, p, again)))
  {
    var s' := Apply(rules, s, WorkerReceives(w, p, again));
    var k := s.workers[w];
    assert WorkerOk(rules, s, w) && PacketOk(s, p);
    RollbackAppends(k.log);
    OutcomeLogged(rules, s, s', w,
      if p.mtype == Commit then Record(LCommit, k.tid) else Record(LAbort, k.log[Stop(k.log)].tid));
  }

  /** Only the worker's current participation is touched by its vote. */
  lemma VotedParts(rules: Rules, s: Sys, s': Sys, w: nat, yes: bool)
    requires Inv(rules, s) && WorkerDiffers(s, s', w)
    requires s.workers[w].up && s.workers[w].active && !s.workers[w].uncertain
    requires s'.ballots == s.ballots || s'.ballots == s.ballots + [Ballot(s.workers[w].ep, yes)]
    requires var k, k' := s.workers[w], s'.workers[w];
             if yes then k.doCommit && k'.log == k.log + [Record(LPrepared, k.tid)] else k'.log == k.log
    ensures forall e :: e in s.parts ==> PartOk(rules, s', e)
  {
    var k := s.workers[w];
    assert WorkerOk(rules, s, w);
    assert Current(s, w, k.ep, k.tid);
    forall e | e in s.parts ensures PartOk(rules, s', e) {
      assert PartOk(rules, s, e);
      if yes {
        TraceAppend(s, s', w, Record(LPrepared, k.tid), e);
      } else {
        TraceSame(s, s', w, e);
      }
      if e == k.ep {
        assert Trace(s, e) == SegKinds(k.log, CurStart(k.log));
      } else {
        assert !(s.parts[e].begun && s.parts[e].wid == w && s.parts[e].start == CurStart(k.log));
        assert Trace(s', e) == Trace(s, e);
        assert Ballot(e, true) in s'.ballots <==> Ballot(e, true) in s.ballots;
        assert Ballot(e, false) in s'.ballots <==> Ballot(e, false) in s.ballots;
      }
    }
  }

  /** A vote: PREPARED is logged before it is sent, and after either vote the worker waits. */
  lemma VoteKeeps(rules: Rules, s: Sys, w: nat, p: Packet, again: bool)
    requires Inv(rules, s) && Enabled(rules, s, WorkerReceives(w, p, again))
    requires p.mtype == PrepareToCommit && React(s.workers[w], p.mtype).vote.Some?
    ensures Inv(rules, Apply(rules, s, WorkerReceives(w, p, again)))
  {
    var s' := Apply(rules, s, WorkerReceives(w, p, again));
    var k := s.workers[w];
    var yes := k.doCommit;
    assert WorkerOk(rules, s, w) && PacketOk(s, p);
    assert s'.ballots == s.ballots + [Ballot(k.ep, yes)];
    assert OneMoreBallot(s, s', w);
    var x := Record(LPrepared, k.tid);
    SegAppend(k.log, x);
    LastOfAppend(k.log, x, LPrepared);
    VotedParts(rules, s, s', w, yes);
    var sent := ToManager(k.ep, if yes then Prepared else Abort, k.tid);
    assert PacketOk(s', sent) by {
      assert Ballot(k.ep, yes) in s'.ballots;
    }
    WorkerChange(rules, s, s', w);
  }

  /** A crash after PREPARED is logged and before the vote is sent. */
  lemma VoteDiesKeeps(rules: Rules, s: Sys, w: nat, p: Packet, again: bool)
    requires Inv(rules, s) && Enabled(rules, s, VoteDies(w, p, again))
    ensures Inv(rules, Apply(rules, s, VoteDies(w, p, again)))
  {
    var s' := Apply(rules, s, VoteDies(w, p, again));
    var k := s.workers[w];
    assert WorkerOk(rules, s, w);
    var x := Record(LPrepared, k.tid);
    SegAppend(k.log, x);
    LastOfAppend(k.log, x, LPrepared);
    VotedParts(rules, s, s', w, true);
    WorkerChange(rules, s, s', w);
  }

  lemma ReceivesKeeps(rules: Rules, s: Sys, w: nat, p: Packet, again: bool)
    requires Inv(rules, s) && Enabled(rules, s, WorkerReceives(w, p, again))
    ensures Inv(rules, Apply(rules, s, WorkerReceives(w, p, again)))
  {
    var s' := Apply(rules, s, WorkerReceives(w, p, again));
    var k := s.workers[w];
    if p.mtype == Commit || p.mtype == Abort {
      DecisionKeeps(rules, s, w, p, again);
    } else if React(k, p.mtype).vote.Some? {
      VoteKeeps(rules, s, w, p, again);
    } else if p.mtype == TxError && !k.uncertain {
      ThreadEnds(rules, s, s', w);
    } else {
      Untouched(rules, s, s', w);
    }
  }

  // Opening an endpoint

  /** s' has one more participation, of worker w, and may have a BEGIN at the end of its log. */
  ghost predicate Opens(s: Sys, s': Sys, w: nat, ep: nat, tid: nat, begun: bool) {
    && w < |s.workers| == |s'.workers| && ep != 0 && ep !in s.parts
    && (forall v :: 0 <= v < |s.workers| && v != w ==> s'.workers[v] == s.workers[v])
    && s'.mgr == s.mgr && s'.roster == s.roster && s'.counted == s.counted && s'.ballots == s.ballots
    && s'.parts == s.parts[ep := Part(w, tid, begun, if begun then |s.workers[w].log| else 0)]
    && s'.workers[w].log == s.workers[w].log + (if begun then [Record(LBegin, tid)] else [])
  }

  lemma OpenedParts(rules: Rules, s: Sys, s': Sys, w: nat, ep: nat, tid: nat, begun: bool)
    requires Inv(rules, s) && Opens(s, s', w, ep, tid, begun)
    ensures forall e :: e in s'.parts ==> PartOk(rules, s', e)
    ensures PartsApart(s')
  {
    var log, x := s.workers[w].log, Record(LBegin, tid);
    SegAppend(log, x);
    assert !begun ==> log + [] == log;
    forall e | e in s'.parts ensures PartOk(rules, s', e) {
      if e == ep {
        assert Ballot(e, true) !in s'.ballots && Ballot(e, false) !in s'.ballots;
        SegEmpty(log, |log|);
      } else {
        assert PartOk(rules, s, e);
        assert Trace(s', e) == Trace(s, e);
      }
    }
    forall e, e' | e in s'.parts && e' in s'.parts && e != e' && s'.parts[e].begun && s'.parts[e'].begun
                   && s'.parts[e].wid == s'.parts[e'].wid
      ensures s'.parts[e].start != s'.parts[e'].start
    {
      if e != ep {
        assert PartOk(rules, s, e);
      }
      if e' != ep {
        assert PartOk(rules, s, e');
      }
    }
  }

  lemma OpenedManager(rules: Rules, s: Sys, s': Sys, w: nat, ep: nat, tid: nat, begun: bool)
    requires Inv(rules, s) && Opens(s, s', w, ep, tid, begun)
    ensures HistoryOk(s') && ManagerOk(s')
    ensures forall p :: PacketOk(s, p) ==> PacketOk(s', p)
  {
    assert ep !in s.roster;
    forall t: nat | t != 0 ensures TidOk(s', t) {
      assert TidOk(s, t);
    }
    forall i: nat | i < MAX_TRANSACTIONS ensures SlotOk(s', i) {
      assert SlotOk(s, i);
    }
  }

  lemma OpenedWorkers(rules: Rules, s: Sys, s': Sys, w: nat, ep: nat, tid: nat, begun: bool, v: nat)
    requires Inv(rules, s) && Opens(s, s', w, ep, tid, begun)
    requires v < |s.workers| && v != w
    ensures WorkerOk(rules, s', v)
  {
    assert WorkerOk(rules, s, v);
  }

  lemma StartsKeeps(rules: Rules, s: Sys, w: nat, fresh': nat, tid: nat, mtype: MsgType)
    requires !rules.reuseEndpoints && Inv(rules, s) && Enabled(rules, s, Starts(w, fresh', tid, mtype))
    ensures Inv(rules, Apply(rules, s, Starts(w, fresh', tid, mtype)))
  {
    var s' := Apply(rules, s, Starts(w, fresh', tid, mtype));
    var k := s.workers[w];
    assert WorkerOk(rules, s, w);
    assert Opens(s, s', w, fresh', tid, true);
    OpenedParts(rules, s, s', w, fresh', tid, true);
    OpenedManager(rules, s, s', w, fresh', tid, true);
    var x := Record(LBegin, tid);
    SegAppend(k.log, x);
    SegEmpty(k.log, |k.log|);
    LastOfAppend(k.log, x, LPrepared);
    assert Ballot(fresh', true) !in s'.ballots && Ballot(fresh', false) !in s'.ballots;
    assert WorkerOk(rules, s', w);
    forall v: nat | v < |s'.workers| ensures WorkerOk(rules, s', v) {
      if v != w {
        OpenedWorkers(rules, s, s', w, fresh', tid, true, v);
      }
    }
    assert PacketOk(s', ToManager(fresh', mtype, tid));
  }

  /** A worker that dies between the request to the manager and its BEGIN record. */
  lemma StartDiesKeeps(rules: Rules, s: Sys, w: nat, fresh': nat, tid: nat, mtype: MsgType)
    requires !rules.reuseEndpoints && Inv(rules, s) && Enabled(rules, s, StartDies(w, fresh', tid, mtype))
    ensures Inv(rules, Apply(rules, s, StartDies(w, fresh', tid, mtype)))
  {
    var s' := Apply(rules, s, StartDies(w, fresh', tid, mtype));
    var k := s.workers[w];
    assert WorkerOk(rules, s, w);
    assert k.log + [] == k.log;
    assert Opens(s, s', w, fresh', tid, false);
    OpenedParts(rules, s, s', w, fresh', tid, false);
    OpenedManager(rules, s, s', w, fresh', tid, false);
    assert WorkerOk(rules, s', w);
    forall v: nat | v < |s'.workers| ensures WorkerOk(rules, s', v) {
      if v != w {
        OpenedWorkers(rules, s, s', w, fresh', tid, false, v);
      }
    }
    assert PacketOk(s', ToManager(fresh', mtype, tid));
  }
}
