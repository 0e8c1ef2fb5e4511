/** The invariant that ties the manager's table and log to the messages in flight, the
    votes sent and the workers' logs, and the change lemmas that its proof is made of. */
module Invariant {
  import opened Types
  import opened TxLog
  import opened Recovery
  import opened Manager
  import opened Worker
  import opened Segments
  import opened System

  // Workers

  /** `e` is the participation whose records are at the end of worker w's log. */
  ghost predicate Current(s: Sys, w: nat, e: nat, tid: nat)
    requires w < |s.workers|
  {
    && e in s.parts
    && s.parts[e].wid == w && s.parts[e].tid == tid && s.parts[e].begun
    && s.parts[e].start == CurStart(s.workers[w].log)
  }

  /** A worker that has yet to vote has cast no vote and logged no outcome. */
  ghost predicate BeforeVote(k: Worker, ballots: seq<Ballot>) {
    var kinds := SegKinds(k.log, CurStart(k.log));
    && LPrepared !in kinds && LCommit !in kinds && (k.doCommit ==> LAbort !in kinds)
    && Ballot(k.ep, true) !in ballots && Ballot(k.ep, false) !in ballots
  }

  /** Without late commands nothing but the decision follows a PREPARED record. */
  ghost predicate Settled(k: Worker) {
    LPrepared in SegKinds(k.log, CurStart(k.log)) ==>
      && (LastIs(k.log, LPrepared) || LastIs(k.log, LCommit) || LastIs(k.log, LAbort))
      && (k.up && k.active ==> LastIs(k.log, LPrepared))
  }

  ghost predicate WorkerOk(rules: Rules, s: Sys, w: nat)
    requires w < |s.workers|
  {
    var k := s.workers[w];
    && (k.up && !k.active ==> !k.uncertain && !LastIs(k.log, LPrepared))
    && (k.up && k.active ==> Current(s, w, k.ep, k.tid) && k.port == k.ep)
    && (LastIs(k.log, LPrepared) ==> Current(s, w, k.port, k.log[|k.log| - 1].tid))
    && (k.up && k.active && !k.uncertain ==> BeforeVote(k, s.ballots))
    && (!Late(rules) ==> Settled(k))
  }

  // Participations

  ghost predicate PartPlaced(s: Sys, e: nat)
    requires e in s.parts
  {
    var p := s.parts[e];
    && e != 0 && p.wid < |s.workers|
    && (p.begun ==>
          var log := s.workers[p.wid].log;
          p.start < |log| && log[p.start].kind == LBegin && log[p.start].tid == p.tid)
  }

  ghost predicate PartOk(rules: Rules, s: Sys, e: nat)
    requires e in s.parts
  {
    && PartPlaced(s, e)
    && var trace, status := Trace(s, e), StatusOf(s.mgr.log, s.parts[e].tid);
    && (Ballot(e, true) in s.ballots ==> LPrepared in trace)
    && (Ballot(e, false) in s.ballots ==> LPrepared !in trace)
    && (s.parts[e].tid != 0 && LCommit in trace ==> status == Committed)
    && (!Late(rules) && s.parts[e].tid != 0 && LAbort in trace && LPrepared in trace ==>
          status == Aborted)
  }

  ghost predicate PartsApart(s: Sys) {
    forall e, e' ::
      (&& e in s.parts && e' in s.parts && e != e'
       && s.parts[e].begun && s.parts[e'].begun && s.parts[e].wid == s.parts[e'].wid)
      ==> s.parts[e].start != s.parts[e'].start
  }

  // History

  ghost predicate HistoryOk(s: Sys) {
    && (forall i, j :: 0 <= i < j < |s.ballots| ==> s.ballots[i].ep != s.ballots[j].ep)
    && (forall b :: b in s.ballots ==> b.ep in s.roster)
    && (forall e :: e in s.roster ==> e in s.parts)
    && (forall e :: e in s.counted ==> Ballot(e, true) in s.ballots)
  }

  // Messages in flight

  ghost predicate PacketOk(s: Sys, p: Packet) {
    && p.ep in s.parts
    && var tid := s.parts[p.ep].tid;
    && (p.ToManager? ==>
          && p.tid == tid
          && (p.mtype == Prepared ==> Ballot(p.ep, true) in s.ballots && p.ep !in s.counted)
          && (p.mtype == Abort ==> Ballot(p.ep, false) in s.ballots))
    && (p.ToWorker? ==>
          && (p.mtype == PrepareToCommit ==> p.ep in s.roster)
          && (tid != 0 && p.mtype == Commit ==> StatusOf(s.mgr.log, tid) == Committed)
          && (tid != 0 && p.mtype == Abort ==> StatusOf(s.mgr.log, tid) == Aborted))
  }

  // The manager

  ghost predicate TidOk(s: Sys, tid: nat) {
    && StatusOf(s.mgr.log, tid) != Malformed
    && (StatusOf(s.mgr.log, tid) == Unused ==>
          forall e :: e in s.roster && e in s.parts ==> s.parts[e].tid != tid)
    && (StatusOf(s.mgr.log, tid) == Committed ==>
          forall e :: e in s.roster && e in s.parts && s.parts[e].tid == tid ==> Ballot(e, true) in s.ballots)
  }

  /** The state of a slot agrees with the log. */
  ghost predicate StateOk(slot: Slot, status: Status) {
    match slot.state
    case BeginState => status == Begun
    case CommitState => status == Committed
    case AbortState => status == Aborted
    case PrepareState => status != Unused
  }

  /** The counter of a slot is the number of its nodes less the votes taken off. */
  ghost predicate CounterOk(slot: Slot, counted: set<nat>) {
    slot.nodeCount + |counted * Members(slot.nodes)| == Occupied(slot.nodes)
  }

  ghost predicate SlotOk(s: Sys, i: nat)
    requires i < MAX_TRANSACTIONS
  {
    var slot := s.mgr.table[i];
    var status := StatusOf(s.mgr.log, slot.tid);
    && (forall e :: e in Members(slot.nodes) ==> e in s.roster && e in s.parts && s.parts[e].tid == slot.tid)
    && (slot.tid != 0 ==>
          && (forall e :: e in s.roster && e in s.parts && s.parts[e].tid == slot.tid ==> e in Members(slot.nodes))
          && StateOk(slot, status)
          && CounterOk(slot, s.counted)
          && (status == Aborted ==> exists e :: e in Members(slot.nodes) && Ballot(e, false) in s.ballots)
          && (status == Committed ==> Members(slot.nodes) <= s.counted))
  }

  ghost predicate TableApart(table: Table) {
    forall i, j :: 0 <= i < j < MAX_TRANSACTIONS && table[i].tid != 0 ==> table[i].tid != table[j].tid
  }

  ghost predicate ManagerOk(s: Sys) {
    && FreshBegins(s.mgr.log)
    && TableApart(s.mgr.table)
    && (forall tid: nat :: tid != 0 ==> TidOk(s, tid))
    && (forall i: nat :: i < MAX_TRANSACTIONS ==> SlotOk(s, i))
  }

  ghost predicate Inv(rules: Rules, s: Sys) {
    && (forall w: nat :: w < |s.workers| ==> WorkerOk(rules, s, w))
    && (forall e :: e in s.parts ==> PartOk(rules, s, e))
    && PartsApart(s)
    && HistoryOk(s)
    && (forall p :: p in s.net ==> PacketOk(s, p))
    && ManagerOk(s)
  }

  lemma InitInv(rules: Rules, n: nat)
    ensures Inv(rules, Init(n))
  {
    var s := Init(n);
    assert Members(NO_NODES) == {};
  }

  // Change lemmas: worker steps

  /** s' differs from s in worker w, the messages in flight and perhaps one more ballot. */
  ghost predicate WorkerDiffers(s: Sys, s': Sys, w: nat) {
    && w < |s.workers| == |s'.workers|
    && (forall v :: 0 <= v < |s.workers| && v != w ==> s'.workers[v] == s.workers[v])
    && s'.mgr == s.mgr && s'.parts == s.parts && s'.roster == s.roster && s'.counted == s.counted
  }

  /** A ballot by an endpoint that has not voted is one more vote and no double vote. */
  ghost predicate OneMoreBallot(s: Sys, s': Sys, w: nat)
    requires w < |s.workers|
  {
    s'.ballots == s.ballots ||
    exists yes ::
      && s'.ballots == s.ballots + [Ballot(s.workers[w].ep, yes)]
      && s.workers[w].up && s.workers[w].active && !s.workers[w].uncertain
      && s.workers[w].ep in s.roster
  }

  lemma WorkerChange(rules: Rules, s: Sys, s': Sys, w: nat)
    requires Inv(rules, s) && WorkerDiffers(s, s', w) && OneMoreBallot(s, s', w)
    requires WorkerOk(rules, s', w)
    requires forall e :: e in s.parts ==> PartOk(rules, s', e)
    requires forall p :: p in s'.net ==> p in s.net || PacketOk(s', p)
    ensures Inv(rules, s')
  {
    forall b | b in s.ballots ensures b in s'.ballots {}
    assert HistoryOk(s') by {
      BallotsGrow(rules, s, s', w);
    }
    forall v: nat | v < |s'.workers| ensures WorkerOk(rules, s', v) {
      if v != w {
        OtherWorker(rules, s, s', w, v);
      }
    }
    forall p | p in s'.net ensures PacketOk(s', p) {
      if p in s.net {
        assert PacketOk(s, p);
      }
    }
    forall tid: nat | tid != 0 ensures TidOk(s', tid) {
      assert TidOk(s, tid);
    }
    forall i: nat | i < MAX_TRANSACTIONS ensures SlotOk(s', i) {
      assert SlotOk(s, i);
    }
  }

  lemma BallotsGrow(rules: Rules, s: Sys, s': Sys, w: nat)
    requires Inv(rules, s) && WorkerDiffers(s, s', w) && OneMoreBallot(s, s', w)
    ensures HistoryOk(s')
  {
    if s'.ballots != s.ballots {
      assert WorkerOk(rules, s, w);
      var ep := s.workers[w].ep;
      forall i | 0 <= i < |s.ballots| ensures s.ballots[i].ep != ep {
        assert s.ballots[i] == Ballot(s.ballots[i].ep, s.ballots[i].yes);
        assert s.ballots[i] in s.ballots;
      }
    }
  }

  lemma OtherWorker(rules: Rules, s: Sys, s': Sys, w: nat, v: nat)
    requires Inv(rules, s) && WorkerDiffers(s, s', w) && OneMoreBallot(s, s', w)
    requires v < |s.workers| && v != w
    ensures WorkerOk(rules, s', v)
  {
    assert WorkerOk(rules, s, v) && WorkerOk(rules, s, w);
  }

  /** What a step that leaves the log of a worker alone leaves alone. */
  lemma TraceSame(s: Sys, s': Sys, w: nat, e: nat)
    requires WorkerDiffers(s, s', w) && e in s.parts && PartPlaced(s, e)
    requires s'.workers[w].log == s.workers[w].log
    ensures PartPlaced(s', e) && Trace(s', e) == Trace(s, e)
  {
  }

  /** What one more record, not a BEGIN, does to every participation. */
  lemma TraceAppend(s: Sys, s': Sys, w: nat, x: Entry, e: nat)
    requires WorkerDiffers(s, s', w) && e in s.parts && PartPlaced(s, e)
    requires s'.workers[w].log == s.workers[w].log + [x] && x.kind != LBegin
    ensures PartPlaced(s', e)
    ensures var p := s.parts[e];
            Trace(s', e) == Trace(s, e) +
              if p.begun && p.wid == w && p.start == CurStart(s.workers[w].log) then {x.kind} else {}
  {
    SegAppend(s.workers[w].log, x);
  }

  /** A step that keeps the log and casts no vote keeps every participation in order. */
  lemma PartsKept(rules: Rules, s: Sys, s': Sys, w: nat)
    requires Inv(rules, s) && WorkerDiffers(s, s', w)
    requires s'.workers[w].log == s.workers[w].log && s'.ballots == s.ballots
    ensures forall e :: e in s.parts ==> PartOk(rules, s', e)
  {
    forall e | e in s.parts ensures PartOk(rules, s', e) {
      assert PartOk(rules, s, e);
      TraceSame(s, s', w, e);
    }
  }

  /** A record appended to the segment of a worker's current participation. */
  lemma PartsAppended(rules: Rules, s: Sys, s': Sys, w: nat, x: Entry)
    requires Inv(rules, s) && WorkerDiffers(s, s', w) && s'.ballots == s.ballots
    requires s'.workers[w].log == s.workers[w].log + [x] && x.kind != LBegin && x.kind != LPrepared
    requires var kinds := SegKinds(s.workers[w].log, CurStart(s.workers[w].log));
             forall e :: e in s.parts && Current(s, w, e, s.parts[e].tid) && s.parts[e].tid != 0 ==>
               var status := StatusOf(s.mgr.log, s.parts[e].tid);
               && (x.kind == LCommit ==> status == Committed)
               && (x.kind == LAbort && !Late(rules) && LPrepared in kinds ==> status == Aborted)
    ensures forall e :: e in s.parts ==> PartOk(rules, s', e)
  {
    forall e | e in s.parts ensures PartOk(rules, s', e) {
      assert PartOk(rules, s, e);
      TraceAppend(s, s', w, x, e);
      if s.parts[e].begun && s.parts[e].wid == w && s.parts[e].start == CurStart(s.workers[w].log) {
        assert Current(s, w, e, s.parts[e].tid);
      }
    }
  }

  // Change lemmas: manager steps

  /** s' differs from s in the manager, the messages in flight and what it keeps a history of. */
  ghost predicate ManagerDiffers(s: Sys, s': Sys) {
    && s'.workers == s.workers && s'.parts == s.parts && s'.ballots == s.ballots
    && s.roster <= s'.roster && s.counted <= s'.counted
    && forall tid: nat :: tid != 0 && (StatusOf(s.mgr.log, tid) == Committed || StatusOf(s.mgr.log, tid) == Aborted)
         ==> StatusOf(s'.mgr.log, tid) == StatusOf(s.mgr.log, tid)
  }

  lemma ManagerChange(rules: Rules, s: Sys, s': Sys)
    requires Inv(rules, s) && ManagerDiffers(s, s')
    requires HistoryOk(s') && ManagerOk(s')
    requires forall p :: p in s'.net ==> PacketOk(s', p)
    ensures Inv(rules, s')
  {
    forall w: nat | w < |s'.workers| ensures WorkerOk(rules, s', w) {
      assert WorkerOk(rules, s, w);
    }
    forall e | e in s'.parts ensures PartOk(rules, s', e) {
      assert PartOk(rules, s, e);
      assert Trace(s', e) == Trace(s, e);
    }
  }

  /** A packet stays in order unless its vote has just been taken off a counter. */
  lemma PacketKept(s: Sys, s': Sys, p: Packet)
    requires ManagerDiffers(s, s') && PacketOk(s, p)
    requires p.ToManager? && p.mtype == Prepared ==> p.ep !in s'.counted
    ensures PacketOk(s', p)
  {
  }
}
