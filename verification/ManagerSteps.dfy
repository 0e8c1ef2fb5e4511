/** Every step of the manager keeps the invariant, provided no vote is delivered twice. */
module ManagerSteps {
  import opened Types
  import opened TxLog
  import opened Recovery
  import opened Manager
  import opened System
  import opened Invariant

  // Node lists and counters

  lemma {:induction false} OccupiedJoin(nodes: seq<nat>, k: nat, ep: nat)
    requires k < |nodes| && nodes[k] == 0 && ep != 0
    ensures Occupied(nodes[k := ep]) == Occupied(nodes) + 1
    decreases |nodes|
  {
    var rest := nodes[..|nodes| - 1];
    if k == |nodes| - 1 {
      assert nodes[k := ep][..|nodes| - 1] == rest;
    } else {
      assert nodes[k := ep][..|nodes| - 1] == rest[k := ep];
      OccupiedJoin(rest, k, ep);
    }
  }

  lemma MembersJoin(nodes: seq<nat>, k: nat, ep: nat)
    requires k < |nodes| && nodes[k] == 0 && ep != 0
    ensures Members(nodes[k := ep]) == Members(nodes) + {ep}
  {
    var more := nodes[k := ep];
    assert more[k] == ep;
    forall e | e in Members(nodes) ensures e in Members(more) {
      var j :| 0 <= j < |nodes| && nodes[j] == e;
      assert more[j] == e;
    }
  }

  /** A node list has at least as many occupied positions as members. */
  lemma {:induction false} MembersBound(nodes: seq<nat>)
    ensures |Members(nodes)| <= Occupied(nodes)
  {
    if nodes == [] {
      assert Members(nodes) == {};
    } else {
      var rest, last := nodes[..|nodes| - 1], nodes[|nodes| - 1];
      MembersBound(rest);
      assert nodes == rest + [last];
      assert Members(nodes) == Members(rest) + if last != 0 then {last} else {};
    }
  }

  lemma {:induction false} NoNodes()
    ensures Occupied(NO_NODES) == 0
    ensures Members(NO_NODES) == {}
  {
    assert forall i :: 0 <= i < |NO_NODES| ==> NO_NODES[i] == 0;
    AllFree(NO_NODES);
  }

  lemma {:induction false} AllFree(nodes: seq<nat>)
    requires forall i :: 0 <= i < |nodes| ==> nodes[i] == 0
    ensures Occupied(nodes) == 0
  {
    if nodes != [] {
      AllFree(nodes[..|nodes| - 1]);
    }
  }

  /** Taking one more vote off a counter that is in order. The counter does not wrap, and
      it reaches zero only when every member's vote has been taken off. */
  lemma CounterVote(slot: Slot, counted: set<nat>, ep: nat)
    requires CounterOk(slot, counted)
    requires ep in Members(slot.nodes) && ep !in counted
    ensures slot.nodeCount > 0 && Decrement(slot.nodeCount) == slot.nodeCount - 1
    ensures CounterOk(slot.(nodeCount := slot.nodeCount - 1), counted + {ep})
    ensures slot.nodeCount == 1 ==> Members(slot.nodes) <= counted + {ep}
  {
    var members := Members(slot.nodes);
    MembersBound(slot.nodes);
    assert (counted + {ep}) * members == counted * members + {ep};
    SubsetSize((counted + {ep}) * members, members);
  }

  // Logs and answers

  lemma {:induction false} LastOfNone(log: Log, tid: nat)
    ensures LastOf(log, tid) == None <==> !Used(log, tid)
  {
    if log != [] {
      var rest := log[..|log| - 1];
      LastOfNone(rest, tid);
      if log[|log| - 1].tid != tid {
        if Used(rest, tid) {
          var i :| 0 <= i < |rest| && rest[i].tid == tid;
          assert log[i].tid == tid;
        }
        if Used(log, tid) {
          var i :| 0 <= i < |log| && log[i].tid == tid;
          assert rest[i].tid == tid;
        }
      }
    }
  }

  /** An answer from the log is the decision in the log. */
  lemma AnswerOk(s: Sys, s': Sys, p: Packet, q: Packet)
    requires PacketOk(s, p) && p.ToManager? && s'.parts == s.parts && s'.mgr.log == s.mgr.log
    requires p.tid != 0 ==> TidOk(s, p.tid)
    requires q in Answer(s.mgr.log, p.tid, p.ep)
    ensures PacketOk(s', q)
  {
    if p.tid != 0 {
      LastOfStatus(s.mgr.log, p.tid);
    }
  }

  // One slot changes

  /** The manager handles a message of endpoint ep about transaction tid: it may replace
      slot i by one that holds tid, log a record of tid, enter or count ep. */
  ghost predicate Touches(s: Sys, s': Sys, i: nat, tid: nat, ep: nat) {
    && i < MAX_TRANSACTIONS && ep in s.parts && s.parts[ep].tid == tid
    && s'.workers == s.workers && s'.parts == s.parts && s'.ballots == s.ballots
    && s.roster <= s'.roster <= s.roster + {ep}
    && s.counted <= s'.counted <= s.counted + {ep}
    && s'.mgr.table[i].tid == tid
    && (forall j :: 0 <= j < MAX_TRANSACTIONS && j != i ==> s'.mgr.table[j] == s.mgr.table[j])
    && (s'.mgr.log == s.mgr.log || exists kind :: s'.mgr.log == s.mgr.log + [Record(kind, tid)])
  }

  lemma OtherStatus(s: Sys, s': Sys, i: nat, tid: nat, ep: nat, other: nat)
    requires Touches(s, s', i, tid, ep) && other != tid
    ensures StatusOf(s'.mgr.log, other) == StatusOf(s.mgr.log, other)
  {
    if s'.mgr.log != s.mgr.log {
      var kind :| s'.mgr.log == s.mgr.log + [Record(kind, tid)];
      StatusAppend(s.mgr.log, Record(kind, tid), other);
    }
  }

  lemma OtherSlot(s: Sys, s': Sys, i: nat, tid: nat, ep: nat, j: nat)
    requires Touches(s, s', i, tid, ep)
    requires j < MAX_TRANSACTIONS && j != i && SlotOk(s, j)
    requires tid != 0 ==> s.mgr.table[j].tid != tid
    ensures SlotOk(s', j)
  {
    var slot := s.mgr.table[j];
    if slot.tid != 0 && slot.tid != tid {
      OtherStatus(s, s', i, tid, ep, slot.tid);
      assert ep !in Members(slot.nodes);
      assert s'.counted * Members(slot.nodes) == s.counted * Members(slot.nodes);
    }
  }

  lemma OtherTid(s: Sys, s': Sys, i: nat, tid: nat, ep: nat, other: nat)
    requires Touches(s, s', i, tid, ep) && other != tid && TidOk(s, other)
    ensures TidOk(s', other)
  {
    OtherStatus(s, s', i, tid, ep, other);
  }

  /** What is left to show about a step that touches one slot. */
  lemma SlotChange(rules: Rules, s: Sys, s': Sys, i: nat, tid: nat, ep: nat)
    requires Inv(rules, s) && Touches(s, s', i, tid, ep)
    requires tid != 0 ==> forall j :: 0 <= j < MAX_TRANSACTIONS && j != i ==> s.mgr.table[j].tid != tid
    requires FreshBegins(s'.mgr.log) && HistoryOk(s') && SlotOk(s', i)
    requires tid != 0 ==> TidOk(s', tid)
    requires tid != 0 && (StatusOf(s.mgr.log, tid) == Committed || StatusOf(s.mgr.log, tid) == Aborted) ==>
               StatusOf(s'.mgr.log, tid) == StatusOf(s.mgr.log, tid)
    requires forall p :: p in s'.net ==> PacketOk(s', p) || (p in s.net && (p.ToManager? && p.mtype == Prepared ==> p.ep !in s'.counted))
    ensures Inv(rules, s')
  {
    forall other: nat | other != 0 ensures TidOk(s', other) {
      if other != tid {
        assert TidOk(s, other);
        OtherTid(s, s', i, tid, ep, other);
      }
    }
    forall j: nat | j < MAX_TRANSACTIONS ensures SlotOk(s', j) {
      if j != i {
        assert SlotOk(s, j);
        OtherSlot(s, s', i, tid, ep, j);
      }
    }
    forall other: nat | other != 0 && other != tid
      ensures StatusOf(s'.mgr.log, other) == StatusOf(s.mgr.log, other)
    {
      OtherStatus(s, s', i, tid, ep, other);
    }
    assert ManagerDiffers(s, s');
    forall p | p in s'.net ensures PacketOk(s', p) {
      if !PacketOk(s', p) {
        PacketKept(s, s', p);
      }
    }
    ManagerChange(rules, s, s');
  }

  /** A message that leaves table and log alone. */
  lemma OnlyAnswers(rules: Rules, s: Sys, s': Sys, sends: seq<Packet>)
    requires Inv(rules, s)
    requires s' == s.(net := s'.net) && forall q :: q in s'.net ==> q in s.net || q in sends
    requires forall q :: q in sends ==> PacketOk(s', q)
    ensures Inv(rules, s')
  {
    forall tid: nat | tid != 0 ensures TidOk(s', tid) {
      assert TidOk(s, tid);
    }
    forall i: nat | i < MAX_TRANSACTIONS ensures SlotOk(s', i) {
      assert SlotOk(s, i);
    }
    forall q | q in s'.net ensures PacketOk(s', q) {
      if q in s.net {
        assert PacketOk(s, q);
      }
    }
    ManagerChange(rules, s, s');
  }

  /** A manager that has lost its table: every slot is empty. */
  lemma TableLost(s: Sys)
    requires s.mgr.table == EMPTY_TABLE
    ensures TableApart(s.mgr.table)
    ensures forall i: nat :: i < MAX_TRANSACTIONS ==> SlotOk(s, i)
  {
    NoNodes();
  }

  lemma CrashKeeps(rules: Rules, s: Sys, s': Sys, sends: seq<Packet>)
    requires Inv(rules, s)
    requires s' == s.(mgr := Crashed(s.mgr), net := s'.net)
    requires forall q :: q in s'.net ==> q in s.net || q in sends
    requires forall q :: q in sends ==> PacketOk(s', q)
    ensures Inv(rules, s')
  {
    TableLost(s');
    forall tid: nat | tid != 0 ensures TidOk(s', tid) {
      assert TidOk(s, tid);
    }
    forall q | q in s'.net ensures PacketOk(s', q) {
      if q in s.net {
        PacketKept(s, s', q);
      }
    }
    ManagerChange(rules, s, s');
  }

  // The messages

  /** The slot of a nonzero transaction is the only one that holds it. */
  lemma FoundOnce(s: Sys, i: nat, tid: nat)
    requires TableApart(s.mgr.table) && i < MAX_TRANSACTIONS && s.mgr.table[i].tid == tid && tid != 0
    ensures forall j :: 0 <= j < MAX_TRANSACTIONS && j != i ==> s.mgr.table[j].tid != tid
  {
  }

  lemma FreshBeginLogged(log: Log, tid: nat)
    requires FreshBegins(log) && !Used(log, tid)
    ensures FreshBegins(log + [Record(LBegin, tid)])
  {
  }

  /** A slot taken over by a transaction that was never used before. */
  lemma BeginSlot(s: Sys, s': Sys, i: nat, p: Packet)
    requires PacketOk(s, p) && p.ToManager? && p.ep != 0 && HistoryOk(s) && Touches(s, s', i, p.tid, p.ep)
    requires s'.mgr.table[i] == NewSlot(p.tid, p.ep)
    requires s'.roster == s.roster + {p.ep} && s'.counted == s.counted
    requires StatusOf(s'.mgr.log, p.tid) == Begun
    requires p.tid != 0 ==> forall e :: e in s.roster && e in s.parts ==> s.parts[e].tid != p.tid
    ensures SlotOk(s', i) && HistoryOk(s') && TidOk(s', p.tid)
  {
    var slot := s'.mgr.table[i];
    NoNodes();
    OccupiedJoin(NO_NODES, 0, p.ep);
    MembersJoin(NO_NODES, 0, p.ep);
    assert Members(slot.nodes) == {p.ep};
    if p.tid != 0 {
      assert p.ep !in s.counted;
      assert s'.counted * {p.ep} == {};
      assert CounterOk(slot, s'.counted);
    }
  }

  lemma BeginShape(s: Sys, p: Packet, again: bool)
    requires PacketOk(s, p) && p.ToManager? && p.mtype == BeginTx && OnBegin(s.mgr, p.ep, p.tid).joined
    ensures var s', i := ApplyManager(s, p, again), FirstStop(s.mgr.table, p.tid);
            && Touches(s, s', i, p.tid, p.ep)
            && s'.mgr.table[i] == NewSlot(p.tid, p.ep)
            && s'.mgr.log == s.mgr.log + [Record(LBegin, p.tid)] && !Used(s.mgr.log, p.tid)
            && s'.roster == s.roster + {p.ep} && s'.counted == s.counted && s'.net <= s.net
  {
    LastOfNone(s.mgr.log, p.tid);
  }

  lemma BeginChange(rules: Rules, s: Sys, s': Sys, i: nat, p: Packet)
    requires Inv(rules, s) && PacketOk(s, p) && p.ToManager? && Touches(s, s', i, p.tid, p.ep)
    requires s'.mgr.table[i] == NewSlot(p.tid, p.ep)
    requires s'.mgr.log == s.mgr.log + [Record(LBegin, p.tid)] && !Used(s.mgr.log, p.tid)
    requires s'.roster == s.roster + {p.ep} && s'.counted == s.counted && s'.net <= s.net
    ensures Inv(rules, s')
  {
    assert PartOk(rules, s, p.ep);
    UsedStatus(s.mgr.log, p.tid);
    StatusAppend(s.mgr.log, Record(LBegin, p.tid), p.tid);
    FreshBeginLogged(s.mgr.log, p.tid);
    if p.tid != 0 {
      assert TidOk(s, p.tid);
      NotInTable(s, p.tid);
    }
    BeginSlot(s, s', i, p);
    forall q | q in s'.net && q.ToManager? && q.mtype == Prepared ensures q.ep !in s'.counted {
      assert PacketOk(s, q);
    }
    SlotChange(rules, s, s', i, p.tid, p.ep);
  }

  lemma BeginKeeps(rules: Rules, s: Sys, p: Packet, again: bool)
    requires Inv(rules, s) && p in s.net && p.ToManager? && p.mtype == BeginTx
    requires OnBegin(s.mgr, p.ep, p.tid).joined
    ensures Inv(rules, ApplyManager(s, p, again))
  {
    BeginShape(s, p, again);
    BeginChange(rules, s, ApplyManager(s, p, again), FirstStop(s.mgr.table, p.tid), p);
  }

  /** The table only holds transactions that are in the log. */
  lemma NotInTable(s: Sys, tid: nat)
    requires ManagerOk(s) && tid != 0 && StatusOf(s.mgr.log, tid) == Unused
    ensures forall j :: 0 <= j < MAX_TRANSACTIONS ==> s.mgr.table[j].tid != tid
  {
    forall j | 0 <= j < MAX_TRANSACTIONS ensures s.mgr.table[j].tid != tid {
      assert SlotOk(s, j);
    }
  }

  lemma CounterJoin(slot: Slot, counted: set<nat>, ep: nat)
    requires CounterOk(slot, counted) && ep != 0 && (ep in counted ==> ep in Members(slot.nodes))
    requires FirstFree(slot.nodes) < MAX_NODES
    ensures var k := FirstFree(slot.nodes);
            var slot' := slot.(nodes := slot.nodes[k := ep], nodeCount := Increment(slot.nodeCount));
            CounterOk(slot', counted)
  {
    var k, members := FirstFree(slot.nodes), Members(slot.nodes);
    OccupiedJoin(slot.nodes, k, ep);
    MembersJoin(slot.nodes, k, ep);
    assert counted * (members + {ep}) == counted * members;
  }

  /** A transaction that is still open takes one more member. */
  lemma JoinSlot(s: Sys, s': Sys, i: nat, p: Packet)
    requires PacketOk(s, p) && p.ToManager? && p.ep != 0 && HistoryOk(s) && Touches(s, s', i, p.tid, p.ep)
    requires SlotOk(s, i) && s'.mgr.log == s.mgr.log
    requires s.mgr.table[i].state == BeginState && s.mgr.table[i].tid == p.tid
    requires var slot := s.mgr.table[i]; var k := FirstFree(slot.nodes);
             && k < MAX_NODES
             && s'.mgr.table[i] == slot.(nodes := slot.nodes[k := p.ep], nodeCount := Increment(slot.nodeCount))
    requires s'.roster == s.roster + {p.ep} && s'.counted == s.counted
    ensures SlotOk(s', i) && HistoryOk(s')
  {
    var slot, slot' := s.mgr.table[i], s'.mgr.table[i];
    MembersJoin(slot.nodes, FirstFree(slot.nodes), p.ep);
    assert Members(slot'.nodes) == Members(slot.nodes) + {p.ep};
    if p.tid != 0 {
      CounterJoin(slot, s.counted, p.ep);
    }
  }

  lemma JoinChange(rules: Rules, s: Sys, s': Sys, i: nat, p: Packet)
    requires Inv(rules, s) && PacketOk(s, p) && p.ToManager? && Touches(s, s', i, p.tid, p.ep)
    requires SlotOk(s', i) && HistoryOk(s') && s'.mgr.log == s.mgr.log
    requires s.mgr.table[i].state == BeginState && s.mgr.table[i].tid == p.tid
    requires s'.counted == s.counted && s'.net <= s.net
    ensures Inv(rules, s')
  {
    assert SlotOk(s, i);
    if p.tid != 0 {
      FoundOnce(s, i, p.tid);
      assert TidOk(s, p.tid);
    }
    forall q | q in s'.net && q.ToManager? && q.mtype == Prepared ensures q.ep !in s'.counted {
      assert PacketOk(s, q);
    }
    SlotChange(rules, s, s', i, p.tid, p.ep);
  }

  lemma JoinShape(s: Sys, p: Packet, again: bool)
    requires PacketOk(s, p) && p.ToManager? && p.mtype == JoinTx && OnJoin(s.mgr, p.ep, p.tid).joined
    ensures var s', i := ApplyManager(s, p, again), Find(s.mgr.table, p.tid);
            && Touches(s, s', i, p.tid, p.ep) && s'.mgr.log == s.mgr.log
            && s.mgr.table[i].state == BeginState && s.mgr.table[i].tid == p.tid
            && s'.roster == s.roster + {p.ep} && s'.counted == s.counted && s'.net <= s.net
            && var slot := s.mgr.table[i]; var k := FirstFree(slot.nodes);
            && k < MAX_NODES
            && s'.mgr.table[i] == slot.(nodes := slot.nodes[k := p.ep], nodeCount := Increment(slot.nodeCount))
  {
  }

  lemma JoinKeeps(rules: Rules, s: Sys, p: Packet, again: bool)
    requires Inv(rules, s) && p in s.net && p.ToManager? && p.mtype == JoinTx
    requires OnJoin(s.mgr, p.ep, p.tid).joined
    ensures Inv(rules, ApplyManager(s, p, again))
  {
    var s', i := ApplyManager(s, p, again), Find(s.mgr.table, p.tid);
    assert PacketOk(s, p) && PartOk(rules, s, p.ep) && SlotOk(s, i);
    JoinShape(s, p, again);
    JoinSlot(s, s', i, p);
    JoinChange(rules, s, s', i, p);
  }

  /** Broadcasts go to endpoints that the manager entered for that transaction. */
  lemma BroadcastOk(s: Sys, s': Sys, i: nat, mtype: MsgType, q: Packet)
    requires i < MAX_TRANSACTIONS && SlotOk(s, i) && s'.parts == s.parts && s.roster <= s'.roster
    requires q in Broadcast(s.mgr.table[i].nodes, mtype)
    requires var tid := s.mgr.table[i].tid; tid != 0 ==>
               && (mtype == Commit ==> StatusOf(s'.mgr.log, tid) == Committed)
               && (mtype == Abort ==> StatusOf(s'.mgr.log, tid) == Aborted)
    ensures PacketOk(s', q)
  {
    BroadcastReaches(s.mgr.table[i].nodes, mtype, q);
  }

  lemma CommitRequestShape(s: Sys, p: Packet, again: bool)
    requires PacketOk(s, p) && p.ToManager? && p.mtype == Commit
    requires var i := Find(s.mgr.table, p.tid); i < MAX_TRANSACTIONS && s.mgr.table[i].state != PrepareState
    ensures var s', i := ApplyManager(s, p, again), Find(s.mgr.table, p.tid);
            && Touches(s, s', i, p.tid, p.ep) && s'.mgr.log == s.mgr.log && s.mgr.table[i].tid == p.tid
            && s'.mgr.table[i] == s.mgr.table[i].(state := PrepareState)
            && s'.roster == s.roster && s'.counted == s.counted
            && forall q :: q in s'.net ==> q in s.net || q in Broadcast(s.mgr.table[i].nodes, PrepareToCommit)
  {
  }

  lemma PrepareSlot(s: Sys, s': Sys, i: nat)
    requires i < MAX_TRANSACTIONS && SlotOk(s, i) && s'.mgr.log == s.mgr.log
    requires s'.mgr.table[i] == s.mgr.table[i].(state := PrepareState)
    requires s'.roster == s.roster && s'.counted == s.counted && s'.parts == s.parts && s'.ballots == s.ballots
    ensures SlotOk(s', i)
  {
  }

  lemma CommitRequestChange(rules: Rules, s: Sys, s': Sys, i: nat, p: Packet)
    requires Inv(rules, s) && PacketOk(s, p) && p.ToManager? && Touches(s, s', i, p.tid, p.ep)
    requires s'.mgr.log == s.mgr.log && s.mgr.table[i].tid == p.tid
    requires s'.mgr.table[i] == s.mgr.table[i].(state := PrepareState)
    requires s'.roster == s.roster && s'.counted == s.counted
    requires forall q :: q in s'.net ==> q in s.net || q in Broadcast(s.mgr.table[i].nodes, PrepareToCommit)
    ensures Inv(rules, s')
  {
    assert SlotOk(s, i);
    if p.tid != 0 {
      FoundOnce(s, i, p.tid);
      assert TidOk(s, p.tid);
    }
    PrepareSlot(s, s', i);
    forall q | q in s'.net
      ensures PacketOk(s', q) || (q in s.net && (q.ToManager? && q.mtype == Prepared ==> q.ep !in s'.counted))
    {
      if q in s.net {
        assert PacketOk(s, q);
      } else {
        BroadcastOk(s, s', i, PrepareToCommit, q);
      }
    }
    SlotChange(rules, s, s', i, p.tid, p.ep);
  }

  lemma CommitRequestKeeps(rules: Rules, s: Sys, p: Packet, again: bool)
    requires Inv(rules, s) && p in s.net && p.ToManager? && p.mtype == Commit
    requires var i := Find(s.mgr.table, p.tid); i < MAX_TRANSACTIONS && s.mgr.table[i].state != PrepareState
    ensures Inv(rules, ApplyManager(s, p, again))
  {
    assert PacketOk(s, p);
    CommitRequestShape(s, p, again);
    CommitRequestChange(rules, s, ApplyManager(s, p, again), Find(s.mgr.table, p.tid), p);
  }

  /** Every endpoint votes at most once. */
  lemma OneBallot(s: Sys, e: nat)
    requires HistoryOk(s)
    ensures !(Ballot(e, true) in s.ballots && Ballot(e, false) in s.ballots)
  {
  }

  lemma AbortVoteShape(s: Sys, p: Packet, again: bool)
    requires PacketOk(s, p) && p.ToManager? && p.mtype == Abort && Find(s.mgr.table, p.tid) < MAX_TRANSACTIONS
    ensures var s', i := ApplyManager(s, p, again), Find(s.mgr.table, p.tid);
            && Touches(s, s', i, p.tid, p.ep) && s.mgr.table[i].tid == p.tid
            && s'.mgr.log == s.mgr.log + [Record(LAbort, p.tid)]
            && s'.mgr.table[i] == s.mgr.table[i].(state := AbortState)
            && s'.roster == s.roster && s'.counted == s.counted
            && forall q :: q in s'.net ==> q in s.net || q in Broadcast(s.mgr.table[i].nodes, Abort)
  {
  }

  /** The ABORT branch does not look at the state, yet a committed transaction is safe from
      it: the vote to abort comes from a member, and all members of a committed transaction
      have voted the other way. */
  lemma AbortVoteStatus(s: Sys, i: nat, p: Packet)
    requires PacketOk(s, p) && p.ToManager? && p.mtype == Abort && p.tid != 0 && HistoryOk(s)
    requires TidOk(s, p.tid) && i < MAX_TRANSACTIONS && SlotOk(s, i) && s.mgr.table[i].tid == p.tid
    ensures p.ep in Members(s.mgr.table[i].nodes) && StatusOf(s.mgr.log, p.tid) != Committed
    ensures StatusOf(s.mgr.log + [Record(LAbort, p.tid)], p.tid) == Aborted
  {
    OneBallot(s, p.ep);
    assert p.ep in s.roster;
    StatusAppend(s.mgr.log, Record(LAbort, p.tid), p.tid);
  }

  lemma AbortVoteChange(rules: Rules, s: Sys, s': Sys, i: nat, p: Packet)
    requires Inv(rules, s) && PacketOk(s, p) && p.ToManager? && p.mtype == Abort
    requires Touches(s, s', i, p.tid, p.ep) && s.mgr.table[i].tid == p.tid
    requires s'.mgr.log == s.mgr.log + [Record(LAbort, p.tid)]
    requires s'.mgr.table[i] == s.mgr.table[i].(state := AbortState)
    requires s'.roster == s.roster && s'.counted == s.counted
    requires forall q :: q in s'.net ==> q in s.net || q in Broadcast(s.mgr.table[i].nodes, Abort)
    ensures Inv(rules, s')
  {
    assert SlotOk(s, i);
    FreshBeginsAppend(s.mgr.log, [Record(LAbort, p.tid)]);
    if p.tid != 0 {
      FoundOnce(s, i, p.tid);
      assert TidOk(s, p.tid);
      AbortVoteStatus(s, i, p);
    }
    assert SlotOk(s', i);
    forall q | q in s'.net
      ensures PacketOk(s', q) || (q in s.net && (q.ToManager? && q.mtype == Prepared ==> q.ep !in s'.counted))
    {
      if q in s.net {
        assert PacketOk(s, q);
      } else {
        BroadcastOk(s, s', i, Abort, q);
      }
    }
    SlotChange(rules, s, s', i, p.tid, p.ep);
  }

  lemma AbortVoteKeeps(rules: Rules, s: Sys, p: Packet, again: bool)
    requires Inv(rules, s) && p in s.net && p.ToManager? && p.mtype == Abort
    requires Find(s.mgr.table, p.tid) < MAX_TRANSACTIONS
    ensures Inv(rules, ApplyManager(s, p, again))
  {
    assert PacketOk(s, p);
    AbortVoteShape(s, p, again);
    AbortVoteChange(rules, s, ApplyManager(s, p, again), Find(s.mgr.table, p.tid), p);
  }

  /** The counter reaches zero only when all members have voted to commit, and then neither
      an abort nor an earlier commit is in the log. */
  lemma LastVote(s: Sys, i: nat, p: Packet)
    requires PacketOk(s, p) && p.ToManager? && p.mtype == Prepared && HistoryOk(s)
    requires i < MAX_TRANSACTIONS && SlotOk(s, i) && s.mgr.table[i].tid == p.tid && p.tid != 0
    requires TidOk(s, p.tid)
    ensures var slot := s.mgr.table[i];
            var left := Decrement(slot.nodeCount);
            && CounterOk(slot.(nodeCount := left), s.counted + {p.ep})
            && (left == 0 ==> Members(slot.nodes) <= s.counted + {p.ep} && StatusOf(s.mgr.log, p.tid) == Begun)
            && (StatusOf(s.mgr.log, p.tid) != Committed)
  {
    var slot := s.mgr.table[i];
    assert p.ep in s.roster;
    assert p.ep in Members(slot.nodes) && p.ep !in s.counted;
    CounterVote(slot, s.counted, p.ep);
    if StatusOf(s.mgr.log, p.tid) == Aborted {
      var e :| e in Members(slot.nodes) && Ballot(e, false) in s.ballots;
      OneBallot(s, e);
      assert Ballot(p.ep, true) in s.ballots;
      assert e !in s.counted + {p.ep};
    }
  }

  lemma VoteTaken(s: Sys, s': Sys, i: nat, p: Packet)
    requires PacketOk(s, p) && p.ToManager? && p.mtype == Prepared && HistoryOk(s)
    requires i < MAX_TRANSACTIONS && SlotOk(s, i) && s.mgr.table[i].tid == p.tid
    requires p.tid != 0 ==> TidOk(s, p.tid)
    requires Touches(s, s', i, p.tid, p.ep) && s'.roster == s.roster && s'.counted == s.counted + {p.ep}
    requires var slot, left := s.mgr.table[i], Decrement(s.mgr.table[i].nodeCount);
             && s'.mgr.table[i] == slot.(nodeCount := left, state := if left == 0 then CommitState else slot.state)
             && s'.mgr.log == s.mgr.log + if left == 0 then [Record(LCommit, p.tid)] else []
    ensures SlotOk(s', i) && HistoryOk(s')
    ensures p.tid != 0 ==> TidOk(s', p.tid) && StatusOf(s.mgr.log, p.tid) != Committed
    ensures p.tid != 0 && s'.mgr.table[i].nodeCount == 0 ==>
              StatusOf(s.mgr.log, p.tid) == Begun && StatusOf(s'.mgr.log, p.tid) == Committed
    ensures s'.mgr.table[i].nodeCount != 0 ==> s'.mgr.log == s.mgr.log
  {
    if s'.mgr.table[i].nodeCount == 0 {
      StatusAppend(s.mgr.log, Record(LCommit, p.tid), p.tid);
    } else {
      assert s.mgr.log + [] == s.mgr.log;
    }
    if p.tid != 0 {
      LastVote(s, i, p);
    }
  }

  lemma VoteChange(rules: Rules, s: Sys, s': Sys, i: nat, p: Packet)
    requires Inv(rules, s) && PacketOk(s, p) && p.ToManager? && p.mtype == Prepared
    requires Touches(s, s', i, p.tid, p.ep) && s.mgr.table[i].tid == p.tid
    requires SlotOk(s', i) && HistoryOk(s') && FreshBegins(s'.mgr.log) && s'.roster == s.roster
    requires p.tid != 0 ==> TidOk(s', p.tid) && StatusOf(s.mgr.log, p.tid) != Committed
    requires if s'.mgr.table[i].nodeCount == 0
             then p.tid != 0 ==> StatusOf(s.mgr.log, p.tid) == Begun && StatusOf(s'.mgr.log, p.tid) == Committed
             else s'.mgr.log == s.mgr.log
    requires forall q :: q in s'.net ==>
               || (q in s.net && q != p)
               || (s'.mgr.table[i].nodeCount == 0 && q in Broadcast(s.mgr.table[i].nodes, Commit))
    ensures Inv(rules, s')
  {
    assert SlotOk(s, i);
    if p.tid != 0 {
      FoundOnce(s, i, p.tid);
    }
    forall q | q in s'.net
      ensures PacketOk(s', q) || (q in s.net && (q.ToManager? && q.mtype == Prepared ==> q.ep !in s'.counted))
    {
      if q in s.net && q != p {
        assert PacketOk(s, q);
      } else {
        BroadcastOk(s, s', i, Commit, q);
      }
    }
    SlotChange(rules, s, s', i, p.tid, p.ep);
  }

  lemma PreparedShape(s: Sys, p: Packet)
    requires PacketOk(s, p) && p.ToManager? && p.mtype == Prepared && OnPrepared(s.mgr, p.ep, p.tid).counted
    ensures var s', i := ApplyManager(s, p, false), Find(s.mgr.table, p.tid);
            var left := Decrement(s.mgr.table[i].nodeCount);
            && Touches(s, s', i, p.tid, p.ep) && s.mgr.table[i].tid == p.tid
            && s'.mgr.table[i] ==
                 s.mgr.table[i].(nodeCount := left, state := if left == 0 then CommitState else s.mgr.table[i].state)
            && s'.mgr.log == s.mgr.log + (if left == 0 then [Record(LCommit, p.tid)] else [])
            && s'.roster == s.roster && s'.counted == s.counted + {p.ep}
            && forall q :: q in s'.net ==>
                 || (q in s.net && q != p)
                 || (left == 0 && q in Broadcast(s.mgr.table[i].nodes, Commit))
  {
    assert s.mgr.log + [] == s.mgr.log;
  }

  /** A vote that finds its transaction and is taken off its counter. */
  lemma PreparedKeeps(rules: Rules, s: Sys, p: Packet)
    requires Inv(rules, s) && p in s.net && p.ToManager? && p.mtype == Prepared
    requires OnPrepared(s.mgr, p.ep, p.tid).counted
    ensures Inv(rules, ApplyManager(s, p, false))
  {
    var s', i := ApplyManager(s, p, false), Find(s.mgr.table, p.tid);
    assert PacketOk(s, p) && SlotOk(s, i);
    PreparedShape(s, p);
    FreshBeginsAppend(s.mgr.log, [Record(LCommit, p.tid)]);
    assert p.tid != 0 ==> TidOk(s, p.tid);
    VoteTaken(s, s', i, p);
    VoteChange(rules, s, s', i, p);
  }

  // All messages

  /** The messages that change neither table nor log, or only end the process. */
  lemma AnswerKeeps(rules: Rules, s: Sys, p: Packet, again: bool)
    requires Inv(rules, s) && p in s.net && p.ToManager?
    requires var r := Handle(s.mgr, p.ep, p.mtype, p.tid);
             && !r.joined && !r.counted && (r.mgr == s.mgr || r.mgr == Crashed(s.mgr))
             && forall q :: q in r.sends ==> q in Answer(s.mgr.log, p.tid, p.ep) || q == ToWorker(p.ep, TxError)
    ensures Inv(rules, ApplyManager(s, p, again))
  {
    var s' := ApplyManager(s, p, again);
    var r := Handle(s.mgr, p.ep, p.mtype, p.tid);
    assert PacketOk(s, p);
    assert p.tid != 0 ==> TidOk(s, p.tid);
    forall q | q in r.sends ensures PacketOk(s', q) {
      if q in Answer(s.mgr.log, p.tid, p.ep) {
        AnswerOk(s, s', p, q);
      }
    }
    if r.mgr == s.mgr {
      OnlyAnswers(rules, s, s', r.sends);
    } else {
      CrashKeeps(rules, s, s', r.sends);
    }
  }

  lemma ReceiveKeeps(rules: Rules, s: Sys, p: Packet, again: bool)
    requires !rules.dupVotes && Inv(rules, s) && Enabled(rules, s, ManagerReceives(p, again))
    ensures Inv(rules, ApplyManager(s, p, again))
  {
    var r := Handle(s.mgr, p.ep, p.mtype, p.tid);
    if p.mtype == BeginTx && r.joined {
      BeginKeeps(rules, s, p, again);
    } else if p.mtype == JoinTx && r.joined {
      JoinKeeps(rules, s, p, again);
    } else if p.mtype == Prepared && r.counted {
      PreparedKeeps(rules, s, p);
    } else if p.mtype == Abort && Find(s.mgr.table, p.tid) < MAX_TRANSACTIONS {
      AbortVoteKeeps(rules, s, p, again);
    } else if p.mtype == Commit && r.mgr != s.mgr {
      CommitRequestKeeps(rules, s, p, again);
    } else {
      AnswerKeeps(rules, s, p, again);
    }
  }

  // Recovery

  /** Recovery turns undecided transactions into aborted ones and changes nothing else. */
  lemma {:induction false} RecoveryStatus(log: Log, k: nat, tid: nat)
    requires FreshBegins(log) && k <= |RecoveryAborts(log)|
    requires StatusOf(log, tid) != Malformed
    ensures var log' := log + RecoveryAborts(log)[..k];
            StatusOf(log', tid) == StatusOf(log, tid) ||
            (StatusOf(log, tid) == Begun && StatusOf(log', tid) == Aborted)
    decreases k
  {
    var a := RecoveryAborts(log);
    if k == 0 {
      assert log + a[..0] == log;
    } else {
      RecoveryStatus(log, k - 1, tid);
      RecoveryExactly(log, a[k - 1].tid);
      assert log + a[..k] == (log + a[..k - 1]) + [a[k - 1]];
      StatusAppend(log + a[..k - 1], a[k - 1], tid);
      if a[k - 1].tid == tid {
        assert Undecided(log, tid);
        UndecidedBegun(log, tid);
        if StatusOf(log + a[..k - 1], tid) == Aborted {
          assert StatusOf(log + a[..k], tid) == Aborted;
        }
      }
    }
  }

  lemma UndecidedBegun(log: Log, tid: nat)
    requires StatusOf(log, tid) != Malformed && Undecided(log, tid)
    ensures StatusOf(log, tid) == Begun
  {
    LoggedStatus(log, tid);
    UsedStatus(log, tid);
    if Logged(log, LCommit, tid) || Logged(log, LAbort, tid) {
      var i :| 0 <= i < |log| && log[i].tid == tid && Decides(log[i].kind);
      assert false;
    }
  }

  lemma RecoverKeeps(rules: Rules, s: Sys, up: bool, k: nat)
    requires Inv(rules, s) && k <= |RecoveryAborts(s.mgr.log)|
    ensures Inv(rules, s.(mgr := Mgr(up, s.mgr.log + RecoveryAborts(s.mgr.log)[..k], EMPTY_TABLE)))
  {
    var a := RecoveryAborts(s.mgr.log);
    var s' := s.(mgr := Mgr(up, s.mgr.log + a[..k], EMPTY_TABLE));
    TableLost(s');
    RecoveryExactly(s.mgr.log, 0);
    FreshBeginsAppend(s.mgr.log, a[..k]);
    forall tid: nat | tid != 0
      ensures TidOk(s', tid)
      ensures StatusOf(s.mgr.log, tid) != Begun ==> StatusOf(s'.mgr.log, tid) == StatusOf(s.mgr.log, tid)
    {
      assert TidOk(s, tid);
      RecoveryStatus(s.mgr.log, k, tid);
    }
    assert ManagerDiffers(s, s');
    forall q | q in s'.net ensures PacketOk(s', q) {
      PacketKept(s, s', q);
    }
    ManagerChange(rules, s, s');
  }
}
