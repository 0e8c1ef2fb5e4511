/** What the manager does with each message, stated in terms of the log, the votes and the
    endpoints entered: for every message that reaches it in any run, exactly which record is
    logged, which datagrams go out and what becomes of the transaction. */
module ManagerResponses {
  import opened Types
  import opened TxLog
  import opened Manager
  import opened System
  import opened Invariant
  import opened Theorems
  import ManagerSteps

  function ToAll(es: set<nat>, mtype: MsgType): set<Packet> {
    set e | e in es :: ToWorker(e, mtype)
  }

  /** The endpoints ever entered for a transaction. */
  function Entered(s: Sys, tid: nat): set<nat> {
    set e | e in s.roster && e in s.parts && s.parts[e].tid == tid
  }

  /** The manager has the transaction in its table. */
  predicate Open(m: Mgr, tid: nat) {
    exists i :: 0 <= i < MAX_TRANSACTIONS && m.table[i].tid == tid
  }

  lemma FindsOpen(m: Mgr, tid: nat)
    ensures Open(m, tid) <==> Find(m.table, tid) < MAX_TRANSACTIONS
  {
    if Find(m.table, tid) < MAX_TRANSACTIONS {
      assert m.table[Find(m.table, tid)].tid == tid;
    }
  }

  function Deal(m: Mgr, tid: nat): Slot
    requires Open(m, tid)
  {
    FindsOpen(m, tid);
    m.table[Find(m.table, tid)]
  }

  /** Nothing changes for any other transaction. */
  ghost predicate OthersSame(m: Mgr, m': Mgr, tid: nat) {
    forall t :: t != tid && t != 0 ==> Same(m, m', t)
  }

  predicate Same(m: Mgr, m': Mgr, t: nat) {
    (Open(m', t) <==> Open(m, t)) && (Open(m, t) ==> Deal(m', t) == Deal(m, t))
  }

  /** A message about a nonzero transaction reaches the manager in some run. */
  ghost predicate Heard(rules: Rules, s: Sys, p: Packet, again: bool) {
    Reliable(rules) && Reachable(rules, s) && Enabled(rules, s, ManagerReceives(p, again)) && p.tid != 0
  }

  // The table

  lemma Updated(m: Mgr, m': Mgr, i: nat, slot: Slot)
    requires i < MAX_TRANSACTIONS && slot.tid == m.table[i].tid && i == Find(m.table, slot.tid)
    requires m'.table == m.table[i := slot]
    ensures Open(m', slot.tid) && Deal(m', slot.tid) == slot && OthersSame(m, m', slot.tid)
  {
    forall t ensures Find(m'.table, t) == Find(m.table, t) {
      var k, k' := Find(m.table, t), Find(m'.table, t);
      assert forall j :: 0 <= j < MAX_TRANSACTIONS ==> m'.table[j].tid == m.table[j].tid;
    }
    FindsOpen(m', slot.tid);
    forall t | t != slot.tid && t != 0 ensures Same(m, m', t) {
      FindsOpen(m, t);
      FindsOpen(m', t);
    }
  }

  /** The node list of a transaction in the table is the endpoints entered for it. */
  lemma DealFacts(rules: Rules, s: Sys, tid: nat)
    requires Reliable(rules) && Reachable(rules, s) && tid != 0 && Open(s.mgr, tid)
    ensures Find(s.mgr.table, tid) < MAX_TRANSACTIONS && Deal(s.mgr, tid).tid == tid
    ensures Members(Deal(s.mgr, tid).nodes) == Entered(s, tid)
    ensures SlotOk(s, Find(s.mgr.table, tid)) && TidOk(s, tid)
  {
    ReachableInv(rules, s);
    FindsOpen(s.mgr, tid);
    assert SlotOk(s, Find(s.mgr.table, tid)) && TidOk(s, tid);
  }

  lemma {:induction false} BroadcastSet(nodes: seq<nat>, mtype: MsgType)
    ensures (set q | q in Broadcast(nodes, mtype)) == ToAll(Members(nodes), mtype)
  {
    var sent := set q | q in Broadcast(nodes, mtype);
    var want := ToAll(Members(nodes), mtype);
    forall q ensures q in sent <==> q in want {
      BroadcastReaches(nodes, mtype, q);
    }
  }

  // Votes

  /** Every member's vote is in, and no endpoint is listed twice. */
  predicate AllIn(slot: Slot, counted: set<nat>) {
    Members(slot.nodes) <= counted && Occupied(slot.nodes) == |Members(slot.nodes)|
  }

  /** A counter that is in order is at zero exactly when all votes are in. */
  lemma ZeroIsAllIn(slot: Slot, counted: set<nat>)
    requires CounterOk(slot, counted)
    ensures slot.nodeCount == 0 <==> AllIn(slot, counted)
  {
    var members := Members(slot.nodes);
    ManagerSteps.MembersBound(slot.nodes);
    SubsetSize(counted * members, members);
    if members <= counted {
      assert counted * members == members;
    }
  }

  /** The vote counts: a PREPARED vote for an open transaction is taken off its counter, and
      COMMIT is logged and sent to every endpoint entered exactly when with this vote all
      members' votes are in and none is listed twice. */
  lemma VoteDecides(rules: Rules, s: Sys, p: Packet, again: bool)
    requires Heard(rules, s, p, again) && p.mtype == Prepared
    requires Open(s.mgr, p.tid) && Deal(s.mgr, p.tid).state != AbortState
    ensures var s', slot := Apply(rules, s, ManagerReceives(p, again)), Deal(s.mgr, p.tid);
            var last := AllIn(slot, s'.counted);
            && p.ep !in s.counted && s'.counted == s.counted + {p.ep} && s'.roster == s.roster
            && (Logged(s'.mgr.log, LCommit, p.tid) <==> last)
            && s'.mgr.log == s.mgr.log + (if last then [Record(LCommit, p.tid)] else [])
            && s'.net == Left(s, p, again) + (if last then ToAll(Entered(s, p.tid), Commit) else {})
            && s'.mgr.up && Open(s'.mgr, p.tid) && OthersSame(s.mgr, s'.mgr, p.tid) && slot.nodeCount > 0
            && Deal(s'.mgr, p.tid) ==
                 slot.(nodeCount := slot.nodeCount - 1, state := if last then CommitState else slot.state)
  {
    VoteInFlight(rules, s, p);
    var s', i := ApplyManager(s, p, again), Find(s.mgr.table, p.tid);
    var slot := s.mgr.table[i];
    VoteShape(s, p, again);
    LoggedAppend(s.mgr.log, Record(LCommit, p.tid), LCommit, p.tid);
    Updated(s.mgr, s'.mgr, i, s'.mgr.table[i]);
    assert s.mgr.log + [] == s.mgr.log;
  }

  /** The counter of a transaction meets one more vote. */
  lemma VoteInFlight(rules: Rules, s: Sys, p: Packet)
    requires Reliable(rules) && Reachable(rules, s) && p in s.net && p.ToManager? && p.mtype == Prepared
    requires p.tid != 0 && Open(s.mgr, p.tid)
    ensures var slot := Deal(s.mgr, p.tid);
            && Find(s.mgr.table, p.tid) < MAX_TRANSACTIONS && slot.tid == p.tid
            && Members(slot.nodes) == Entered(s, p.tid)
            && p.ep !in s.counted && slot.nodeCount > 0 && !Logged(s.mgr.log, LCommit, p.tid)
            && (slot.nodeCount == 1 <==> AllIn(slot, s.counted + {p.ep}))
  {
    var i := Find(s.mgr.table, p.tid);
    DealFacts(rules, s, p.tid);
    ReachableInv(rules, s);
    assert PacketOk(s, p);
    var slot := s.mgr.table[i];
    ManagerSteps.LastVote(s, i, p);
    ManagerSteps.CounterVote(slot, s.counted, p.ep);
    ZeroIsAllIn(slot.(nodeCount := slot.nodeCount - 1), s.counted + {p.ep});
    LoggedStatus(s.mgr.log, p.tid);
  }

  /** What the branch does, in terms of the counter. */
  lemma VoteShape(s: Sys, p: Packet, again: bool)
    requires p.ToManager? && p.mtype == Prepared && s.mgr.up && Find(s.mgr.table, p.tid) < MAX_TRANSACTIONS
    requires var slot := s.mgr.table[Find(s.mgr.table, p.tid)]; slot.state != AbortState && slot.nodeCount > 0
    ensures var s', i := ApplyManager(s, p, again), Find(s.mgr.table, p.tid);
            var slot := s.mgr.table[i];
            && s'.counted == s.counted + {p.ep} && s'.roster == s.roster && s'.mgr.up
            && s'.mgr.table == s.mgr.table[i := slot.(nodeCount := slot.nodeCount - 1,
                                                      state := if slot.nodeCount == 1 then CommitState else slot.state)]
            && s'.mgr.log == s.mgr.log + (if slot.nodeCount == 1 then [Record(LCommit, p.tid)] else [])
            && s'.net == Left(s, p, again) + if slot.nodeCount == 1 then ToAll(Members(slot.nodes), Commit) else {}
  {
    var slot := s.mgr.table[Find(s.mgr.table, p.tid)];
    BroadcastSet(slot.nodes, Commit);
    assert s.mgr.log + [] == s.mgr.log;
  }

  /** A vote for a transaction that the table has as aborted is answered with an error. */
  lemma VoteRefused(rules: Rules, s: Sys, p: Packet, again: bool)
    requires Heard(rules, s, p, again) && p.mtype == Prepared
    requires Open(s.mgr, p.tid) && Deal(s.mgr, p.tid).state == AbortState
    ensures Apply(rules, s, ManagerReceives(p, again)) == s.(net := Left(s, p, again) + {ToWorker(p.ep, TxError)})
    ensures !Logged(s.mgr.log, LCommit, p.tid)
  {
    DealFacts(rules, s, p.tid);
    LoggedStatus(s.mgr.log, p.tid);
    assert s.roster + {} == s.roster;
  }

  // Questions

  /** The decision in the log, if there is one. */
  ghost predicate Answered(s: Sys, p: Packet, net: set<Packet>, left: set<Packet>)
    requires p.ToManager?
  {
    && (Logged(s.mgr.log, LCommit, p.tid) ==> net == left + {ToWorker(p.ep, Commit)})
    && (Logged(s.mgr.log, LAbort, p.tid) ==> net == left + {ToWorker(p.ep, Abort)})
    && (!Logged(s.mgr.log, LCommit, p.tid) && !Logged(s.mgr.log, LAbort, p.tid) ==> net == left)
  }

  lemma AnswerSent(s: Sys, p: Packet, left: set<Packet>)
    requires p.ToManager? && StatusOf(s.mgr.log, p.tid) != Malformed
    ensures Answered(s, p, left + (set q | q in Answer(s.mgr.log, p.tid, p.ep)), left)
  {
    LastOfStatus(s.mgr.log, p.tid);
    LoggedStatus(s.mgr.log, p.tid);
    assert (set q | q in [ToWorker(p.ep, Commit)]) == {ToWorker(p.ep, Commit)};
    assert (set q | q in [ToWorker(p.ep, Abort)]) == {ToWorker(p.ep, Abort)};
  }

  predicate Question(m: Mgr, p: Packet)
    requires p.ToManager?
  {
    p.mtype == Ask ||
    (!Open(m, p.tid) && (p.mtype == Commit || p.mtype == Abort || p.mtype == JoinTx || p.mtype == Prepared))
  }

  /** Every question is answered: an ASK, and a COMMIT, ABORT, JOINTX or PREPARED about a
      transaction that is not in the table, gets the decision from the log, or nothing if
      there is none; nothing else changes, but a PREPARED ends the manager. */
  lemma QuestionAnswered(rules: Rules, s: Sys, p: Packet, again: bool)
    requires Heard(rules, s, p, again) && Question(s.mgr, p)
    ensures var s' := Apply(rules, s, ManagerReceives(p, again));
            && Answered(s, p, s'.net, Left(s, p, again))
            && s' == s.(net := s'.net, mgr := if p.mtype == Prepared then Crashed(s.mgr) else s.mgr)
  {
    ReachableInv(rules, s);
    assert TidOk(s, p.tid);
    FindsOpen(s.mgr, p.tid);
    AnswerSent(s, p, Left(s, p, again));
  }

  /** Every question is answered, however much later: once a decision is logged, a question
      in any later state of any run brings that decision, and no other, to whoever asks. */
  lemma AnswerStable(rules: Rules, s: Sys, steps: seq<Step>, kind: Kind, p: Packet, again: bool)
    requires Reachable(rules, s) && Valid(rules, s, steps) && Decides(kind)
    requires Heard(rules, Run(rules, s, steps), p, again) && Question(Run(rules, s, steps).mgr, p)
    requires Logged(s.mgr.log, kind, p.tid)
    ensures var later := Run(rules, s, steps);
            Apply(rules, later, ManagerReceives(p, again)).net ==
            Left(later, p, again) + {ToWorker(p.ep, if kind == LCommit then Commit else Abort)}
  {
    var later := Run(rules, s, steps);
    DecisionStable(rules, s, steps, p.tid, p.ep);
    QuestionAnswered(rules, later, p, again);
  }

  // Requests

  /** The request to commit: the first asks exactly the endpoints entered to vote, a repeated
      one nobody. */
  lemma CommitAsksAll(rules: Rules, s: Sys, p: Packet, again: bool)
    requires Heard(rules, s, p, again) && p.mtype == Commit && Open(s.mgr, p.tid)
    ensures var s', slot := Apply(rules, s, ManagerReceives(p, again)), Deal(s.mgr, p.tid);
            && s'.net == Left(s, p, again) +
                 (if slot.state == PrepareState then {} else ToAll(Entered(s, p.tid), PrepareToCommit))
            && s' == s.(net := s'.net, mgr := s.mgr.(table := s'.mgr.table))
            && Open(s'.mgr, p.tid) && Deal(s'.mgr, p.tid) == slot.(state := PrepareState)
            && OthersSame(s.mgr, s'.mgr, p.tid)
  {
    var s', i := ApplyManager(s, p, again), Find(s.mgr.table, p.tid);
    DealFacts(rules, s, p.tid);
    BroadcastSet(s.mgr.table[i].nodes, PrepareToCommit);
    Updated(s.mgr, s'.mgr, i, s.mgr.table[i].(state := PrepareState));
  }

  /** A vote to abort: ABORT is logged and sent to exactly the endpoints entered. */
  lemma AbortTellsAll(rules: Rules, s: Sys, p: Packet, again: bool)
    requires Heard(rules, s, p, again) && p.mtype == Abort && Open(s.mgr, p.tid)
    ensures var s', slot := Apply(rules, s, ManagerReceives(p, again)), Deal(s.mgr, p.tid);
            && s'.net == Left(s, p, again) + ToAll(Entered(s, p.tid), Abort)
            && s'.mgr.log == s.mgr.log + [Record(LAbort, p.tid)]
            && s' == s.(net := s'.net, mgr := Mgr(true, s'.mgr.log, s'.mgr.table))
            && Open(s'.mgr, p.tid) && Deal(s'.mgr, p.tid) == slot.(state := AbortState)
            && OthersSame(s.mgr, s'.mgr, p.tid)
  {
    var s', i := ApplyManager(s, p, again), Find(s.mgr.table, p.tid);
    DealFacts(rules, s, p.tid);
    BroadcastSet(s.mgr.table[i].nodes, Abort);
    Updated(s.mgr, s'.mgr, i, s.mgr.table[i].(state := AbortState));
  }

  // Entering a transaction

  /** There is a slot that holds no transaction or a finished one. */
  predicate Room(m: Mgr) {
    exists i :: 0 <= i < MAX_TRANSACTIONS && (m.table[i].tid == 0 || Finished(m.table[i]))
  }

  /** The sender is refused and told so, and nothing else happens. */
  ghost predicate Refusal(s: Sys, s': Sys, p: Packet, again: bool) {
    s' == s.(net := Left(s, p, again) + {ToWorker(p.ep, TxError)})
  }

  /** Begin: the transaction is entered, with the sender as its only node, exactly when its
      id was never used and there is room. What it takes the place of was finished. */
  lemma BeginEnters(rules: Rules, s: Sys, p: Packet, again: bool)
    requires Heard(rules, s, p, again) && p.mtype == BeginTx
    ensures var s' := Apply(rules, s, ManagerReceives(p, again));
            if Used(s.mgr.log, p.tid) || !Room(s.mgr) then Refusal(s, s', p, again)
            else
              && s'.mgr.log == s.mgr.log + [Record(LBegin, p.tid)]
              && s' == s.(net := Left(s, p, again), roster := s.roster + {p.ep},
                          mgr := Mgr(true, s'.mgr.log, s'.mgr.table))
              && Open(s'.mgr, p.tid)
              && var slot := Deal(s'.mgr, p.tid);
                 && slot.state == BeginState && slot.nodeCount == 1
                 && Members(slot.nodes) == {p.ep} && Occupied(slot.nodes) == 1
                 && forall t :: t != p.tid && t != 0 && Open(s.mgr, t) ==>
                      Same(s.mgr, s'.mgr, t) || (Finished(Deal(s.mgr, t)) && !Open(s'.mgr, t))
  {
    SenderKnown(rules, s, p);
    BeginTaken(s.mgr, p.ep, p.tid);
    if Used(s.mgr.log, p.tid) || !Room(s.mgr) {
      Refused(s, p, again);
    } else {
      ReachableInv(rules, s);
      UsedStatus(s.mgr.log, p.tid);
      ManagerSteps.NotInTable(s, p.tid);
      BeginTakes(s.mgr, p.ep, p.tid);
      BeginApplied(s, p, again);
    }
  }

  /** Without room, or with a used id, begin only refuses. */
  lemma BeginTaken(m: Mgr, ep: nat, tid: nat)
    ensures Used(m.log, tid) || !Room(m) ==>
              OnBegin(m, ep, tid) == Reaction(m, [ToWorker(ep, TxError)], false, false)
  {
    ManagerSteps.LastOfNone(m.log, tid);
    var i := FirstStop(m.table, tid);
    if i < MAX_TRANSACTIONS && m.table[i].tid != tid {
      assert Room(m);
    }
  }

  lemma BeginTakes(m: Mgr, ep: nat, tid: nat)
    requires !Used(m.log, tid) && Room(m) && tid != 0 && ep != 0 && TableApart(m.table)
    requires forall j :: 0 <= j < MAX_TRANSACTIONS ==> m.table[j].tid != tid
    ensures var r := OnBegin(m, ep, tid);
            && r == Reaction(Mgr(m.up, m.log + [Record(LBegin, tid)], r.mgr.table), [], true, false)
            && Open(r.mgr, tid) && Deal(r.mgr, tid) == NewSlot(tid, ep)
            && Members(NewSlot(tid, ep).nodes) == {ep} && Occupied(NewSlot(tid, ep).nodes) == 1
            && forall t :: t != tid && t != 0 && Open(m, t) ==>
                 Same(m, r.mgr, t) || (Finished(Deal(m, t)) && !Open(r.mgr, t))
  {
    ManagerSteps.LastOfNone(m.log, tid);
    Entering(m, OnBegin(m, ep, tid).mgr, FirstStop(m.table, tid), tid, ep);
  }

  lemma BeginApplied(s: Sys, p: Packet, again: bool)
    requires p.ToManager? && p.mtype == BeginTx
    requires OnBegin(s.mgr, p.ep, p.tid) == Reaction(OnBegin(s.mgr, p.ep, p.tid).mgr, [], true, false)
    ensures ApplyManager(s, p, again) ==
            s.(net := Left(s, p, again), roster := s.roster + {p.ep}, mgr := OnBegin(s.mgr, p.ep, p.tid).mgr)
  {
  }

  lemma Entering(m: Mgr, m': Mgr, i: nat, tid: nat, ep: nat)
    requires i < MAX_TRANSACTIONS && m'.table == m.table[i := NewSlot(tid, ep)] && tid != 0 && ep != 0
    requires m.table[i].tid == 0 || Finished(m.table[i])
    requires (forall j :: 0 <= j < MAX_TRANSACTIONS ==> m.table[j].tid != tid) && TableApart(m.table)
    ensures Open(m', tid) && Deal(m', tid) == NewSlot(tid, ep)
    ensures Members(NewSlot(tid, ep).nodes) == {ep} && Occupied(NewSlot(tid, ep).nodes) == 1
    ensures forall t :: t != tid && t != 0 && Open(m, t) ==>
              Same(m, m', t) || (Finished(Deal(m, t)) && !Open(m', t))
  {
    ManagerSteps.NoNodes();
    ManagerSteps.OccupiedJoin(NO_NODES, 0, ep);
    ManagerSteps.MembersJoin(NO_NODES, 0, ep);
    assert m'.table[i].tid == tid;
    FindsOpen(m', tid);
    forall t | t != tid && t != 0 && Open(m, t)
      ensures Same(m, m', t) || (Finished(Deal(m, t)) && !Open(m', t))
    {
      FindsOpen(m, t);
      FindsOpen(m', t);
      var k := Find(m.table, t);
      assert forall j :: 0 <= j < MAX_TRANSACTIONS && j != k ==> m.table[j].tid != t;
      if k != i {
        assert m'.table[k].tid == t;
      }
    }
  }

  lemma {:induction false} FullList(nodes: seq<nat>)
    ensures Occupied(nodes) < |nodes| <==> FirstFree(nodes) < |nodes|
    ensures Occupied(nodes) == |nodes| ==> forall j :: 0 <= j < |nodes| ==> nodes[j] != 0
  {
    if nodes != [] {
      var rest := nodes[..|nodes| - 1];
      FullList(rest);
      assert forall j :: 0 <= j < |rest| ==> rest[j] == nodes[j];
      if FirstFree(rest) < |rest| {
        assert nodes[FirstFree(rest)] == 0;
      }
    }
  }

  /** Join: the sender is one more node of an open transaction exactly when nobody has asked
      to commit it yet, it is not finished and its list is not full. */
  lemma JoinEnters(rules: Rules, s: Sys, p: Packet, again: bool)
    requires Heard(rules, s, p, again) && p.mtype == JoinTx && Open(s.mgr, p.tid)
    ensures var s', slot := Apply(rules, s, ManagerReceives(p, again)), Deal(s.mgr, p.tid);
            if slot.state != BeginState || Occupied(slot.nodes) == MAX_NODES then Refusal(s, s', p, again)
            else
              && s' == s.(net := Left(s, p, again), roster := s.roster + {p.ep},
                          mgr := s.mgr.(table := s'.mgr.table))
              && Open(s'.mgr, p.tid) && OthersSame(s.mgr, s'.mgr, p.tid)
              && var slot' := Deal(s'.mgr, p.tid);
                 && slot' == slot.(nodes := slot'.nodes, nodeCount := slot.nodeCount + 1)
                 && Members(slot'.nodes) == Members(slot.nodes) + {p.ep}
                 && Occupied(slot'.nodes) == Occupied(slot.nodes) + 1
  {
    SenderKnown(rules, s, p);
    VoteCounter(rules, s, Find(s.mgr.table, p.tid));
    JoinTaken(s.mgr, p.ep, p.tid);
    if OnJoin(s.mgr, p.ep, p.tid).joined {
      Joining(s.mgr, p.ep, p.tid);
      JoinApplied(s, p, again);
    } else {
      Refused(s, p, again);
    }
  }

  lemma SenderKnown(rules: Rules, s: Sys, p: Packet)
    requires Reliable(rules) && Reachable(rules, s) && p in s.net && p.ToManager?
    ensures p.ep != 0 && p.ep in s.parts && s.parts[p.ep].tid == p.tid
    ensures p.tid != 0 ==> (Open(s.mgr, p.tid) <==> Find(s.mgr.table, p.tid) < MAX_TRANSACTIONS)
  {
    ReachableInv(rules, s);
    assert PacketOk(s, p) && PartOk(rules, s, p.ep);
    FindsOpen(s.mgr, p.tid);
  }

  lemma JoinTaken(m: Mgr, ep: nat, tid: nat)
    requires Open(m, tid)
    ensures var r, slot := OnJoin(m, ep, tid), Deal(m, tid);
            && (r.joined <==> slot.state == BeginState && Occupied(slot.nodes) != MAX_NODES)
            && (!r.joined ==> r == Reaction(m, [ToWorker(ep, TxError)], false, false))
  {
    FindsOpen(m, tid);
    FullList(Deal(m, tid).nodes);
  }

  lemma JoinApplied(s: Sys, p: Packet, again: bool)
    requires p.ToManager? && p.mtype == JoinTx
    requires var r := OnJoin(s.mgr, p.ep, p.tid);
             r.joined && r.sends == [] && r.mgr == s.mgr.(table := r.mgr.table)
    ensures ApplyManager(s, p, again) ==
            s.(net := Left(s, p, again), roster := s.roster + {p.ep}, mgr := OnJoin(s.mgr, p.ep, p.tid).mgr)
  {
    assert s.counted + {} == s.counted;
  }

  /** A reaction that only refuses the sender. */
  lemma Refused(s: Sys, p: Packet, again: bool)
    requires p.ToManager?
    requires Handle(s.mgr, p.ep, p.mtype, p.tid) == Reaction(s.mgr, [ToWorker(p.ep, TxError)], false, false)
    ensures Refusal(s, ApplyManager(s, p, again), p, again)
  {
    assert (set q | q in [ToWorker(p.ep, TxError)]) == {ToWorker(p.ep, TxError)};
  }

  lemma Joining(m: Mgr, ep: nat, tid: nat)
    requires tid != 0 && ep != 0 && Open(m, tid) && OnJoin(m, ep, tid).joined && Deal(m, tid).nodeCount <= MAX_NODES
    ensures var m', slot := OnJoin(m, ep, tid).mgr, Deal(m, tid);
            && m' == m.(table := m'.table) && OnJoin(m, ep, tid).sends == []
            && Open(m', tid) && OthersSame(m, m', tid)
            && var slot' := Deal(m', tid);
               && slot' == slot.(nodes := slot'.nodes, nodeCount := slot.nodeCount + 1)
               && Members(slot'.nodes) == Members(slot.nodes) + {ep}
               && Occupied(slot'.nodes) == Occupied(slot.nodes) + 1
  {
    FindsOpen(m, tid);
    var m', i, slot := OnJoin(m, ep, tid).mgr, Find(m.table, tid), Deal(m, tid);
    var k := FirstFree(slot.nodes);
    ManagerSteps.OccupiedJoin(slot.nodes, k, ep);
    ManagerSteps.MembersJoin(slot.nodes, k, ep);
    Updated(m, m', i, m'.table[i]);
  }

  /** Messages that are not for the manager are dropped. */
  lemma OthersDropped(rules: Rules, s: Sys, p: Packet, again: bool)
    requires Heard(rules, s, p, again) && (p.mtype == PrepareToCommit || p.mtype == TxError)
    ensures Apply(rules, s, ManagerReceives(p, again)) == s.(net := Left(s, p, again))
  {
  }
}
