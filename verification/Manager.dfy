/** The transaction manager: its table of four slots and its reaction to each message. */
module Manager {
  import opened Types
  import opened TxLog
  import opened Recovery

  datatype TxState = BeginState | CommitState | PrepareState | AbortState

  const NO_NODES: seq<nat> := [0, 0, 0, 0, 0, 0, 0, 0, 0, 0]

  /** Ten endpoints; zero marks an unused position. */
  type Nodes = n: seq<nat> | |n| == MAX_NODES witness NO_NODES

  datatype Slot = Slot(state: TxState, tid: nat, nodes: Nodes, nodeCount: nat)

  const EMPTY_SLOT: Slot := Slot(BeginState, 0, NO_NODES, 0)
  const EMPTY_TABLE: seq<Slot> := [EMPTY_SLOT, EMPTY_SLOT, EMPTY_SLOT, EMPTY_SLOT]

  type Table = t: seq<Slot> | |t| == MAX_TRANSACTIONS witness EMPTY_TABLE

  /** A manager that is down has lost its table and kept its log. */
  datatype Mgr = Mgr(up: bool, log: Log, table: Table)

  /** What one message does: the new manager, the datagrams sent, whether the sender was
      entered in a node list, and whether its vote was taken off a counter. */
  datatype Reaction = Reaction(mgr: Mgr, sends: seq<Packet>, joined: bool, counted: bool)

  // Searching the table

  function Find(table: seq<Slot>, tid: nat, from: nat := 0): (i: nat)
    requires from <= |table|
    ensures from <= i <= |table|
    ensures i < |table| ==> table[i].tid == tid
    ensures forall j :: from <= j < i ==> table[j].tid != tid
    decreases |table| - from
  {
    if from == |table| || table[from].tid == tid then from else Find(table, tid, from + 1)
  }

  predicate Finished(slot: Slot) {
    slot.state == CommitState || slot.state == AbortState
  }

  /** A slot at which the search for room ends: a clash, or one that may be taken over. */
  predicate Stops(slot: Slot, tid: nat) {
    slot.tid == tid || Finished(slot) || slot.tid == 0
  }

  function FirstStop(table: seq<Slot>, tid: nat, from: nat := 0): (i: nat)
    requires from <= |table|
    ensures from <= i <= |table|
    ensures i < |table| ==> Stops(table[i], tid)
    ensures forall j :: from <= j < i ==> !Stops(table[j], tid)
    decreases |table| - from
  {
    if from == |table| || Stops(table[from], tid) then from else FirstStop(table, tid, from + 1)
  }

  function FirstFree(nodes: seq<nat>, from: nat := 0): (i: nat)
    requires from <= |nodes|
    ensures from <= i <= |nodes|
    ensures i < |nodes| ==> nodes[i] == 0
    ensures forall j :: from <= j < i ==> nodes[j] != 0
    decreases |nodes| - from
  {
    if from == |nodes| || nodes[from] == 0 then from else FirstFree(nodes, from + 1)
  }

  // Node lists

  function Members(nodes: seq<nat>): set<nat> {
    set e | e in nodes && e != 0
  }

  function Occupied(nodes: seq<nat>): (n: nat)
    ensures n <= |nodes|
  {
    if nodes == [] then 0
    else Occupied(nodes[..|nodes| - 1]) + if nodes[|nodes| - 1] != 0 then 1 else 0
  }

  function Broadcast(nodes: seq<nat>, mtype: MsgType): seq<Packet> {
    if nodes == [] then []
    else
      var last := nodes[|nodes| - 1];
      Broadcast(nodes[..|nodes| - 1], mtype) + if last != 0 then [ToWorker(last, mtype)] else []
  }

  /** A broadcast reaches exactly the members of the node list. */
  lemma {:induction false} BroadcastReaches(nodes: seq<nat>, mtype: MsgType, p: Packet)
    ensures p in Broadcast(nodes, mtype) <==>
            p.ToWorker? && p.mtype == mtype && p.ep in Members(nodes)
  {
    if nodes != [] {
      var rest, last := nodes[..|nodes| - 1], nodes[|nodes| - 1];
      BroadcastReaches(rest, mtype, p);
      assert nodes == rest + [last];
      assert Members(nodes) == Members(rest) + if last != 0 then {last} else {};
    }
  }

  // Message handling

  /** The node counter is an unsigned 32-bit integer. */
  function Decrement(count: nat): nat {
    if count == 0 then TWO32 - 1 else count - 1
  }

  function Increment(count: nat): nat {
    (count + 1) % TWO32
  }

  function NewSlot(tid: nat, ep: nat): Slot {
    Slot(BeginState, tid, NO_NODES[0 := ep], 1)
  }

  /** Answers a question about a transaction from the log. */
  function Answer(log: Log, tid: nat, ep: nat): seq<Packet> {
    match LastOf(log, tid)
    case None => []
    case Some(entry) =>
      if entry.kind == LCommit then [ToWorker(ep, Commit)]
      else if entry.kind == LAbort then [ToWorker(ep, Abort)]
      else []
  }

  function Crashed(m: Mgr): Mgr {
    Mgr(false, m.log, EMPTY_TABLE)
  }

  function OnBegin(m: Mgr, ep: nat, tid: nat): Reaction {
    var refusal := Reaction(m, [ToWorker(ep, TxError)], false, false);
    if LastOf(m.log, tid).Some? then refusal
    else
      var i := FirstStop(m.table, tid);
      if i == MAX_TRANSACTIONS || m.table[i].tid == tid then refusal
      else
        var m' := m.(table := m.table[i := NewSlot(tid, ep)], log := m.log + [Record(LBegin, tid)]);
        Reaction(m', [], true, false)
  }

  function OnCommit(m: Mgr, ep: nat, tid: nat): Reaction {
    var i := Find(m.table, tid);
    if i == MAX_TRANSACTIONS then Reaction(m, Answer(m.log, tid, ep), false, false)
    else if m.table[i].state == PrepareState then Reaction(m, [], false, false)
    else
      var slot := m.table[i].(state := PrepareState);
      Reaction(m.(table := m.table[i := slot]), Broadcast(slot.nodes, PrepareToCommit), false, false)
  }

  function OnAbort(m: Mgr, ep: nat, tid: nat): Reaction {
    var i := Find(m.table, tid);
    if i == MAX_TRANSACTIONS then Reaction(m, Answer(m.log, tid, ep), false, false)
    else
      var slot := m.table[i].(state := AbortState);
      var m' := m.(table := m.table[i := slot], log := m.log + [Record(LAbort, tid)]);
      Reaction(m', Broadcast(slot.nodes, Abort), false, false)
  }

  /** A vote for a transaction that is not in the table is answered from the log and then
      dereferences a null slot, which ends the process. */
  function OnPrepared(m: Mgr, ep: nat, tid: nat): Reaction {
    var i := Find(m.table, tid);
    if i == MAX_TRANSACTIONS then Reaction(Crashed(m), Answer(m.log, tid, ep), false, false)
    else if m.table[i].state == AbortState then Reaction(m, [ToWorker(ep, TxError)], false, false)
    else
      var left := Decrement(m.table[i].nodeCount);
      var slot := m.table[i].(nodeCount := left);
      if left == 0 then
        var m' := m.(table := m.table[i := slot.(state := CommitState)],
                     log := m.log + [Record(LCommit, tid)]);
        Reaction(m', Broadcast(slot.nodes, Commit), false, true)
      else
        Reaction(m.(table := m.table[i := slot]), [], false, true)
  }

  function OnJoin(m: Mgr, ep: nat, tid: nat): Reaction {
    var i := Find(m.table, tid);
    if i == MAX_TRANSACTIONS then Reaction(m, Answer(m.log, tid, ep), false, false)
    else
      var slot := m.table[i];
      var k := FirstFree(slot.nodes);
      if slot.state != BeginState || k == MAX_NODES then
        Reaction(m, [ToWorker(ep, TxError)], false, false)
      else
        var slot' := slot.(nodes := slot.nodes[k := ep], nodeCount := Increment(slot.nodeCount));
        Reaction(m.(table := m.table[i := slot']), [], true, false)
  }

  function Handle(m: Mgr, ep: nat, mtype: MsgType, tid: nat): Reaction {
    match mtype
    case Ask => Reaction(m, Answer(m.log, tid, ep), false, false)
    case BeginTx => OnBegin(m, ep, tid)
    case Commit => OnCommit(m, ep, tid)
    case Abort => OnAbort(m, ep, tid)
    case Prepared => OnPrepared(m, ep, tid)
    case JoinTx => OnJoin(m, ep, tid)
    case _ => Reaction(m, [], false, false)
  }

  // The running manager

  class TransactionManager {
    const slots: array<Slot>
    var up: bool
    var log: Log
    var outbox: seq<Packet>  // datagrams handed to the network, oldest first

    ghost predicate Valid()
      reads this
    {
      slots.Length == MAX_TRANSACTIONS
    }

    /** The manager as a value. */
    ghost function View(): Mgr
      reads this, slots
      requires Valid()
    {
      Mgr(up, log, if up then slots[..] else EMPTY_TABLE)
    }

    constructor (log: Log)
      ensures Valid() && fresh(slots)
      ensures View() == Mgr(true, log, EMPTY_TABLE) && outbox == []
    {
      slots := new Slot[MAX_TRANSACTIONS](_ => EMPTY_SLOT);
      up, this.log, outbox := true, log, [];
      new;
      assert slots[..] == EMPTY_TABLE;
    }

    method FindTransaction(tid: nat) returns (i: nat)
      requires Valid()
      ensures i == Find(slots[..], tid)
    {
      i := 0;
      while i < MAX_TRANSACTIONS && slots[i].tid != tid
        invariant i <= MAX_TRANSACTIONS
        invariant forall j :: 0 <= j < i ==> slots[j].tid != tid
      {
        i := i + 1;
      }
      assert forall j :: 0 <= j < i ==> slots[..][j].tid != tid;
    }

    /** Sends one datagram to every occupied position of a node list. */
    method SendToAllWorkers(nodes: Nodes, mtype: MsgType)
      modifies this`outbox
      ensures outbox == old(outbox) + Broadcast(nodes, mtype)
    {
      var i := 0;
      while i < MAX_NODES
        invariant i <= MAX_NODES
        invariant outbox == old(outbox) + Broadcast(nodes[..i], mtype)
      {
        assert nodes[..i + 1][..i] == nodes[..i];
        if nodes[i] != 0 {
          outbox := outbox + [ToWorker(nodes[i], mtype)];
        }
        i := i + 1;
      }
      assert nodes[..i] == nodes;
    }

    method CheckTransactionLog(tid: nat, ep: nat)
      modifies this`outbox
      ensures outbox == old(outbox) + Answer(log, tid, ep)
    {
      var last := LastOf(log, tid);
      if last.Some? {
        match last.value.kind {
          case LCommit => outbox := outbox + [ToWorker(ep, Commit)];
          case LAbort => outbox := outbox + [ToWorker(ep, Abort)];
          case _ =>
        }
      }
    }

    /** Finds room for a transaction, or reports an error to its originator. */
    method AddTransaction(tid: nat, ep: nat) returns (added: bool)
      requires Valid() && up
      modifies slots, this`outbox
      ensures var i := FirstStop(old(slots[..]), tid);
              && added == (i < MAX_TRANSACTIONS && old(slots[..])[i].tid != tid)
              && slots[..] == (if added then old(slots[..])[i := NewSlot(tid, ep)] else old(slots[..]))
              && outbox == old(outbox) + if added then [] else [ToWorker(ep, TxError)]
    {
      var i := 0;
      while i < MAX_TRANSACTIONS && !Stops(slots[i], tid)
        invariant i <= MAX_TRANSACTIONS
        invariant slots[..] == old(slots[..])
        invariant forall j :: 0 <= j < i ==> !Stops(slots[j], tid)
      {
        i := i + 1;
      }
      assert forall j :: 0 <= j < i ==> !Stops(slots[..][j], tid);
      assert i == FirstStop(slots[..], tid);
      if i < MAX_TRANSACTIONS && slots[i].tid != tid {
        slots[i] := NewSlot(tid, ep);
        added := true;
      } else {
        outbox := outbox + [ToWorker(ep, TxError)];
        added := false;
      }
    }

    /** Puts an endpoint in the first unused position of a node list. */
    method JoinTransaction(i: nat, ep: nat) returns (joined: bool)
      requires Valid() && i < MAX_TRANSACTIONS
      modifies slots
      ensures var slot := old(slots[i]); var k := FirstFree(slot.nodes);
              && joined == (k < MAX_NODES)
              && slots[..] == if joined
                              then old(slots[..])[i := slot.(nodes := slot.nodes[k := ep],
                                                             nodeCount := Increment(slot.nodeCount))]
                              else old(slots[..])
    {
      var slot := slots[i];
      var k := 0;
      while k < MAX_NODES && slot.nodes[k] != 0
        invariant k <= MAX_NODES
        invariant forall j :: 0 <= j < k ==> slot.nodes[j] != 0
      {
        k := k + 1;
      }
      joined := k < MAX_NODES;
      if joined {
        slots[i] := slot.(nodes := slot.nodes[k := ep], nodeCount := Increment(slot.nodeCount));
      }
    }

    /** Recovery at startup: for every BEGIN, look for a decision among the records that
        were there when the scan started, and abort the transaction if there is none. */
    method RestoreTransactions()
      modifies this`log
      ensures log == old(log) + RecoveryAborts(old(log))
    {
      ghost var found := log;
      var count := |log|;
      var i := 0;
      while i < count
        invariant i <= count
        invariant log == found + Aborts(found, i)
      {
        var entry := log[i];
        if entry.kind == LBegin {
          var completed := false;
          var j := i;
          while j < count && !completed
            invariant i <= j <= count
            invariant completed <==> exists k :: i <= k < j && found[k].tid == entry.tid && Decides(found[k].kind)
          {
            var other := log[j];
            completed := entry.tid == other.tid && Decides(other.kind);
            j := j + 1;
          }
          assert completed <==> DecidedIn(found, entry.tid, i);
          if !completed {
            log := log + [Record(LAbort, entry.tid)];
          }
        }
        i := i + 1;
      }
    }

    /** One turn of the message loop. */
    method Receive(ep: nat, mtype: MsgType, tid: nat)
      requires Valid() && up
      modifies this`up, this`log, this`outbox, slots
      ensures Valid()
      ensures View() == Handle(old(View()), ep, mtype, tid).mgr
      ensures outbox == old(outbox) + Handle(old(View()), ep, mtype, tid).sends
    {
      match mtype {
        case Ask =>
          CheckTransactionLog(tid, ep);
        case BeginTx =>
          if LastOf(log, tid).Some? {
            outbox := outbox + [ToWorker(ep, TxError)];
          } else {
            var added := AddTransaction(tid, ep);
            if added {
              log := log + [Record(LBegin, tid)];
            }
          }
        case Commit =>
          var i := FindTransaction(tid);
          if i == MAX_TRANSACTIONS {
            CheckTransactionLog(tid, ep);
          } else if slots[i].state != PrepareState {
            slots[i] := slots[i].(state := PrepareState);
            SendToAllWorkers(slots[i].nodes, PrepareToCommit);
          }
        case Abort =>
          var i := FindTransaction(tid);
          if i == MAX_TRANSACTIONS {
            CheckTransactionLog(tid, ep);
          } else {
            slots[i] := slots[i].(state := AbortState);
            log := log + [Record(LAbort, tid)];
            SendToAllWorkers(slots[i].nodes, Abort);
          }
        case Prepared =>
          ReceiveVote(ep, tid);
        case JoinTx =>
          var i := FindTransaction(tid);
          if i == MAX_TRANSACTIONS {
            CheckTransactionLog(tid, ep);
          } else if slots[i].state != BeginState {
            outbox := outbox + [ToWorker(ep, TxError)];
          } else {
            var joined := JoinTransaction(i, ep);
            if !joined {
              outbox := outbox + [ToWorker(ep, TxError)];
            }
          }
        case _ =>
      }
    }

    method ReceiveVote(ep: nat, tid: nat)
      requires Valid() && up
      modifies this`up, this`log, this`outbox, slots
      ensures Valid()
      ensures View() == OnPrepared(old(View()), ep, tid).mgr
      ensures outbox == old(outbox) + OnPrepared(old(View()), ep, tid).sends
    {
      var i := FindTransaction(tid);
      if i == MAX_TRANSACTIONS {
        CheckTransactionLog(tid, ep);
        up := false;
      } else if slots[i].state == AbortState {
        outbox := outbox + [ToWorker(ep, TxError)];
      } else {
        slots[i] := slots[i].(nodeCount := Decrement(slots[i].nodeCount));
        if slots[i].nodeCount == 0 {
          slots[i] := slots[i].(state := CommitState);
          log := log + [Record(LCommit, tid)];
          SendToAllWorkers(slots[i].nodes, Commit);
        }
      }
    }
  }
}
