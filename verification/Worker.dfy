/** A worker: its store, its undo log, its commands and its transaction thread. */
module Worker {
  import opened Types
  import opened TxLog

  // Rollback

  /** The records at which a backward scan stops. */
  predicate Marks(kind: Kind) {
    kind == LBegin || kind == LCommit || kind == LAbort
  }

  /** The position of the last such record, or -1. */
  function Stop(log: Log): (stop: int)
    ensures -1 <= stop < |log|
    ensures stop >= 0 ==> Marks(log[stop].kind)
  {
    if log == [] then -1
    else if Marks(log[|log| - 1].kind) then |log| - 1
    else Stop(log[..|log| - 1])
  }

  /** The store after a backward scan that restores the image of every update it meets. */
  function Unwind(log: Log, store: Store): Store {
    if log == [] || Marks(log[|log| - 1].kind) then store
    else if log[|log| - 1].kind == LUpdate then Unwind(log[..|log| - 1], log[|log| - 1].undo)
    else Unwind(log[..|log| - 1], store)
  }

  /** The log after a rollback: one ABORT for the transaction of the record that stopped it. */
  function AbortLogged(log: Log): Log {
    var stop := Stop(log);
    if stop < 0 then log else log + [Record(LAbort, log[stop].tid)]
  }

  lemma {:induction false} StopBounds(log: Log)
    ensures forall i :: Stop(log) < i < |log| ==> !Marks(log[i].kind)
  {
    if log != [] && !Marks(log[|log| - 1].kind) {
      StopBounds(log[..|log| - 1]);
      assert forall i :: 0 <= i < |log| - 1 ==> log[i] == log[..|log| - 1][i];
    }
  }

  /** The first update since the last BEGIN, COMMIT or ABORT. */
  ghost predicate Earliest(log: Log, i: int) {
    && Stop(log) < i < |log|
    && 0 <= i
    && log[i].kind == LUpdate
    && forall j :: Stop(log) < j < i && 0 <= j ==> log[j].kind != LUpdate
  }

  /** Repeated restoring equals restoring the image of the earliest update once; prepared
      records in between make no difference. */
  lemma {:induction false} UnwindIsEarliest(log: Log, store: Store, i: int)
    ensures Earliest(log, i) ==> Unwind(log, store) == log[i].undo
    ensures (forall k :: 0 <= k < |log| && Stop(log) < k ==> log[k].kind != LUpdate) ==>
              Unwind(log, store) == store
  {
    StopBounds(log);
    if log != [] && !Marks(log[|log| - 1].kind) {
      var rest, last := log[..|log| - 1], log[|log| - 1];
      var store' := if last.kind == LUpdate then last.undo else store;
      assert forall k :: 0 <= k < |rest| ==> rest[k] == log[k];
      UnwindIsEarliest(rest, store', i);
    }
  }

  // The worker as a value

  /** `port` is the listening port kept in the log header, so it survives a crash with the
      log and the store; everything from `active` on is lost. */
  datatype Worker = Worker(
    up: bool, log: Log, store: Store, port: nat,
    active: bool, uncertain: bool, doCommit: bool, doAbort: bool, tid: nat, ep: nat)

  datatype Command =
    | NewA(value: int) | NewB(value: int) | NewId(text: string)
    | CommitCmd | AbortCmd | VoteAbortCmd

  /** `vote` is the vote cast by this step, if any: true for PREPARED, false for ABORT. */
  datatype WReaction = WReaction(worker: Worker, sends: seq<Packet>, vote: Option<bool>)

  const NEW_WORKER: Worker :=
    Worker(true, [], ZERO_STORE, 0, false, false, false, false, 0, 0)

  function Append(w: Worker, x: Entry): Worker {
    w.(log := w.log + [x])
  }

  function Rollback(w: Worker): Worker {
    w.(store := Unwind(w.log, w.store), log := AbortLogged(w.log))
  }

  lemma {:induction false} UnwindIdempotent(log: Log, store: Store)
    ensures Unwind(log, Unwind(log, store)) == Unwind(log, store)
  {
    if log != [] && !Marks(log[|log| - 1].kind) {
      var rest, last := log[..|log| - 1], log[|log| - 1];
      UnwindIdempotent(rest, if last.kind == LUpdate then last.undo else store);
    }
  }

  /** A repeated rollback finds nothing to undo, whatever the log. */
  lemma RollbackTwice(w: Worker)
    ensures Rollback(Rollback(w)).store == Rollback(w).store
  {
    UnwindIdempotent(w.log, w.store);
  }

  /** Opens the transaction socket: on the old port when uncertain, else on a fresh one. */
  function Spawn(w: Worker, fresh': nat, tid: nat): Worker {
    var ep := if w.uncertain then w.port else fresh';
    w.(active := true, tid := tid, ep := ep, port := ep, doAbort := false, doCommit := true)
  }

  /** The commands that begin or join a transaction. */
  function Start(w: Worker, fresh': nat, tid: nat, mtype: MsgType): WReaction {
    if w.active then WReaction(w, [], None)
    else
      var w' := Spawn(w, fresh', tid);
      WReaction(Append(w', Record(LBegin, tid)), [ToManager(w'.ep, mtype, tid)], None)
  }

  /** An update logs the whole old image first if a transaction is active. */
  function Update(w: Worker, store: Store): Worker {
    var w' := if w.active then Append(w, Entry(LUpdate, w.tid, w.store)) else w;
    w'.(store := store)
  }

  function Obey(w: Worker, c: Command): WReaction {
    match c
    case NewA(v) => WReaction(Update(w, w.store.(a := v)), [], None)
    case NewB(v) => WReaction(Update(w, w.store.(b := v)), [], None)
    case NewId(s) => WReaction(Update(w, w.store.(id := s)), [], None)
    case CommitCmd =>
      WReaction(w, if w.active then [ToManager(w.ep, Commit, w.tid)] else [], None)
    case AbortCmd =>
      if w.active then WReaction(Rollback(w).(doCommit := false, doAbort := true), [], None)
      else WReaction(w, [], None)
    case VoteAbortCmd => WReaction(w.(doCommit := false, doAbort := true), [], None)
  }

  /** A message on the transaction socket. The transaction thread is in one of two loops:
      waiting for the vote request, or uncertain and waiting for the decision. */
  function React(w: Worker, mtype: MsgType): WReaction {
    var over := w.(active := false, uncertain := false);
    match mtype
    case Commit => WReaction(Append(over, Record(LCommit, w.tid)), [], None)
    case Abort => WReaction(Rollback(over), [], None)
    case TxError => WReaction(if w.uncertain then w else over, [], None)
    case PrepareToCommit =>
      if w.uncertain then WReaction(w, [], None)
      else if w.doCommit then
        WReaction(Append(w, Record(LPrepared, w.tid)).(uncertain := true),
                  [ToManager(w.ep, Prepared, w.tid)], Some(true))
      else if w.doAbort then
        WReaction(w.(doAbort := false, doCommit := true, uncertain := true),
                  [ToManager(w.ep, Abort, w.tid)], Some(false))
      else WReaction(w, [], None)
    case _ => WReaction(w, [], None)
  }

  function Restart(w: Worker): Worker {
    var w' := w.(up := true, active := false, uncertain := false,
                 doCommit := false, doAbort := false, tid := 0, ep := 0);
    if LastIs(w.log, LPrepared) then
      Spawn(w'.(uncertain := true, active := true), 0, w.log[|w.log| - 1].tid)
    else if LastIs(w.log, LUpdate) then Rollback(w')
    else w'
  }

  // The running worker

  class WorkerProcess {
    // on disk
    var log: Log
    var a: int
    var b: int
    var id: string
    var port: nat
    // in memory
    var up: bool
    var active: bool
    var uncertain: bool
    var doCommit: bool
    var doAbort: bool
    var tid: nat
    var ep: nat
    var outbox: seq<Packet>  // datagrams handed to the network, oldest first

    ghost function View(): Worker
      reads this
    {
      Worker(up, log, Store(a, b, id), port, active, uncertain, doCommit, doAbort, tid, ep)
    }

    constructor ()
      ensures View() == NEW_WORKER && outbox == []
    {
      log, a, b, id, port := [], 0, 0, "", 0;
      up, active, uncertain, doCommit, doAbort, tid, ep := true, false, false, false, false, 0, 0;
      outbox := [];
    }

    /** Scans the log backwards and restores the image of every update down to the last
        BEGIN, COMMIT or ABORT, then logs an abort. */
    method UpdateRollback()
      modifies this`log, this`a, this`b, this`id
      ensures View() == Rollback(old(View()))
    {
      ghost var before := Store(a, b, id);
      var idx := |log| - 1;
      assert log[..idx + 1] == log;
      while idx >= 0
        invariant -1 <= idx < |log|
        invariant log == old(log)
        invariant Unwind(log, before) == Unwind(log[..idx + 1], Store(a, b, id))
        invariant Stop(log) == Stop(log[..idx + 1])
      {
        var entry := log[idx];
        assert log[..idx + 1][..idx] == log[..idx];
        if entry.kind == LUpdate {
          a := entry.undo.a;
          b := entry.undo.b;
          id := entry.undo.id;
        } else if entry.kind == LBegin || entry.kind == LAbort || entry.kind == LCommit {
          log := log + [Record(LAbort, entry.tid)];
          return;
        }
        idx := idx - 1;
      }
    }

    method Open(fresh': nat, transaction: nat)
      modifies this`active, this`tid, this`ep, this`port, this`doAbort, this`doCommit
      ensures View() == Spawn(old(View()), fresh', transaction)
    {
      active, tid, doAbort, doCommit := true, transaction, false, true;
      var listen := 0;
      if uncertain {
        listen := port;
      } else {
        listen := fresh';
      }
      ep := listen;
      port := listen;
    }

    method BeginOrJoin(fresh': nat, transaction: nat, mtype: MsgType)
      modifies this
      ensures View() == Start(old(View()), fresh', transaction, mtype).worker
      ensures outbox == old(outbox) + Start(old(View()), fresh', transaction, mtype).sends
    {
      if active {
        return;
      }
      Open(fresh', transaction);
      outbox := outbox + [ToManager(ep, mtype, transaction)];
      log := log + [Record(LBegin, tid)];
    }

    /** One command of the user, other than begin and join. */
    method Execute(c: Command)
      modifies this
      ensures View() == Obey(old(View()), c).worker
      ensures outbox == old(outbox) + Obey(old(View()), c).sends
    {
      match c {
        case NewA(v) =>
          LogUpdate();
          a := v;
        case NewB(v) =>
          LogUpdate();
          b := v;
        case NewId(s) =>
          LogUpdate();
          id := s;
        case CommitCmd =>
          if active {
            outbox := outbox + [ToManager(ep, Commit, tid)];
          }
        case AbortCmd =>
          if active {
            UpdateRollback();
            doCommit, doAbort := false, true;
          }
        case VoteAbortCmd =>
          doCommit, doAbort := false, true;
      }
    }

    method LogUpdate()
      modifies this`log
      ensures log == if active then old(log) + [Entry(LUpdate, tid, Store(a, b, id))] else old(log)
    {
      if active {
        log := log + [Entry(LUpdate, tid, Store(a, b, id))];
      }
    }

    /** One message on the transaction socket. */
    method Receive(mtype: MsgType)
      modifies this
      ensures View() == React(old(View()), mtype).worker
      ensures outbox == old(outbox) + React(old(View()), mtype).sends
    {
      match mtype {
        case PrepareToCommit =>
          if !uncertain {
            if doCommit {
              log := log + [Record(LPrepared, tid)];
              outbox := outbox + [ToManager(ep, Prepared, tid)];
              uncertain := true;
            } else if doAbort {
              doAbort, doCommit := false, true;
              outbox := outbox + [ToManager(ep, Abort, tid)];
              uncertain := true;
            }
          }
        case TxError =>
          if !uncertain {
            active := false;
          }
        case Commit =>
          log := log + [Record(LCommit, tid)];
          uncertain, active := false, false;
        case Abort =>
          UpdateRollback();
          uncertain, active := false, false;
        case _ =>
      }
    }

    /** Startup after a crash. */
    method Startup()
      modifies this
      ensures View() == Restart(old(View()))
      ensures outbox == old(outbox)
    {
      up, active, uncertain, doCommit, doAbort, tid, ep := true, false, false, false, false, 0, 0;
      if log != [] {
        var last := log[|log| - 1];
        match last.kind {
          case LPrepared =>
            uncertain, active := true, true;
            Open(0, last.tid);
          case LUpdate =>
            UpdateRollback();
          case _ =>
        }
      }
    }
  }
}
