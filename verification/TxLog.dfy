/** What the log says about one transaction, as a function of the sequence of records. */
module TxLog {
  import opened Types

  type Log = seq<Entry>

  ghost predicate Used(log: Log, tid: nat) {
    exists i :: 0 <= i < |log| && log[i].tid == tid
  }

  ghost predicate Logged(log: Log, kind: Kind, tid: nat) {
    exists i :: 0 <= i < |log| && log[i].kind == kind && log[i].tid == tid
  }

  predicate Decides(kind: Kind) {
    kind == LCommit || kind == LAbort
  }

  /** The most recent record of a transaction. */
  function LastOf(log: Log, tid: nat): Option<Entry> {
    if log == [] then None
    else if log[|log| - 1].tid == tid then Some(log[|log| - 1])
    else LastOf(log[..|log| - 1], tid)
  }

  predicate LastIs(log: Log, kind: Kind) {
    log != [] && log[|log| - 1].kind == kind
  }

  /** The life of one transaction in the manager's log. Malformed absorbs every history
      other than BEGIN, BEGIN COMMIT and BEGIN ABORT+. */
  datatype Status = Unused | Begun | Committed | Aborted | Malformed

  function Advance(st: Status, kind: Kind): Status {
    match (st, kind)
    case (Unused, LBegin) => Begun
    case (Begun, LCommit) => Committed
    case (Begun, LAbort) => Aborted
    case (Aborted, LAbort) => Aborted
    case _ => Malformed
  }

  function StatusOf(log: Log, tid: nat): Status {
    if log == [] then Unused
    else
      var before := StatusOf(log[..|log| - 1], tid);
      if log[|log| - 1].tid == tid then Advance(before, log[|log| - 1].kind) else before
  }

  lemma StatusAppend(log: Log, x: Entry, tid: nat)
    ensures StatusOf(log + [x], tid) ==
            if x.tid == tid then Advance(StatusOf(log, tid), x.kind) else StatusOf(log, tid)
  {
    assert (log + [x])[..|log + [x]| - 1] == log;
  }

  /** The records of one transaction, oldest first. */
  function Projection(log: Log, tid: nat): seq<Kind> {
    if log == [] then []
    else
      var before := Projection(log[..|log| - 1], tid);
      if log[|log| - 1].tid == tid then before + [log[|log| - 1].kind] else before
  }

  /** A well-formed history is empty, BEGIN, BEGIN COMMIT, or BEGIN and one or more ABORTs. */
  lemma {:induction false} StatusIsProjection(log: Log, tid: nat)
    ensures StatusOf(log, tid) == Unused <==> Projection(log, tid) == []
    ensures StatusOf(log, tid) == Begun <==> Projection(log, tid) == [LBegin]
    ensures StatusOf(log, tid) == Committed <==> Projection(log, tid) == [LBegin, LCommit]
    ensures StatusOf(log, tid) == Aborted <==>
            var p := Projection(log, tid);
            |p| >= 2 && p[0] == LBegin && forall i :: 1 <= i < |p| ==> p[i] == LAbort
  {
    if log != [] {
      StatusIsProjection(log[..|log| - 1], tid);
      var q, p := Projection(log[..|log| - 1], tid), Projection(log, tid);
      if log[|log| - 1].tid == tid {
        assert p == q + [log[|log| - 1].kind];
        assert forall i :: 0 <= i < |q| ==> q[i] == p[i];
        assert p[|p| - 1] == log[|log| - 1].kind;
        assert |q| == 1 ==> q == [q[0]];
      }
    }
  }

  /** The last record of a transaction is what a well-formed history says it is. */
  lemma {:induction false} LastOfStatus(log: Log, tid: nat)
    requires StatusOf(log, tid) != Malformed
    ensures var last := LastOf(log, tid);
            match StatusOf(log, tid)
            case Unused => last == None && !Used(log, tid)
            case Begun => last.Some? && last.value.kind == LBegin
            case Committed => last.Some? && last.value.kind == LCommit
            case Aborted => last.Some? && last.value.kind == LAbort
            case Malformed => false
    ensures LastOf(log, tid).Some? ==> LastOf(log, tid).value.tid == tid
  {
    if log != [] && log[|log| - 1].tid != tid {
      LastOfStatus(log[..|log| - 1], tid);
      assert log == log[..|log| - 1] + [log[|log| - 1]];
    }
  }

  /** A used transaction id has left Unused for good, whatever its history. */
  lemma {:induction false} UsedStatus(log: Log, tid: nat)
    ensures StatusOf(log, tid) == Unused <==> !Used(log, tid)
  {
    if log != [] {
      var before := log[..|log| - 1];
      UsedStatus(before, tid);
      assert Used(before, tid) ==> Used(log, tid);
      if log[|log| - 1].tid != tid && Used(log, tid) {
        var i :| 0 <= i < |log| && log[i].tid == tid;
        assert before[i].tid == tid;
      }
    }
  }

  /** In a well-formed history the status names exactly the decision that was logged. */
  lemma {:induction false} LoggedStatus(log: Log, tid: nat)
    requires StatusOf(log, tid) != Malformed
    ensures Logged(log, LCommit, tid) <==> StatusOf(log, tid) == Committed
    ensures Logged(log, LAbort, tid) <==> StatusOf(log, tid) == Aborted
  {
    if log != [] {
      var before, last := log[..|log| - 1], log[|log| - 1];
      LoggedStatus(before, tid);
      forall kind | Decides(kind)
        ensures Logged(log, kind, tid) <==>
                Logged(before, kind, tid) || (last.tid == tid && last.kind == kind)
      {
        LoggedAppend(before, last, kind, tid);
        assert log == before + [last];
      }
    }
  }

  lemma LoggedAppend(log: Log, x: Entry, kind: Kind, tid: nat)
    ensures Logged(log + [x], kind, tid) <==>
            Logged(log, kind, tid) || (x.tid == tid && x.kind == kind)
  {
    var more := log + [x];
    if Logged(log, kind, tid) {
      var i :| 0 <= i < |log| && log[i].kind == kind && log[i].tid == tid;
      assert more[i].kind == kind;
    }
    if Logged(more, kind, tid) {
      var i :| 0 <= i < |more| && more[i].kind == kind && more[i].tid == tid;
      if i < |log| {
        assert log[i].kind == kind;
      }
    }
    assert more[|log|] == x;
  }

  /** Once decided, a history that stays well formed keeps its decision. */
  lemma {:induction false} StatusStable(log: Log, more: Log, tid: nat)
    requires StatusOf(log, tid) == Committed || StatusOf(log, tid) == Aborted
    requires StatusOf(log + more, tid) != Malformed
    ensures StatusOf(log + more, tid) == StatusOf(log, tid)
    decreases |more|
  {
    if more == [] {
      assert log + more == log;
    } else {
      var shorter := more[..|more| - 1];
      assert log + more == (log + shorter) + [more[|more| - 1]];
      StatusAppend(log + shorter, more[|more| - 1], tid);
      StatusStable(log, shorter, tid);
    }
  }
}
