/** The part of a worker's log that belongs to one participation in a transaction: from a
    BEGIN to just before the next one. */
module Segments {
  import opened Types
  import opened TxLog
  import opened Worker

  /** The position of the last BEGIN, or -1. */
  function CurStart(log: Log): int {
    if log == [] then -1
    else if log[|log| - 1].kind == LBegin then |log| - 1
    else CurStart(log[..|log| - 1])
  }

  /** The kinds of record in the segment that starts at a given position. */
  function SegKinds(log: Log, start: int): set<Kind> {
    if log == [] then {}
    else SegKinds(log[..|log| - 1], start) +
         if CurStart(log) == start then {log[|log| - 1].kind} else {}
  }

  lemma SegAppend(log: Log, x: Entry)
    ensures CurStart(log + [x]) == if x.kind == LBegin then |log| else CurStart(log)
    ensures forall start :: SegKinds(log + [x], start) ==
              SegKinds(log, start) + if CurStart(log + [x]) == start then {x.kind} else {}
  {
    assert (log + [x])[..|log + [x]| - 1] == log;
  }

  lemma {:induction false} CurStartBounds(log: Log)
    ensures -1 <= CurStart(log) < |log|
    ensures CurStart(log) >= 0 ==> log[CurStart(log)].kind == LBegin
    ensures forall i :: CurStart(log) < i < |log| ==> log[i].kind != LBegin
  {
    if log != [] && log[|log| - 1].kind != LBegin {
      CurStartBounds(log[..|log| - 1]);
      assert forall i :: 0 <= i < |log| - 1 ==> log[i] == log[..|log| - 1][i];
    }
  }

  /** No records lie in a segment that has not started. */
  lemma {:induction false} SegEmpty(log: Log, start: int)
    requires start >= |log|
    ensures SegKinds(log, start) == {}
  {
    if log != [] {
      SegEmpty(log[..|log| - 1], start);
      CurStartBounds(log);
    }
  }

  ghost predicate InSegment(log: Log, start: int, j: int) {
    && 0 <= start <= j < |log|
    && log[start].kind == LBegin
    && forall m :: start < m <= j ==> log[m].kind != LBegin
  }

  lemma CurStartUnique(log: Log, start: int)
    requires InSegment(log, start, |log| - 1)
    ensures CurStart(log) == start
  {
    CurStartBounds(log);
  }

  /** What the recursive definition means: a kind is in the segment exactly when a record
      of that kind lies after the BEGIN with no other BEGIN in between. */
  lemma {:induction false} SegKindsMeaning(log: Log, start: nat, kind: Kind)
    ensures kind in SegKinds(log, start) <==>
            exists j :: InSegment(log, start, j) && log[j].kind == kind
  {
    if log != [] {
      var rest, last := log[..|log| - 1], |log| - 1;
      SegKindsMeaning(rest, start, kind);
      CurStartBounds(log);
      forall j | j < last
        ensures InSegment(rest, start, j) <==> InSegment(log, start, j)
        ensures 0 <= j < last ==> rest[j] == log[j]
      {
        if InSegment(rest, start, j) {
          assert forall m :: start < m <= j ==> log[m] == rest[m];
        }
        if InSegment(log, start, j) {
          assert forall m :: start < m <= j ==> rest[m] == log[m];
        }
      }
      assert CurStart(log) == start <==> InSegment(log, start, last) by {
        if InSegment(log, start, last) {
          CurStartUnique(log, start);
        }
      }
      if exists j :: InSegment(log, start, j) && log[j].kind == kind {
        var j :| InSegment(log, start, j) && log[j].kind == kind;
        if j < last {
          assert InSegment(rest, start, j) && rest[j].kind == kind;
        }
      }
      if exists j :: InSegment(rest, start, j) && rest[j].kind == kind {
        var j :| InSegment(rest, start, j) && rest[j].kind == kind;
        assert InSegment(log, start, j) && log[j].kind == kind;
      }
    }
  }

  /** A rollback inside a segment appends one ABORT to it. */
  lemma {:induction false} RollbackAppends(log: Log)
    requires CurStart(log) >= 0
    ensures 0 <= Stop(log) < |log|
    ensures AbortLogged(log) == log + [Record(LAbort, log[Stop(log)].tid)]
  {
    StopBounds(log);
    CurStartBounds(log);
    assert Marks(log[CurStart(log)].kind);
  }
}
