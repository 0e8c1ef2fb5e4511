/** Undo recovery at the granularity of single writes to disk. */
module Undo {
  import opened Types
  import opened TxLog
  import opened Worker
  import opened System
  import LogFile

  /** A worker's files: the record cells with the count in the log header, and the store.
      Cells from `count` on are not part of the log. */
  datatype Disk = Disk(cells: seq<Entry>, count: nat, store: Store)

  /** One durable write. */
  datatype Op =
    | WriteRecord(entry: Entry)  // at the position given by the count
    | BumpCount
    | SetA(a: int) | SetB(b: int) | SetId(id: string)

  predicate Sound(d: Disk) {
    d.count <= |d.cells|
  }

  function LogOf(d: Disk): Log
    requires Sound(d)
  {
    d.cells[..d.count]
  }

  predicate CanDo(d: Disk, op: Op) {
    Sound(d) && (op.BumpCount? ==> d.count < |d.cells|)
  }

  function Do(d: Disk, op: Op): (d': Disk)
    requires CanDo(d, op)
    ensures Sound(d')
  {
    match op
    case WriteRecord(entry) =>
      d.(cells := if d.count < |d.cells| then d.cells[d.count := entry] else d.cells + [entry])
    case BumpCount => d.(count := d.count + 1)
    case SetA(a) => d.(store := d.store.(a := a))
    case SetB(b) => d.(store := d.store.(b := b))
    case SetId(id) => d.(store := d.store.(id := id))
  }

  predicate CanRun(d: Disk, ops: seq<Op>)
    decreases |ops|
  {
    ops == [] || (CanDo(d, ops[0]) && CanRun(Do(d, ops[0]), ops[1..]))
  }

  function RunOps(d: Disk, ops: seq<Op>): (d': Disk)
    requires CanRun(d, ops)
    ensures Sound(d) ==> Sound(d')
    decreases |ops|
  {
    if ops == [] then d else RunOps(Do(d, ops[0]), ops[1..])
  }

  // What the handlers write

  function Logging(x: Entry): seq<Op> {
    [WriteRecord(x), BumpCount]
  }

  /** The writes of the backward scan over a log. */
  function Unwinding(log: Log): seq<Op> {
    if log == [] then []
    else
      var last := log[|log| - 1];
      if Marks(last.kind) then Logging(Record(LAbort, last.tid))
      else if last.kind == LUpdate then
        [SetA(last.undo.a), SetB(last.undo.b), SetId(last.undo.id)] + Unwinding(log[..|log| - 1])
      else Unwinding(log[..|log| - 1])
  }

  /** What a worker does between BEGIN and COMMIT: obey an update, undo on a user's or the
      manager's abort, vote to commit, or start up after a crash. */
  datatype Event =
    | Change(tid: nat, field: Op)
    | UndoAll
    | Vote(tid: nat)
    | StartUp

  predicate SetsField(op: Op) {
    op.SetA? || op.SetB? || op.SetId?
  }

  predicate Proper(ev: Event) {
    ev.Change? ==> SetsField(ev.field)
  }

  function Program(d: Disk, ev: Event): seq<Op>
    requires Sound(d)
  {
    match ev
    case Change(tid, field) => Logging(Entry(LUpdate, tid, d.store)) + [field]
    case UndoAll => Unwinding(LogOf(d))
    case Vote(tid) => Logging(Record(LPrepared, tid))
    case StartUp => if LastIs(LogOf(d), LUpdate) then Unwinding(LogOf(d)) else []
  }

  /** The store that a rollback would restore. */
  function Target(d: Disk): Store
    requires Sound(d)
  {
    Unwind(LogOf(d), d.store)
  }

  /** Every write can be done, and before, between and after them the target stays and the
      log is one of two. */
  ghost predicate Safe(d: Disk, ops: seq<Op>, base: Store, before: Log, after: Log)
    decreases |ops|
  {
    && Sound(d) && Target(d) == base && (LogOf(d) == before || LogOf(d) == after)
    && (ops == [] || (CanDo(d, ops[0]) && Safe(Do(d, ops[0]), ops[1..], base, before, after)))
  }

  // The log

  lemma UnwindAppend(log: Log, x: Entry, store: Store)
    ensures Unwind(log + [x], store) ==
            if Marks(x.kind) then store
            else Unwind(log, if x.kind == LUpdate then x.undo else store)
  {
    assert (log + [x])[..|log + [x]| - 1] == log;
  }

  /** With an update to undo, the current store does not matter. */
  lemma {:induction false} UnwindForgets(log: Log, s: Store, t: Store, i: int)
    requires Stop(log) < i < |log| && 0 <= i && log[i].kind == LUpdate
    ensures Unwind(log, s) == Unwind(log, t)
  {
    StopBounds(log);
    if log[|log| - 1].kind != LUpdate {
      UnwindForgets(log[..|log| - 1], s, t, i);
    }
  }

  /** Writing a record and counting it appends it; nothing is lost in between. */
  lemma RecordLogged(d: Disk, x: Entry)
    requires Sound(d)
    ensures var d1 := Do(d, WriteRecord(x));
            && LogOf(d1) == LogOf(d) && d1.store == d.store && CanDo(d1, BumpCount)
            && LogOf(Do(d1, BumpCount)) == LogOf(d) + [x] && Do(d1, BumpCount).store == d.store
  {
  }

  lemma LoggingRuns(d: Disk, x: Entry, base: Store)
    requires Sound(d) && Target(d) == base && Unwind(LogOf(d) + [x], d.store) == base
    ensures Safe(d, Logging(x), base, LogOf(d), LogOf(d) + [x])
    ensures CanRun(d, Logging(x))
    ensures LogOf(RunOps(d, Logging(x))) == LogOf(d) + [x] && RunOps(d, Logging(x)).store == d.store
  {
    RecordLogged(d, x);
    var d1 := Do(d, WriteRecord(x));
    var d2 := Do(d1, BumpCount);
    var before, after := LogOf(d), LogOf(d) + [x];
    assert Logging(x)[1..] == [BumpCount] && [BumpCount][1..] == [];
    assert Safe(d2, [], base, before, after);
    assert Safe(d1, [BumpCount], base, before, after);
    assert RunOps(d1, [BumpCount]) == RunOps(d2, []);
  }

  /** One more field write at the end of a program. */
  lemma FieldLast(d: Disk, x: Entry, field: Op, base: Store)
    requires Sound(d) && SetsField(field) && Target(d) == base
    requires forall s: Store :: Unwind(LogOf(d) + [x], s) == base
    ensures var ops := Logging(x) + [field];
            && Safe(d, ops, base, LogOf(d), LogOf(d) + [x]) && CanRun(d, ops)
            && LogOf(RunOps(d, ops)) == LogOf(d) + [x] && RunOps(d, ops).store == Do(d, field).store
  {
    var before, after := LogOf(d), LogOf(d) + [x];
    var ops := Logging(x) + [field];
    RecordLogged(d, x);
    var d1 := Do(d, WriteRecord(x));
    var d2 := Do(d1, BumpCount);
    FieldRuns(d2, field, base, before);
    assert ops[0] == WriteRecord(x) && ops[1..] == [BumpCount, field] && [BumpCount, field][1..] == [field];
    assert Safe(d1, [BumpCount, field], base, before, after) && CanRun(d1, [BumpCount, field]);
    assert RunOps(d1, [BumpCount, field]) == RunOps(d2, [field]);
  }

  lemma FieldRuns(d: Disk, field: Op, base: Store, before: Log)
    requires Sound(d) && SetsField(field) && forall s: Store :: Unwind(LogOf(d), s) == base
    ensures Safe(d, [field], base, before, LogOf(d)) && CanRun(d, [field])
    ensures LogOf(RunOps(d, [field])) == LogOf(d) && RunOps(d, [field]).store == Do(d, field).store
  {
    var d' := Do(d, field);
    assert LogOf(d') == LogOf(d) && [field][1..] == [];
    assert RunOps(d', []) == d' && Safe(d', [], base, before, LogOf(d));
  }

  /** An update: the image is on disk before the field changes. */
  lemma ChangeSafe(d: Disk, tid: nat, field: Op)
    requires Sound(d) && SetsField(field)
    ensures var ops, after := Program(d, Change(tid, field)), LogOf(d) + [Entry(LUpdate, tid, d.store)];
            && Safe(d, ops, Target(d), LogOf(d), after) && CanRun(d, ops)
            && LogOf(RunOps(d, ops)) == after && RunOps(d, ops).store == Do(d, field).store
  {
    var x := Entry(LUpdate, tid, d.store);
    forall s: Store ensures Unwind(LogOf(d) + [x], s) == Target(d) {
      UnwindAppend(LogOf(d), x, s);
    }
    FieldLast(d, x, field, Target(d));
  }

  lemma FieldFirst(d: Disk, op: Op, rest: seq<Op>, base: Store, after: Log)
    requires Sound(d) && SetsField(op) && Target(d) == base
    requires Safe(Do(d, op), rest, base, LogOf(d), after) && CanRun(Do(d, op), rest)
    ensures Safe(d, [op] + rest, base, LogOf(d), after) && CanRun(d, [op] + rest)
    ensures RunOps(d, [op] + rest) == RunOps(Do(d, op), rest) && LogOf(Do(d, op)) == LogOf(d)
  {
    assert ([op] + rest)[1..] == rest;
  }

  /** The three writes that restore one image, in front of the rest of a scan. */
  lemma RestoreImage(d: Disk, image: Store, rest: seq<Op>, base: Store, after: Log)
    requires Sound(d) && (forall s: Store :: Unwind(LogOf(d), s) == base)
    requires Safe(d.(store := image), rest, base, LogOf(d), after) && CanRun(d.(store := image), rest)
    ensures var ops := [SetA(image.a), SetB(image.b), SetId(image.id)] + rest;
            && Safe(d, ops, base, LogOf(d), after) && CanRun(d, ops)
            && RunOps(d, ops) == RunOps(d.(store := image), rest)
  {
    var d1 := Do(d, SetA(image.a));
    var d2 := Do(d1, SetB(image.b));
    assert LogOf(d1) == LogOf(d) && LogOf(d2) == LogOf(d);
    assert Do(d2, SetId(image.id)) == d.(store := image);
    FieldFirst(d2, SetId(image.id), rest, base, after);
    FieldFirst(d1, SetB(image.b), [SetId(image.id)] + rest, base, after);
    FieldFirst(d, SetA(image.a), [SetB(image.b)] + ([SetId(image.id)] + rest), base, after);
    assert [SetA(image.a), SetB(image.b), SetId(image.id)] + rest ==
           [SetA(image.a)] + ([SetB(image.b)] + ([SetId(image.id)] + rest));
  }

  /** A scan that has come down to the first n records keeps the target at every write and
      ends with the target in the store and one ABORT in the log. */
  lemma {:induction false} UnwindingSafe(d: Disk, n: nat, base: Store)
    requires Sound(d) && n <= |LogOf(d)| && Stop(LogOf(d)) < n
    requires Target(d) == base && Unwind(LogOf(d)[..n], d.store) == base
    requires Stop(LogOf(d)[..n]) == Stop(LogOf(d))
    ensures var ops := Unwinding(LogOf(d)[..n]);
            && Safe(d, ops, base, LogOf(d), AbortLogged(LogOf(d))) && CanRun(d, ops)
            && LogOf(RunOps(d, ops)) == AbortLogged(LogOf(d)) && RunOps(d, ops).store == base
    decreases n
  {
    var log := LogOf(d);
    var part := log[..n];
    if n > 0 {
      var last := part[n - 1];
      assert part[..n - 1] == log[..n - 1];
      if Marks(last.kind) {
        UnwindAppend(log, Record(LAbort, last.tid), d.store);
        LoggingRuns(d, Record(LAbort, last.tid), base);
      } else if last.kind == LUpdate {
        var d' := d.(store := last.undo);
        forall s: Store ensures Unwind(log, s) == base {
          UnwindForgets(log, s, d.store, n - 1);
        }
        UnwindingSafe(d', n - 1, base);
        RestoreImage(d, last.undo, Unwinding(log[..n - 1]), base, AbortLogged(log));
      } else {
        UnwindingSafe(d, n - 1, base);
      }
    }
  }

  lemma UndoSafe(d: Disk)
    requires Sound(d)
    ensures var ops := Unwinding(LogOf(d));
            && Safe(d, ops, Target(d), LogOf(d), AbortLogged(LogOf(d))) && CanRun(d, ops)
            && LogOf(RunOps(d, ops)) == AbortLogged(LogOf(d)) && RunOps(d, ops).store == Target(d)
  {
    assert LogOf(d)[..|LogOf(d)|] == LogOf(d);
    UnwindingSafe(d, |LogOf(d)|, Target(d));
  }

  /** The log a program leaves when it is not interrupted. */
  function LogAfter(d: Disk, ev: Event): Log
    requires Sound(d)
  {
    match ev
    case Change(tid, field) => LogOf(d) + [Entry(LUpdate, tid, d.store)]
    case UndoAll => AbortLogged(LogOf(d))
    case Vote(tid) => LogOf(d) + [Record(LPrepared, tid)]
    case StartUp => if LastIs(LogOf(d), LUpdate) then AbortLogged(LogOf(d)) else LogOf(d)
  }

  lemma ProgramSafe(d: Disk, ev: Event)
    requires Sound(d) && Proper(ev)
    ensures var ops := Program(d, ev);
            && Safe(d, ops, Target(d), LogOf(d), LogAfter(d, ev)) && CanRun(d, ops)
            && LogOf(RunOps(d, ops)) == LogAfter(d, ev)
  {
    match ev
    case Change(tid, field) => ChangeSafe(d, tid, field);
    case UndoAll => UndoSafe(d);
    case Vote(tid) =>
      UnwindAppend(LogOf(d), Record(LPrepared, tid), d.store);
      LoggingRuns(d, Record(LPrepared, tid), Target(d));
    case StartUp => UndoSafe(d);
  }

  /** The complete programs do what the worker's handlers are specified to do. */
  lemma UpdateMatches(d: Disk, w: Worker, field: Op)
    requires Sound(d) && w.active && w.log == LogOf(d) && w.store == d.store && SetsField(field)
    ensures var ops := Program(d, Change(w.tid, field));
            && CanRun(d, ops)
            && Update(w, Do(d, field).store) == w.(log := LogOf(RunOps(d, ops)), store := RunOps(d, ops).store)
  {
    ChangeSafe(d, w.tid, field);
  }

  /** The field that a command of the user sets. */
  function FieldOf(c: Command): Op
    requires Updates(c)
  {
    match c
    case NewA(v) => SetA(v)
    case NewB(v) => SetB(v)
    case NewId(text) => SetId(text)
  }

  /** The three update commands are these programs: an active worker logs the image and sets
      the one field that the command names, an idle one only sets the field. */
  lemma CommandMatches(d: Disk, w: Worker, c: Command)
    requires Sound(d) && w.log == LogOf(d) && w.store == d.store && Updates(c)
    ensures var w' := Obey(w, c).worker;
            && (c.NewA? ==> w'.store == Store(c.value, w.store.b, w.store.id))
            && (c.NewB? ==> w'.store == Store(w.store.a, c.value, w.store.id))
            && (c.NewId? ==> w'.store == Store(w.store.a, w.store.b, c.text))
            && w' == w.(log := w'.log, store := w'.store)
            && (!w.active ==> w'.log == w.log && w'.store == Do(d, FieldOf(c)).store)
            && (w.active ==>
                  var ops := Program(d, Change(w.tid, FieldOf(c)));
                  && Proper(Change(w.tid, FieldOf(c))) && CanRun(d, ops)
                  && w'.log == LogOf(RunOps(d, ops)) && w'.store == RunOps(d, ops).store)
  {
    if w.active {
      UpdateMatches(d, w, FieldOf(c));
    }
  }

  lemma RollbackMatches(d: Disk, w: Worker)
    requires Sound(d) && w.log == LogOf(d) && w.store == d.store
    ensures var ops := Program(d, UndoAll);
            && CanRun(d, ops)
            && Rollback(w) == w.(log := LogOf(RunOps(d, ops)), store := RunOps(d, ops).store)
    ensures var ops := Program(d, StartUp);
            && CanRun(d, ops)
            && Restart(w).log == LogOf(RunOps(d, ops)) && Restart(w).store == RunOps(d, ops).store
  {
    UndoSafe(d);
  }

  // The cells as bytes

  /** The log on a disk is the log in a file, for a given reading of records as entries. */
  ghost predicate Ties(d: Disk, f: LogFile.Bytes, read: LogFile.Rec -> Entry) {
    && Sound(d) && LogFile.WellFormed(f) && d.count == LogFile.Count(f)
    && forall i :: 0 <= i < d.count ==> d.cells[i] == read(LogFile.Entries(f)[i])
  }

  /** A record is written and not yet counted. */
  ghost predicate Pending(d: Disk, f: LogFile.Bytes, read: LogFile.Rec -> Entry) {
    && d.count < |d.cells| && LogFile.Offset(d.count + 1) <= |f|
    && d.cells[d.count] == read(LogFile.RecordAt(f, d.count))
  }

  /** Writing a record, in full or cut off after any number of bytes. */
  lemma RecordOnBytes(d: Disk, f: LogFile.Bytes, read: LogFile.Rec -> Entry, r: LogFile.Rec, n: nat)
    requires Ties(d, f, read) && LogFile.ValidRec(r) && n <= LogFile.RECORD_SIZE
    ensures Ties(d, LogFile.WriteAt(f, LogFile.Offset(LogFile.Count(f)), LogFile.Encode(r)[..n]), read)
    ensures var d', g := Do(d, WriteRecord(read(r))), LogFile.RecordWritten(f, r);
            Ties(d', g, read) && Pending(d', g, read)
  {
    LogFile.TornRecord(f, r, n);
    LogFile.RecordInPlace(f, r);
    var d', g := Do(d, WriteRecord(read(r))), LogFile.RecordWritten(f, r);
    assert LogFile.Entries(g) == LogFile.Entries(f);
    assert d'.cells[d.count] == read(r);
    forall i | 0 <= i < d.count ensures d'.cells[i] == read(LogFile.Entries(g)[i]) {
      assert d'.cells[i] == d.cells[i];
    }
  }

  lemma CountOnBytes(d: Disk, f: LogFile.Bytes, read: LogFile.Rec -> Entry)
    requires Ties(d, f, read) && Pending(d, f, read) && d.count + 1 < TWO32
    ensures Ties(Do(d, BumpCount), LogFile.CountBumped(f), read)
  {
    LogFile.BumpCountsOne(f);
    var g := LogFile.CountBumped(f);
    forall i | 0 <= i < d.count + 1 ensures d.cells[i] == read(LogFile.Entries(g)[i]) {
      LogFile.BumpKeepsRecords(f, i);
      if i < d.count {
        assert LogFile.Entries(f)[i] == LogFile.RecordAt(f, i);
      }
    }
  }

  /** The writes on cells are the writes on bytes: after each of the three writes of an append
      the file holds the log that the disk holds, as long as the count does not wrap, and a
      record cut off after any number of bytes is no write at all. */
  lemma AppendOnBytes(d: Disk, f: LogFile.Bytes, read: LogFile.Rec -> Entry, r: LogFile.Rec, n: nat)
    requires Ties(d, f, read) && LogFile.ValidRec(r) && n <= LogFile.RECORD_SIZE && d.count + 1 < TWO32
    ensures Ties(d, LogFile.WriteAt(f, LogFile.Offset(LogFile.Count(f)), LogFile.Encode(r)[..n]), read)
    ensures var d1, f1 := Do(d, WriteRecord(read(r))), LogFile.RecordWritten(f, r);
            && Ties(d1, f1, read) && CanDo(d1, BumpCount)
            && Ties(Do(d1, BumpCount), LogFile.CountBumped(f1), read)
            && Ties(RunOps(d, Logging(read(r))), LogFile.Appended(f, r), read)
  {
    var d1, f1 := Do(d, WriteRecord(read(r))), LogFile.RecordWritten(f, r);
    RecordOnBytes(d, f, read, r, n);
    CountOnBytes(d1, f1, read);
    LogFile.ClockApart(LogFile.CountBumped(f1), r.clock);
    assert Logging(read(r))[1..] == [BumpCount] && [BumpCount][1..] == [];
    assert RunOps(d, Logging(read(r))) == RunOps(Do(d1, BumpCount), []);
  }

  // Crashes

  /** A crash lets the first k writes through. */
  function Cut(ops: seq<Op>, k: nat): seq<Op> {
    if k < |ops| then ops[..k] else ops
  }

  lemma {:induction false} SafePrefix(d: Disk, ops: seq<Op>, k: nat, base: Store, before: Log, after: Log)
    requires Safe(d, ops, base, before, after)
    ensures CanRun(d, Cut(ops, k))
    ensures var d' := RunOps(d, Cut(ops, k));
            Sound(d') && Target(d') == base && (LogOf(d') == before || LogOf(d') == after)
    decreases |ops|
  {
    var cut := Cut(ops, k);
    if cut != [] {
      var k' := if k < |ops| then k - 1 else |ops|;
      assert cut[0] == ops[0] && cut[1..] == Cut(ops[1..], k');
      SafePrefix(Do(d, ops[0]), ops[1..], k', base, before, after);
    }
  }

  /** A crash at any write of any handler leaves what rollback would restore, and for the
      log every handler is atomic: it is the log found or the log an undisturbed handler
      leaves. */
  lemma CrashAtomic(d: Disk, ev: Event, k: nat)
    requires Sound(d) && Proper(ev)
    ensures var ops := Program(d, ev);
            && CanRun(d, ops) && CanRun(d, Cut(ops, k))
            && var d' := RunOps(d, Cut(ops, k));
               Target(d') == Target(d) && (LogOf(d') == LogOf(d) || LogOf(d') == LogOf(RunOps(d, ops)))
  {
    ProgramSafe(d, ev);
    SafePrefix(d, Program(d, ev), k, Target(d), LogOf(d), LogAfter(d, ev));
  }

  /** A run of events, each of which may be cut short by a crash after any write. */
  function After(d: Disk, evs: seq<(Event, nat)>): Disk
    requires Sound(d) && forall i :: 0 <= i < |evs| ==> Proper(evs[i].0)
    decreases |evs|
  {
    if evs == [] then d
    else
      var ops := Program(d, evs[0].0);
      CrashAtomic(d, evs[0].0, evs[0].1);
      After(RunOps(d, Cut(ops, evs[0].1)), evs[1..])
  }

  /** What rollback would restore never changes; without a vote PREPARED is not logged. */
  lemma {:induction false} AfterKeeps(d: Disk, evs: seq<(Event, nat)>)
    requires Sound(d) && forall i :: 0 <= i < |evs| ==> Proper(evs[i].0)
    ensures Sound(After(d, evs)) && Target(After(d, evs)) == Target(d)
    ensures !LastIs(LogOf(d), LPrepared) && (forall i :: 0 <= i < |evs| ==> !evs[i].0.Vote?) ==>
              !LastIs(LogOf(After(d, evs)), LPrepared)
    decreases |evs|
  {
    if evs != [] {
      var ev, k := evs[0].0, evs[0].1;
      ProgramSafe(d, ev);
      CrashAtomic(d, ev, k);
      assert !LastIs(LogOf(d), LPrepared) && !ev.Vote? ==> !LastIs(LogAfter(d, ev), LPrepared);
      AfterKeeps(RunOps(d, Cut(Program(d, ev), k)), evs[1..]);
    }
  }

  lemma StartUpRestores(d: Disk)
    requires Sound(d) && !LastIs(LogOf(d), LPrepared)
    ensures CanRun(d, Program(d, StartUp)) && RunOps(d, Program(d, StartUp)).store == Target(d)
  {
    if LastIs(LogOf(d), LUpdate) {
      UndoSafe(d);
    }
  }

  /** Undo recovery: start from a store whose transaction has just begun, let updates,
      aborts and restarts follow in any order and let each be cut off by a crash at any
      write, part-way through a rollback included. A restart that completes then leaves the
      store as it was at BEGIN. */
  lemma {:induction false} RestartRestoresBegin(d: Disk, evs: seq<(Event, nat)>)
    requires Sound(d) && LastIs(LogOf(d), LBegin)
    requires forall i :: 0 <= i < |evs| ==> Proper(evs[i].0) && !evs[i].0.Vote?
    ensures var d' := After(d, evs);
            && Sound(d') && CanRun(d', Program(d', StartUp))
            && RunOps(d', Program(d', StartUp)).store == d.store
  {
    AfterKeeps(d, evs);
    StartUpRestores(After(d, evs));
  }

  /** The same with a vote to commit among the events: a restart may now find PREPARED, and
      then writes nothing, but an abort that completes still leaves the store of BEGIN. */
  lemma {:induction false} AbortRestoresBegin(d: Disk, evs: seq<(Event, nat)>)
    requires Sound(d) && LastIs(LogOf(d), LBegin)
    requires forall i :: 0 <= i < |evs| ==> Proper(evs[i].0)
    ensures var d' := After(d, evs);
            && Sound(d') && CanRun(d', Program(d', UndoAll))
            && RunOps(d', Program(d', UndoAll)).store == d.store
            && (LastIs(LogOf(d'), LPrepared) ==> Program(d', StartUp) == [])
  {
    AfterKeeps(d, evs);
    UndoSafe(After(d, evs));
  }

  // After the vote

  function ObeyAll(w: Worker, cs: seq<Command>): Worker
    decreases |cs|
  {
    if cs == [] then w else ObeyAll(Obey(w, cs[0]).worker, cs[1..])
  }

  lemma UpdateOnce(w: Worker, store: Store)
    requires w.active && Stop(w.log) >= 0
    ensures var w' := Update(w, store);
            && w'.active && Stop(w'.log) >= 0 && w'.port == w.port && LastIs(w'.log, LUpdate)
  {
    var u := Entry(LUpdate, w.tid, w.store);
    assert (w.log + [u])[..|w.log + [u]| - 1] == w.log;
  }

  lemma RollbackOnce(w: Worker)
    requires w.active && Stop(w.log) >= 0
    ensures var w' := Rollback(w);
            && w'.active && Stop(w'.log) >= 0 && w'.port == w.port && LastIs(w'.log, LAbort)
  {
  }

  lemma ObeyOnce(w: Worker, c: Command)
    requires w.active && Stop(w.log) >= 0
    ensures var w' := Obey(w, c).worker;
            && w'.active && Stop(w'.log) >= 0 && w'.port == w.port
            && (if Disturbs(c) then LastIs(w'.log, LUpdate) || LastIs(w'.log, LAbort)
                else w'.log == w.log && w'.store == w.store)
  {
    match c
    case NewA(v) => UpdateOnce(w, w.store.(a := v));
    case NewB(v) => UpdateOnce(w, w.store.(b := v));
    case NewId(s) => UpdateOnce(w, w.store.(id := s));
    case AbortCmd => RollbackOnce(w);
    case _ =>
  }

  lemma {:induction false} Disturbed(w: Worker, cs: seq<Command>)
    requires w.active && Stop(w.log) >= 0 && (LastIs(w.log, LUpdate) || LastIs(w.log, LAbort))
    ensures var w' := ObeyAll(w, cs); LastIs(w'.log, LUpdate) || LastIs(w'.log, LAbort)
    decreases |cs|
  {
    if cs != [] {
      ObeyOnce(w, cs[0]);
      Disturbed(Obey(w, cs[0]).worker, cs[1..]);
    }
  }

  lemma {:induction false} Undisturbed(w: Worker, cs: seq<Command>)
    requires w.active && Stop(w.log) >= 0 && LastIs(w.log, LPrepared)
    ensures var w' := ObeyAll(w, cs);
            if (forall i :: 0 <= i < |cs| ==> !Disturbs(cs[i])) then w'.log == w.log && w'.store == w.store && w'.port == w.port
            else LastIs(w'.log, LUpdate) || LastIs(w'.log, LAbort)
    decreases |cs|
  {
    if cs != [] {
      var next := Obey(w, cs[0]).worker;
      ObeyOnce(w, cs[0]);
      if Disturbs(cs[0]) {
        Disturbed(next, cs[1..]);
      } else {
        Undisturbed(next, cs[1..]);
        assert forall i :: 1 <= i < |cs| ==> cs[i] == cs[1..][i - 1];
      }
    }
  }

  /** A prepared worker that goes through any list of commands and a crash comes back
      uncertain, on its old port and with the log and the store of its vote, exactly when
      the list holds no update and no abort: the code does not refuse those after the vote. */
  lemma PreparedSurvivesExactly(w: Worker, cs: seq<Command>)
    requires w.active && w.uncertain && LastIs(w.log, LPrepared) && Stop(w.log) >= 0
    ensures var w' := Restart(ObeyAll(w, cs).(up := false));
            && (w'.uncertain <==> forall i :: 0 <= i < |cs| ==> !Disturbs(cs[i]))
            && (w'.uncertain ==> w'.log == w.log && w'.store == w.store && w'.ep == w.port)
  {
    Undisturbed(w, cs);
  }
}
