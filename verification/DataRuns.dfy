/** The data over whole runs: what a worker's store holds when its transaction is aborted or
    committed, with crashes that stop handlers between any two writes. */
module DataRuns {
  import opened Types
  import opened TxLog
  import opened Worker
  import opened Segments
  import opened System
  import opened Invariant
  import opened Theorems
  import WorkerSteps
  import Undo

  /** `base` holds the store of each participation when it logged BEGIN, `voted` its store
      when it logged PREPARED. No process reads them. */
  datatype Data = Data(sys: Sys, base: map<nat, Store>, voted: map<nat, Store>)

  /** The worker may be in the middle of a rollback that a message or a user has ordered. */
  predicate Undoing(rules: Rules, s: Sys, w: nat) {
    && Running(s, w) && s.workers[w].active
    && (ToWorker(s.workers[w].ep, Abort) in s.net || rules.lateAborts)
  }

  /** What a crash can leave in the store: what was there or, in the middle of a rollback or
      of an update, something that has the same rollback. */
  predicate Leaves(log: Log, store: Store, left: Store, undoing: bool) {
    || left == store
    || ((LastIs(log, LUpdate) || undoing) && Unwind(log, left) == Unwind(log, store))
  }

  predicate Possible(rules: Rules, d: Data, step: Step) {
    && Enabled(rules, d.sys, step)
    && (step.WorkerCrashes? ==>
          var k := d.sys.workers[step.w];
          Leaves(k.log, k.store, step.left, Undoing(rules, d.sys, step.w)))
  }

  predicate VotesYes(k: Worker, step: Step) {
    step.VoteDies? || (step.WorkerReceives? && React(k, step.p.mtype).vote == Some(true))
  }

  function Next(rules: Rules, d: Data, step: Step): Data
    requires Possible(rules, d, step)
  {
    var s' := Apply(rules, d.sys, step);
    if step.Starts? then
      Data(s', d.base[s'.workers[step.w].ep := d.sys.workers[step.w].store], d.voted)
    else if (step.VoteDies? || step.WorkerReceives?) && VotesYes(d.sys.workers[step.w], step) then
      Data(s', d.base, d.voted[d.sys.workers[step.w].ep := d.sys.workers[step.w].store])
    else Data(s', d.base, d.voted)
  }

  function First(n: nat): Data {
    Data(Init(n), map[], map[])
  }

  predicate Goes(rules: Rules, d: Data, steps: seq<Step>)
    decreases |steps|
  {
    steps == [] || (Possible(rules, d, steps[0]) && Goes(rules, Next(rules, d, steps[0]), steps[1..]))
  }

  function Ends(rules: Rules, d: Data, steps: seq<Step>): Data
    requires Goes(rules, d, steps)
    decreases |steps|
  {
    if steps == [] then d else Ends(rules, Next(rules, d, steps[0]), steps[1..])
  }

  ghost predicate ReachedBy(rules: Rules, n: nat, steps: seq<Step>, d: Data) {
    Goes(rules, First(n), steps) && Ends(rules, First(n), steps) == d
  }

  ghost predicate Reached(rules: Rules, d: Data) {
    exists n, steps :: ReachedBy(rules, n, steps, d)
  }

  /** Some run with such crashes ends in s. */
  ghost predicate Attained(rules: Rules, s: Sys) {
    exists d :: Reached(rules, d) && d.sys == s
  }

  lemma {:induction false} Project(rules: Rules, d: Data, steps: seq<Step>)
    requires Goes(rules, d, steps)
    ensures Valid(rules, d.sys, steps) && Run(rules, d.sys, steps) == Ends(rules, d, steps).sys
    decreases |steps|
  {
    if steps != [] {
      Project(rules, Next(rules, d, steps[0]), steps[1..]);
    }
  }

  /** These runs are among the runs of the system. */
  lemma AttainedReachable(rules: Rules, s: Sys)
    requires Attained(rules, s)
    ensures Reachable(rules, s)
  {
    var d :| Reached(rules, d) && d.sys == s;
    var n, steps :| ReachedBy(rules, n, steps, d);
    Project(rules, First(n), steps);
    assert ReachableIn(rules, n, steps, s);
  }

  lemma {:induction false} GoesOn(rules: Rules, d: Data, steps: seq<Step>, step: Step)
    requires Goes(rules, d, steps) && Possible(rules, Ends(rules, d, steps), step)
    ensures Goes(rules, d, steps + [step])
    ensures Ends(rules, d, steps + [step]) == Next(rules, Ends(rules, d, steps), step)
    decreases |steps|
  {
    if steps != [] {
      assert (steps + [step])[1..] == steps[1..] + [step];
      GoesOn(rules, Next(rules, d, steps[0]), steps[1..], step);
    }
  }

  lemma ReachedNext(rules: Rules, d: Data, step: Step)
    requires Reached(rules, d) && Possible(rules, d, step)
    ensures Reached(rules, Next(rules, d, step))
  {
    var n, steps :| ReachedBy(rules, n, steps, d);
    GoesOn(rules, First(n), steps, step);
    assert ReachedBy(rules, n, steps + [step], Next(rules, d, step));
  }

  // Crashes between two writes

  /** The stages of an update: nothing, the record, its count, the field. */
  lemma UpdateStages(d: Undo.Disk, x: Entry, field: Undo.Op, n: nat)
    requires Undo.Sound(d) && Undo.SetsField(field)
    ensures var ops := Undo.Logging(x) + [field];
            && Undo.CanRun(d, ops) && Undo.CanRun(d, Undo.Cut(ops, n))
            && var cut := Undo.RunOps(d, Undo.Cut(ops, n));
               && (n <= 2 ==> cut.store == d.store)
               && (n <= 1 ==> Undo.LogOf(cut) == Undo.LogOf(d))
               && (n >= 2 ==> Undo.LogOf(cut) == Undo.LogOf(d) + [x])
               && (n >= 3 ==> cut == Undo.RunOps(d, ops))
  {
    var w, b := Undo.WriteRecord(x), Undo.BumpCount;
    var ops := Undo.Logging(x) + [field];
    Undo.RecordLogged(d, x);
    var d1 := Undo.Do(d, w);
    var d2 := Undo.Do(d1, b);
    var d3 := Undo.Do(d2, field);
    assert Undo.LogOf(d3) == Undo.LogOf(d2);
    RunsFirst(d2, field, []);
    RunsFirst(d1, b, [field]);
    RunsFirst(d, w, [b] + [field]);
    assert ops == [w] + ([b] + [field]) && [field] + [] == [field];
    assert Undo.RunOps(d, ops) == d3;
    if n == 1 {
      RunsFirst(d, w, []);
      assert Undo.Cut(ops, n) == [w] + [];
    } else if n == 2 {
      RunsFirst(d1, b, []);
      RunsFirst(d, w, [b] + []);
      assert Undo.Cut(ops, n) == [w] + ([b] + []);
    }
  }

  lemma RunsFirst(d: Undo.Disk, op: Undo.Op, rest: seq<Undo.Op>)
    requires Undo.CanDo(d, op) && Undo.CanRun(Undo.Do(d, op), rest)
    ensures Undo.CanRun(d, [op] + rest)
    ensures Undo.RunOps(d, [op] + rest) == Undo.RunOps(Undo.Do(d, op), rest)
  {
    assert ([op] + rest)[1..] == rest;
  }

  lemma VoteStages(d: Undo.Disk, x: Entry, n: nat)
    requires Undo.Sound(d)
    ensures var ops := Undo.Logging(x);
            && Undo.CanRun(d, ops) && Undo.CanRun(d, Undo.Cut(ops, n))
            && var cut, full := Undo.RunOps(d, Undo.Cut(ops, n)), Undo.RunOps(d, ops);
               && cut.store == d.store && full.store == d.store
               && (Undo.LogOf(cut) == Undo.LogOf(d) || cut == full)
  {
    var w, b := Undo.WriteRecord(x), Undo.BumpCount;
    var ops := Undo.Logging(x);
    Undo.RecordLogged(d, x);
    RunsFirst(Undo.Do(d, w), b, []);
    RunsFirst(d, w, [b] + []);
    assert ops == [w] + ([b] + []);
    if n == 1 {
      RunsFirst(d, w, []);
      assert Undo.Cut(ops, n) == [w] + [];
    }
  }

  /** Every crash between two writes of a handler or of a startup leaves the log before or
      the log after it, and with that log a store that a crash may leave in this model. */
  lemma CutLeaves(d: Undo.Disk, ev: Undo.Event, n: nat)
    requires Undo.Sound(d) && Undo.Proper(ev)
    ensures var ops := Undo.Program(d, ev);
            && Undo.CanRun(d, ops) && Undo.CanRun(d, Undo.Cut(ops, n))
            && var cut, full := Undo.RunOps(d, Undo.Cut(ops, n)), Undo.RunOps(d, ops);
               || (Undo.LogOf(cut) == Undo.LogOf(d) && Leaves(Undo.LogOf(d), d.store, cut.store, ev.UndoAll?))
               || (Undo.LogOf(cut) == Undo.LogOf(full) && Leaves(Undo.LogOf(full), full.store, cut.store, false))
  {
    var ops := Undo.Program(d, ev);
    match ev
    case Change(tid, field) =>
      var x := Entry(LUpdate, tid, d.store);
      UpdateStages(d, x, field, n);
      UpdateStages(d, x, field, 3);
      var full := Undo.RunOps(d, ops);
      Undo.UnwindAppend(Undo.LogOf(d), x, full.store);
      Undo.UnwindAppend(Undo.LogOf(d), x, d.store);
    case Vote(tid) => VoteStages(d, Record(LPrepared, tid), n);
    case _ => UndoLeaves(d, ev, n);
  }

  /** The same for a command of the user at an active worker: the log before or the log after
      it, with a store that the crash step allows with that log. */
  lemma CommandLeaves(d: Undo.Disk, k: Worker, c: Command, n: nat)
    requires Undo.Sound(d) && k.active && k.log == Undo.LogOf(d) && k.store == d.store && Updates(c)
    ensures var ops := Undo.Program(d, Undo.Change(k.tid, Undo.FieldOf(c)));
            && Undo.CanRun(d, Undo.Cut(ops, n))
            && var cut, k' := Undo.RunOps(d, Undo.Cut(ops, n)), Obey(k, c).worker;
               || (Undo.LogOf(cut) == k.log && Leaves(k.log, k.store, cut.store, false))
               || (Undo.LogOf(cut) == k'.log && Leaves(k'.log, k'.store, cut.store, false))
  {
    Undo.CommandMatches(d, k, c);
    CutLeaves(d, Undo.Change(k.tid, Undo.FieldOf(c)), n);
  }

  lemma UndoLeaves(d: Undo.Disk, ev: Undo.Event, n: nat)
    requires Undo.Sound(d) && (ev.UndoAll? || ev.StartUp?)
    ensures var ops := Undo.Program(d, ev);
            && Undo.CanRun(d, ops) && Undo.CanRun(d, Undo.Cut(ops, n))
            && var cut, full := Undo.RunOps(d, Undo.Cut(ops, n)), Undo.RunOps(d, ops);
               || (Undo.LogOf(cut) == Undo.LogOf(d) && Leaves(Undo.LogOf(d), d.store, cut.store, ev.UndoAll?))
               || (Undo.LogOf(cut) == Undo.LogOf(full) && Leaves(Undo.LogOf(full), full.store, cut.store, false))
  {
    var ops := Undo.Program(d, ev);
    Undo.CrashAtomic(d, ev, n);
    Undo.UndoSafe(d);
    if ops != [] && Undo.LogOf(Undo.RunOps(d, Undo.Cut(ops, n))) != Undo.LogOf(d) {
      assert LastIs(AbortLogged(Undo.LogOf(d)), LAbort);
    }
  }

  // What handlers do to the rollback

  /** A worker whose store a rollback would still restore. */
  predicate Live(k: Worker) {
    (k.up && k.active) || LastIs(k.log, LPrepared) || LastIs(k.log, LUpdate)
  }

  predicate Sane(k: Worker) {
    && (k.up && LastIs(k.log, LPrepared) ==> k.active && k.uncertain)
    && ((k.up && k.active) || LastIs(k.log, LPrepared) ==> CurStart(k.log) >= 0)
  }

  /** A step of a worker within a participation keeps what a rollback would restore for as
      long as there is something to restore. */
  ghost predicate Tracks(k: Worker, k': Worker) {
    && Sane(k')
    && (k'.log == k.log || exists x :: k'.log == k.log + [x] && x.kind != LBegin)
    && (Live(k') ==> Live(k) && Unwind(k'.log, k'.store) == Unwind(k.log, k.store))
    && (k'.log != k.log && LastIs(k'.log, LAbort) ==> Live(k) && k'.store == Unwind(k.log, k.store))
  }

  lemma RollbackTracks(k: Worker, k': Worker)
    requires CurStart(k.log) >= 0 && Live(k)
    requires k' == Rollback(k).(active := k'.active, uncertain := k'.uncertain, doCommit := k'.doCommit, doAbort := k'.doAbort)
    ensures Tracks(k, k')
  {
    RollbackAppends(k.log);
    var x := Record(LAbort, k.log[Stop(k.log)].tid);
    assert k'.log == k.log + [x];
    SegAppend(k.log, x);
  }

  lemma AppendTracks(k: Worker, k': Worker, x: Entry)
    requires Sane(k) && k.up && k.active && k'.log == k.log + [x]
    requires (x.kind == LUpdate && x.undo == k.store) || (x.kind == LPrepared && k'.store == k.store && k'.active && k'.uncertain)
    ensures Tracks(k, k')
  {
    SegAppend(k.log, x);
    Undo.UnwindAppend(k.log, x, k'.store);
  }

  lemma ObeyTracks(k: Worker, c: Command)
    requires Sane(k) && k.up
    ensures Tracks(k, Obey(k, c).worker)
  {
    var k' := Obey(k, c).worker;
    if k.active && Updates(c) {
      AppendTracks(k, k', Entry(LUpdate, k.tid, k.store));
    } else if k.active && c.AbortCmd? {
      RollbackTracks(k, k');
    }
  }

  lemma ReactTracks(k: Worker, mtype: MsgType)
    requires Sane(k) && k.up && k.active
    ensures Tracks(k, React(k, mtype).worker)
  {
    var k' := React(k, mtype).worker;
    if mtype == PrepareToCommit && k'.log != k.log {
      AppendTracks(k, k', Record(LPrepared, k.tid));
    } else if mtype == Abort {
      RollbackTracks(k, k');
    } else if mtype == Commit {
      assert k'.log == k.log + [Record(LCommit, k.tid)];
    }
  }

  lemma RestartTracks(k: Worker)
    requires Sane(k) && !k.up
    ensures Tracks(k, Restart(k))
  {
    UnwindIdempotent(k.log, k.store);
  }

  lemma CrashTracks(k: Worker, left: Store, undoing: bool)
    requires Sane(k) && Leaves(k.log, k.store, left, undoing) && (undoing ==> k.up && k.active)
    ensures Tracks(k, k.(up := false, store := left))
  {
  }

  // The store of BEGIN

  /** `e` is the participation at the end of the log of worker w. */
  ghost predicate Here(s: Sys, w: nat, e: nat)
    requires w < |s.workers|
  {
    && e in s.parts && s.parts[e].begun && s.parts[e].wid == w
    && s.parts[e].start == CurStart(s.workers[w].log)
  }

  ghost predicate Placed(s: Sys, e: nat)
    requires e in s.parts
  {
    s.parts[e].begun ==>
      s.parts[e].wid < |s.workers| && s.parts[e].start < |s.workers[s.parts[e].wid].log|
  }

  ghost predicate BaseOk(d: Data, w: nat)
    requires w < |d.sys.workers|
  {
    var k := d.sys.workers[w];
    && Sane(k)
    && forall e :: Here(d.sys, w, e) ==>
         e in d.base && (Live(k) ==> Unwind(k.log, k.store) == d.base[e])
  }

  ghost predicate DataInv(d: Data) {
    && (forall e :: e in d.sys.parts ==> Placed(d.sys, e))
    && (forall w: nat :: w < |d.sys.workers| ==> BaseOk(d, w))
  }

  /** A step of worker w within its participation. */
  lemma WorkerData(d: Data, d': Data, w: nat)
    requires DataInv(d) && w < |d.sys.workers| == |d'.sys.workers|
    requires forall v :: 0 <= v < |d.sys.workers| && v != w ==> d'.sys.workers[v] == d.sys.workers[v]
    requires d'.sys.parts == d.sys.parts && d'.base == d.base
    requires Tracks(d.sys.workers[w], d'.sys.workers[w])
    ensures DataInv(d')
  {
    var k, k' := d.sys.workers[w], d'.sys.workers[w];
    if k'.log != k.log {
      var x :| k'.log == k.log + [x] && x.kind != LBegin;
      SegAppend(k.log, x);
    }
    forall e | e in d'.sys.parts ensures Placed(d'.sys, e) {
      assert Placed(d.sys, e);
    }
    forall v: nat | v < |d'.sys.workers| ensures BaseOk(d', v) {
      assert BaseOk(d, v);
      assert forall e :: Here(d'.sys, v, e) ==> Here(d.sys, v, e);
    }
  }

  /** A step that leaves workers and endpoints alone. */
  lemma OthersData(d: Data, d': Data)
    requires DataInv(d) && d'.sys.workers == d.sys.workers && d'.sys.parts == d.sys.parts && d'.base == d.base
    ensures DataInv(d')
  {
    forall e | e in d'.sys.parts ensures Placed(d'.sys, e) {
      assert Placed(d.sys, e);
    }
    forall v: nat | v < |d'.sys.workers| ensures BaseOk(d', v) {
      assert BaseOk(d, v);
      assert forall e :: Here(d'.sys, v, e) ==> Here(d.sys, v, e);
    }
  }

  /** A new participation, which may have died before its BEGIN, at an endpoint that may have
      been used before. */
  lemma StartData(rules: Rules, d: Data, step: Step)
    requires DataInv(d) && Possible(rules, d, step) && (step.Starts? || step.StartDies?)
    ensures DataInv(Next(rules, d, step))
  {
    var d', w := Next(rules, d, step), step.w;
    StartPlaced(rules, d, step);
    forall v: nat | v < |d'.sys.workers| ensures BaseOk(d', v) {
      if v == w {
        StartOwn(rules, d, step);
      } else {
        StartOther(rules, d, step, v);
      }
    }
  }

  lemma StartOwn(rules: Rules, d: Data, step: Step)
    requires DataInv(d) && Possible(rules, d, step) && (step.Starts? || step.StartDies?)
    ensures BaseOk(Next(rules, d, step), step.w)
  {
    var d', w := Next(rules, d, step), step.w;
    var k, k' := d.sys.workers[w], d'.sys.workers[w];
    SegAppend(k.log, Record(LBegin, step.tid));
    CurStartBounds(k.log);
    assert BaseOk(d, w);
    forall e | Here(d'.sys, w, e) && (step.StartDies? || e != k'.ep) ensures Here(d.sys, w, e) {
      assert Placed(d.sys, e);
    }
  }

  lemma StartOther(rules: Rules, d: Data, step: Step, v: nat)
    requires DataInv(d) && Possible(rules, d, step) && (step.Starts? || step.StartDies?)
    requires v < |d.sys.workers| && v != step.w
    ensures BaseOk(Next(rules, d, step), v)
  {
    var d' := Next(rules, d, step);
    assert BaseOk(d, v);
    forall e | Here(d'.sys, v, e) ensures Here(d.sys, v, e) && e != d'.sys.workers[step.w].ep {
      assert d'.sys.parts[d'.sys.workers[step.w].ep].wid == step.w;
    }
  }

  lemma StartPlaced(rules: Rules, d: Data, step: Step)
    requires DataInv(d) && Possible(rules, d, step) && (step.Starts? || step.StartDies?)
    ensures forall e :: e in Next(rules, d, step).sys.parts ==> Placed(Next(rules, d, step).sys, e)
  {
    var d' := Next(rules, d, step);
    forall e | e in d'.sys.parts ensures Placed(d'.sys, e) {
      if e != d'.sys.workers[step.w].ep {
        assert Placed(d.sys, e);
      }
    }
  }

  lemma StepData(rules: Rules, d: Data, step: Step)
    requires DataInv(d) && Possible(rules, d, step)
    ensures DataInv(Next(rules, d, step))
  {
    var d' := Next(rules, d, step);
    match step
    case Starts(w, fresh', tid, mtype) => StartData(rules, d, step);
    case StartDies(w, fresh', tid, mtype) => StartData(rules, d, step);
    case Lose(_) => OthersData(d, d');
    case ManagerReceives(_, _) => OthersData(d, d');
    case ManagerCrashes => OthersData(d, d');
    case RecoveryStops(_) => OthersData(d, d');
    case ManagerRestarts => OthersData(d, d');
    case Asks(_) => OthersData(d, d');
    case _ =>
      MoveTracks(rules, d, step, step.w);
      WorkerData(d, d', step.w);
  }

  lemma NextMoved(rules: Rules, d: Data, step: Step)
    requires Possible(rules, d, step) && Acts(step)
    ensures Next(rules, d, step).sys.workers[step.w] == Moved(d.sys.workers[step.w], step)
    ensures Next(rules, d, step).sys.parts == d.sys.parts
  {
    ActsOnOne(rules, d.sys, step);
  }

  lemma MoveTracks(rules: Rules, d: Data, step: Step, w: nat)
    requires DataInv(d) && Possible(rules, d, step)
    requires Acts(step) && w == step.w
    ensures Tracks(d.sys.workers[w], Next(rules, d, step).sys.workers[w])
  {
    var k := d.sys.workers[w];
    assert BaseOk(d, w);
    NextMoved(rules, d, step);
    match step
    case Obeys(_, c) => ObeyTracks(k, c);
    case WorkerReceives(_, p, _) => ReactTracks(k, p.mtype);
    case VoteDies(_, p, _) => ReactTracks(k, p.mtype);
    case WorkerCrashes(_, left) => CrashTracks(k, left, Undoing(rules, d.sys, w));
    case WorkerRestarts(_) => RestartTracks(k);
  }

  /** The other workers, and all of them in a step of the manager or the network. */
  predicate Elsewhere(step: Step, v: nat) {
    Acts(step) || step.Starts? || step.StartDies? ==> step.w != v
  }

  lemma SameWorker(rules: Rules, d: Data, step: Step, v: nat)
    requires Possible(rules, d, step) && v < |d.sys.workers| && Elsewhere(step, v)
    ensures v < |Next(rules, d, step).sys.workers|
    ensures Next(rules, d, step).sys.workers[v] == d.sys.workers[v]
  {
  }

  lemma {:induction false} RunData(rules: Rules, d: Data, steps: seq<Step>)
    requires DataInv(d) && Goes(rules, d, steps)
    ensures DataInv(Ends(rules, d, steps))
    decreases |steps|
  {
    if steps != [] {
      StepData(rules, d, steps[0]);
      RunData(rules, Next(rules, d, steps[0]), steps[1..]);
    }
  }

  lemma ReachedData(rules: Rules, d: Data)
    requires Reached(rules, d)
    ensures DataInv(d)
  {
    var n, steps :| ReachedBy(rules, n, steps, d);
    RunData(rules, First(n), steps);
  }

  /** Undo target: in every reachable state, while a participation is active or its last
      record is UPDATE or PREPARED, what a rollback would restore is the store at its BEGIN,
      whatever the network, the users and the crashes did. */
  lemma TargetIsBegin(rules: Rules, d: Data, w: nat, e: nat)
    requires Reached(rules, d) && w < |d.sys.workers| && Here(d.sys, w, e) && Live(d.sys.workers[w])
    ensures e in d.base && Unwind(d.sys.workers[w].log, d.sys.workers[w].store) == d.base[e]
  {
    ReachedData(rules, d);
    assert BaseOk(d, w);
  }

  /** Aborted means undone: the step that logs ABORT for a participation, on a message, a
      command or a restart, leaves the store as it was at its BEGIN. */
  lemma AbortRestores(rules: Rules, d: Data, step: Step, w: nat, e: nat)
    requires Reached(rules, d) && Possible(rules, d, step) && w < |d.sys.workers| && Here(d.sys, w, e)
    requires var log, log' := d.sys.workers[w].log, Next(rules, d, step).sys.workers[w].log;
             log' != log && LastIs(log', LAbort)
    ensures e in d.base && Next(rules, d, step).sys.workers[w].store == d.base[e]
  {
    ReachedData(rules, d);
    assert BaseOk(d, w);
    if Elsewhere(step, w) {
      SameWorker(rules, d, step, w);
    } else if Acts(step) {
      MoveTracks(rules, d, step, w);
    }
  }

  // The store of the vote

  /** A participation that waits for a decision and has not been aborted. */
  ghost predicate Waits(s: Sys, w: nat, e: nat)
    requires w < |s.workers|
  {
    && Here(s, w, e) && s.parts[e].tid != 0
    && LastIs(s.workers[w].log, LPrepared) && StatusOf(s.mgr.log, s.parts[e].tid) != Aborted
  }

  ghost predicate VotedOk(d: Data, w: nat, e: nat)
    requires w < |d.sys.workers|
  {
    Waits(d.sys, w, e) ==> e in d.voted && d.voted[e] == d.sys.workers[w].store
  }

  ghost predicate VotedInv(d: Data) {
    forall w: nat, e :: w < |d.sys.workers| ==> VotedOk(d, w, e)
  }

  /** What is not aborted after a step was not aborted before it. */
  lemma NotAborted(rules: Rules, s: Sys, step: Step, tid: nat)
    requires Inv(rules, s) && Enabled(rules, s, step) && Inv(rules, Apply(rules, s, step)) && tid != 0
    requires StatusOf(Apply(rules, s, step).mgr.log, tid) != Aborted
    ensures StatusOf(s.mgr.log, tid) != Aborted
  {
    var s' := Apply(rules, s, step);
    assert TidOk(s, tid) && TidOk(s', tid);
    LogGrows(rules, s, [step]);
    assert [step][1..] == [];
    assert Run(rules, s, [step]) == Run(rules, s', []) == s';
    var more := s'.mgr.log[|s.mgr.log|..];
    assert s'.mgr.log == s.mgr.log + more;
    if StatusOf(s.mgr.log, tid) == Aborted {
      StatusStable(s.mgr.log, more, tid);
    }
  }

  /** A worker that already waits: only its own crash in a rollback changes the store. */
  lemma WaitingStays(rules: Rules, d: Data, step: Step, w: nat, e: nat)
    requires !Late(rules) && Inv(rules, d.sys) && Possible(rules, d, step)
    requires Acts(step) && w == step.w && Waits(d.sys, w, e)
    requires LastIs(Next(rules, d, step).sys.workers[w].log, LPrepared)
    ensures Next(rules, d, step).sys.workers[w].store == d.sys.workers[w].store
    ensures Next(rules, d, step).voted == d.voted
  {
    var s, k := d.sys, d.sys.workers[w];
    WorkerSteps.PreparedWaits(rules, s, w);
    if Undoing(rules, s, w) {
      UndoingIsAborted(rules, s, w, e);
    }
    NextMoved(rules, d, step);
    RollbackAppends(k.log);
    MovedWaiting(k, step);
  }

  lemma MovedWaiting(k: Worker, step: Step)
    requires Acts(step) && !step.VoteDies? && LastIs(k.log, LPrepared) && (k.up ==> k.active && k.uncertain)
    requires step.Obeys? ==> k.up && !Disturbs(step.c)
    requires (step.WorkerReceives? ==> k.up) && Stop(k.log) >= 0
    requires LastIs(Moved(k, step).log, LPrepared)
    ensures !step.WorkerCrashes? ==> Moved(k, step).store == k.store
    ensures step.WorkerReceives? ==> !VotesYes(k, step)
  {
  }

  /** Without late commands only the manager's abort starts a rollback after the vote. */
  lemma UndoingIsAborted(rules: Rules, s: Sys, w: nat, e: nat)
    requires !Late(rules) && Inv(rules, s) && Undoing(rules, s, w) && Here(s, w, e) && s.parts[e].tid != 0
    ensures StatusOf(s.mgr.log, s.parts[e].tid) == Aborted
  {
    WorkerSteps.OneCurrent(rules, s, w, e);
    assert PacketOk(s, ToWorker(s.workers[w].ep, Abort));
  }

  // Who logs what

  lemma ObeyLogs(k: Worker, c: Command)
    requires Sane(k) && k.up
    ensures var k' := Obey(k, c).worker;
            k'.log == k.log || LastIs(k'.log, LUpdate) || LastIs(k'.log, LAbort)
  {
    if k.active && c.AbortCmd? {
      RollbackAppends(k.log);
    }
  }

  lemma RestartLogs(k: Worker)
    ensures Restart(k).log == k.log || LastIs(Restart(k).log, LAbort)
  {
  }

  lemma ReactLogs(k: Worker, mtype: MsgType)
    requires Sane(k) && k.up && k.active
    ensures var r := React(k, mtype);
            || (r.worker.log == k.log && r.vote != Some(true))
            || (LastIs(r.worker.log, LPrepared) && r.vote == Some(true))
            || (LastIs(r.worker.log, LCommit) && mtype == Commit && r.worker.store == k.store)
            || LastIs(r.worker.log, LAbort)
  {
    RollbackAppends(k.log);
  }

  /** PREPARED is logged by a vote to commit and by nothing else. */
  lemma PreparedByVote(rules: Rules, d: Data, step: Step, w: nat)
    requires DataInv(d) && Possible(rules, d, step)
    requires Acts(step) && w == step.w && LastIs(Next(rules, d, step).sys.workers[w].log, LPrepared)
    ensures !LastIs(d.sys.workers[w].log, LPrepared) ==>
              (step.WorkerReceives? || step.VoteDies?) && VotesYes(d.sys.workers[w], step)
  {
    var k := d.sys.workers[w];
    assert BaseOk(d, w);
    NextMoved(rules, d, step);
    match step
    case Obeys(_, c) => ObeyLogs(k, c);
    case WorkerReceives(_, p, _) => ReactLogs(k, p.mtype);
    case WorkerRestarts(_) => RestartLogs(k);
    case _ =>
  }

  lemma HereBefore(rules: Rules, d: Data, step: Step, w: nat, e: nat)
    requires DataInv(d) && Possible(rules, d, step)
    requires Acts(step) && w == step.w && Here(Next(rules, d, step).sys, w, e)
    ensures Here(d.sys, w, e)
  {
    MoveTracks(rules, d, step, w);
    NextMoved(rules, d, step);
    TracksStart(d.sys.workers[w], Next(rules, d, step).sys.workers[w]);
  }

  lemma TracksStart(k: Worker, k': Worker)
    requires Tracks(k, k')
    ensures CurStart(k'.log) == CurStart(k.log)
  {
    if k'.log != k.log {
      var x :| k'.log == k.log + [x] && x.kind != LBegin;
      SegAppend(k.log, x);
    }
  }

  lemma JustVoted(rules: Rules, d: Data, step: Step, w: nat, e: nat)
    requires Inv(rules, d.sys) && DataInv(d) && Possible(rules, d, step) && Acts(step) && w == step.w
    requires Here(d.sys, w, e) && !LastIs(d.sys.workers[w].log, LPrepared)
    requires LastIs(Next(rules, d, step).sys.workers[w].log, LPrepared)
    ensures var d' := Next(rules, d, step); e in d'.voted && d'.voted[e] == d'.sys.workers[w].store
  {
    PreparedByVote(rules, d, step, w);
    WorkerSteps.OneCurrent(rules, d.sys, w, e);
  }

  lemma WorkerVoted(rules: Rules, d: Data, step: Step, w: nat, e: nat)
    requires Reliable(rules) && !Late(rules) && Inv(rules, d.sys) && Possible(rules, d, step)
    requires Inv(rules, Apply(rules, d.sys, step))
    requires Acts(step)
    requires DataInv(d) && w == step.w && w < |d.sys.workers| && VotedOk(d, w, e)
    ensures VotedOk(Next(rules, d, step), w, e)
  {
    var d', k := Next(rules, d, step), d.sys.workers[w];
    if Waits(d'.sys, w, e) {
      HereBefore(rules, d, step, w, e);
      NotAborted(rules, d.sys, step, d.sys.parts[e].tid);
      if LastIs(k.log, LPrepared) {
        WaitingStays(rules, d, step, w, e);
      } else {
        JustVoted(rules, d, step, w, e);
      }
    }
  }

  lemma SameHere(rules: Rules, d: Data, step: Step, v: nat, e: nat)
    requires Possible(rules, d, step) && v < |d.sys.workers| && Elsewhere(step, v)
    requires v < |Next(rules, d, step).sys.workers| && Here(Next(rules, d, step).sys, v, e)
    ensures Here(d.sys, v, e)
  {
    SameWorker(rules, d, step, v);
  }

  /** A vote is the store of the voter's own endpoint. */
  lemma SameVote(rules: Rules, d: Data, step: Step, v: nat, e: nat)
    requires Inv(rules, d.sys) && Possible(rules, d, step) && v < |d.sys.workers| && Elsewhere(step, v)
    requires Here(d.sys, v, e) && e in d.voted
    ensures var d' := Next(rules, d, step); e in d'.voted && d'.voted[e] == d.voted[e]
  {
    if step.WorkerReceives? || step.VoteDies? {
      assert WorkerOk(rules, d.sys, step.w);
      assert Current(d.sys, step.w, d.sys.workers[step.w].ep, d.sys.workers[step.w].tid);
    }
  }

  lemma OtherVoted(rules: Rules, d: Data, step: Step, v: nat, e: nat)
    requires Inv(rules, d.sys) && Possible(rules, d, step) && Inv(rules, Apply(rules, d.sys, step))
    requires v < |d.sys.workers| && v < |Next(rules, d, step).sys.workers| && VotedOk(d, v, e) && Elsewhere(step, v)
    requires Waits(Next(rules, d, step).sys, v, e)
    ensures VotedOk(Next(rules, d, step), v, e)
  {
    SameWorker(rules, d, step, v);
    SameHere(rules, d, step, v, e);
    SameTid(rules, d, step, v, e);
    NotAborted(rules, d.sys, step, d.sys.parts[e].tid);
    SameVote(rules, d, step, v, e);
  }

  lemma SameTid(rules: Rules, d: Data, step: Step, v: nat, e: nat)
    requires Possible(rules, d, step) && v < |d.sys.workers| && Elsewhere(step, v) && Here(d.sys, v, e)
    requires v < |Next(rules, d, step).sys.workers| && Here(Next(rules, d, step).sys, v, e)
    ensures Next(rules, d, step).sys.parts[e] == d.sys.parts[e]
  {
  }

  /** A worker that begins a participation is not waiting, before or after. */
  lemma StartVoted(rules: Rules, d: Data, step: Step, w: nat, e: nat)
    requires Inv(rules, d.sys) && Possible(rules, d, step) && (step.Starts? || step.StartDies?) && w == step.w
    ensures VotedOk(Next(rules, d, step), w, e)
  {
    assert WorkerOk(rules, d.sys, w);
  }

  lemma StepVoted(rules: Rules, d: Data, step: Step)
    requires Reliable(rules) && !Late(rules) && Inv(rules, d.sys) && DataInv(d) && VotedInv(d)
    requires Possible(rules, d, step)
    ensures VotedInv(Next(rules, d, step))
  {
    var d' := Next(rules, d, step);
    StepKeeps(rules, d.sys, step);
    forall w: nat, e | w < |d'.sys.workers| ensures VotedOk(d', w, e) {
      assert VotedOk(d, w, e);
      if (step.Starts? || step.StartDies?) && step.w == w {
        StartVoted(rules, d, step, w, e);
      } else if Acts(step) && step.w == w {
        WorkerVoted(rules, d, step, w, e);
      } else if Waits(d'.sys, w, e) {
        OtherVoted(rules, d, step, w, e);
      }
    }
  }

  lemma {:induction false} RunVoted(rules: Rules, d: Data, steps: seq<Step>)
    requires Reliable(rules) && !Late(rules) && Inv(rules, d.sys) && DataInv(d) && VotedInv(d)
    requires Goes(rules, d, steps)
    ensures var later := Ends(rules, d, steps); Inv(rules, later.sys) && DataInv(later) && VotedInv(later)
    decreases |steps|
  {
    if steps != [] {
      StepKeeps(rules, d.sys, steps[0]);
      StepData(rules, d, steps[0]);
      StepVoted(rules, d, steps[0]);
      RunVoted(rules, Next(rules, d, steps[0]), steps[1..]);
    }
  }

  lemma ReachedVoted(rules: Rules, d: Data)
    requires Reliable(rules) && !Late(rules) && Reached(rules, d)
    ensures Inv(rules, d.sys) && DataInv(d) && VotedInv(d)
  {
    var n, steps :| ReachedBy(rules, n, steps, d);
    InitInv(rules, n);
    RunVoted(rules, First(n), steps);
  }

  /** COMMIT is only logged on the manager's word. */
  lemma CommitArrives(rules: Rules, d: Data, step: Step, w: nat)
    requires DataInv(d) && Possible(rules, d, step) && w < |d.sys.workers|
    requires var log, log' := d.sys.workers[w].log, Next(rules, d, step).sys.workers[w].log;
             log' != log && LastIs(log', LCommit)
    ensures step.WorkerReceives? && step.w == w && step.p.mtype == Commit
    ensures Next(rules, d, step).sys.workers[w].store == d.sys.workers[w].store
  {
    if Elsewhere(step, w) {
      SameWorker(rules, d, step, w);
    } else if Acts(step) {
      CommitMoves(rules, d, step, w);
    }
  }

  lemma CommitMoves(rules: Rules, d: Data, step: Step, w: nat)
    requires DataInv(d) && Possible(rules, d, step) && Acts(step) && w == step.w
    requires var log, log' := d.sys.workers[w].log, Next(rules, d, step).sys.workers[w].log;
             log' != log && LastIs(log', LCommit)
    ensures step.WorkerReceives? && step.p.mtype == Commit
    ensures Next(rules, d, step).sys.workers[w].store == d.sys.workers[w].store
  {
    var k := d.sys.workers[w];
    assert BaseOk(d, w);
    NextMoved(rules, d, step);
    match step
    case Obeys(_, c) => ObeyLogs(k, c);
    case WorkerReceives(_, p, _) => ReactLogs(k, p.mtype);
    case WorkerRestarts(_) => RestartLogs(k);
    case _ =>
  }

  /** A step that logs COMMIT for a participation that has voted to commit. */
  ghost predicate CommitsVoter(rules: Rules, d: Data, step: Step, w: nat, e: nat) {
    && Reached(rules, d) && Possible(rules, d, step)
    && w < |d.sys.workers| && Here(d.sys, w, e) && d.sys.parts[e].tid != 0 && LPrepared in Trace(d.sys, e)
    && w < |Next(rules, d, step).sys.workers|
    && var log, log' := d.sys.workers[w].log, Next(rules, d, step).sys.workers[w].log;
       log' != log && LastIs(log', LCommit)
  }

  /** It leaves the store of the vote. */
  ghost predicate KeepsVote(rules: Rules, d: Data, step: Step, w: nat, e: nat) {
    CommitsVoter(rules, d, step, w, e) ==>
      e in d.voted && Next(rules, d, step).sys.workers[w].store == d.voted[e]
  }

  /** Committed means kept: the step that logs COMMIT for a participation that has voted to
      commit finds and leaves the store with which it voted, through any crashes, restarts
      and questions in between. */
  lemma CommitKeepsVote(rules: Rules, d: Data, step: Step, w: nat, e: nat)
    requires Reliable(rules) && !Late(rules)
    ensures KeepsVote(rules, d, step, w, e)
  {
    if CommitsVoter(rules, d, step, w, e) {
      ReachedVoted(rules, d);
      CommitArrives(rules, d, step, w);
      CommitWaits(rules, d, step.p, w, e);
    }
  }

  /** A voter that listens has PREPARED at the end of its log and its vote in the store. */
  lemma CommitWaits(rules: Rules, d: Data, p: Packet, w: nat, e: nat)
    requires !Late(rules) && Inv(rules, d.sys) && VotedInv(d) && w < |d.sys.workers|
    requires Here(d.sys, w, e) && d.sys.parts[e].tid != 0 && LPrepared in Trace(d.sys, e)
    requires Listening(d.sys, w, p) && p.mtype == Commit
    ensures e in d.voted && d.voted[e] == d.sys.workers[w].store
  {
    assert WorkerOk(rules, d.sys, w);
    WorkerSteps.OneCurrent(rules, d.sys, w, e);
    assert PacketOk(d.sys, p);
    assert VotedOk(d, w, e);
  }
}
