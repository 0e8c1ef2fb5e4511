/** Clocks over whole runs of a system of processes, with what each has on disk. */
module ClockRuns {
  import opened Types
  import opened VClock

  const BLANK: Clock := [EMPTY, EMPTY, EMPTY, EMPTY, EMPTY, EMPTY, EMPTY, EMPTY, EMPTY, EMPTY]

  /** A process: its clock, the clock in its log header, and the clocks in its log records. */
  datatype Proc = Proc(id: nat, manager: bool, clock: Clock, header: Clock, records: seq<Clock>)

  /** `msgs` holds every clock ever sent: messages may be lost, reordered and duplicated. */
  datatype World = World(procs: seq<Proc>, msgs: set<Clock>)

  datatype Step =
    | Send(p: nat)
    | Receive(p: nat, m: Clock)
    | Tick(p: nat)               // a worker handles a command
    | Persist(p: nat)            // the clock is written to the log header
    | LogNow(p: nat)             // a record with the current clock, which goes to the header
    | LogOld(p: nat, i: nat)     // rollback: a record with the clock of an earlier one
    | Reboot(p: nat)

  /** Initialising a message copies slot zero of the sender's clock and nothing else. */
  function Stamp(c: Clock): (m: Clock)
    requires |c| == MAX_NODES
    ensures |m| == MAX_NODES && m[0] == c[0]
  {
    seq(MAX_NODES, i requires 0 <= i < MAX_NODES => if i == 0 then c[0] else EMPTY)
  }

  /** The clock a process starts with, from what it finds in its log header. */
  function Reload(p: Proc): Clock {
    if !Knows(p.header, p.id) then Add(p.header, p.id)
    else if p.manager then p.header
    else Bump(p.header, p.id)
  }

  function NewProc(id: nat, manager: bool): Proc {
    Proc(id, manager, Add(BLANK, id), BLANK, [])
  }

  /** What may happen to a process beyond crashing: `backward` allows restarts that reload an
      earlier own time than the one lost, `wrap` allows an own time to wrap around. */
  datatype ClockRules = ClockRules(backward: bool, wrap: bool)

  const ANY := ClockRules(true, true)
  const STEADY := ClockRules(false, false)

  function OwnTime(p: Proc): nat {
    TimeOf(p.clock, p.id)
  }

  ghost predicate Enabled(w: World, step: Step, rules: ClockRules) {
    && step.p < |w.procs| && |w.procs[step.p].clock| == MAX_NODES
    && (step.Receive? ==> step.m in w.msgs)
    && (step.LogOld? ==> step.i < |w.procs[step.p].records|)
    && var p := w.procs[step.p];
       && (step.Reboot? && TimeOf(Reload(p), p.id) < OwnTime(p) ==> rules.backward)
       && ((step.Receive? || step.Tick?) && OwnTime(p) + 1 >= TWO32 ==> rules.wrap)
  }

  ghost function Change(w: World, step: Step): Proc
    requires step.p < |w.procs| && (step.LogOld? ==> step.i < |w.procs[step.p].records|)
  {
    var p := w.procs[step.p];
    match step
    case Send(_) => p
    case Receive(_, m) => p.(clock := Bump(Merge(p.clock, m, p.id), p.id))
    case Tick(_) => p.(clock := Bump(p.clock, p.id))
    case Persist(_) => p.(header := p.clock)
    case LogNow(_) => p.(header := p.clock, records := p.records + [p.clock])
    case LogOld(_, i) => p.(header := p.records[i], records := p.records + [p.records[i]])
    case Reboot(_) => p.(clock := Reload(p))
  }

  ghost function Apply(w: World, step: Step): World
    requires Enabled(w, step, ANY)
  {
    World(w.procs[step.p := Change(w, step)],
          if step.Send? then w.msgs + {Stamp(w.procs[step.p].clock)} else w.msgs)
  }

  ghost predicate Valid(w: World, steps: seq<Step>, rules: ClockRules)
    decreases |steps|
  {
    steps == [] ||
    (Enabled(w, steps[0], rules) && Valid(Apply(w, steps[0]), steps[1..], rules))
  }

  ghost function Run(w: World, steps: seq<Step>, rules: ClockRules): World
    requires Valid(w, steps, rules)
    decreases |steps|
  {
    if steps == [] then w else Run(Apply(w, steps[0]), steps[1..], rules)
  }

  /** Processes with different, nonzero ids that have just started for the first time. */
  ghost predicate Initial(w: World) {
    && w.msgs == {}
    && (forall p :: 0 <= p < |w.procs| ==> w.procs[p].id != 0 && w.procs[p] == NewProc(w.procs[p].id, w.procs[p].manager))
    && Apart(w)
  }

  ghost predicate Apart(w: World) {
    forall p, q :: 0 <= p < q < |w.procs| ==> w.procs[p].id != w.procs[q].id
  }

  // The own slot

  ghost predicate Own(c: Clock, id: nat) {
    |c| == MAX_NODES && c[0].node == id
  }

  ghost predicate ProcOwn(p: Proc) {
    && p.id != 0 && Own(p.clock, p.id)
    && (p.header == BLANK || Own(p.header, p.id))
    && forall i :: 0 <= i < |p.records| ==> Own(p.records[i], p.id)
  }

  ghost predicate OwnSlots(w: World) {
    forall p :: 0 <= p < |w.procs| ==> ProcOwn(w.procs[p])
  }

  lemma {:induction false} MergeKeepsOwn(c: Clock, m: Clock, id: nat)
    requires Own(c, id) && id != 0
    ensures Own(Merge(c, m, id), id) && Merge(c, m, id)[0] == c[0]
  {
    if m != [] {
      MergeKeepsOwn(c, m[..|m| - 1], id);
    }
  }

  lemma OwnAtZero(c: Clock, id: nat)
    requires Own(c, id)
    ensures IndexOf(c, id) == 0 && Knows(c, id) && TimeOf(c, id) == c[0].time && Own(Bump(c, id), id)
  {
  }

  lemma BlankAdd(id: nat)
    requires id != 0
    ensures !Knows(BLANK, id) && Own(Add(BLANK, id), id) && TimeOf(Add(BLANK, id), id) == 1
    ensures forall i :: 1 <= i < MAX_NODES ==> Add(BLANK, id)[i] == EMPTY
  {
    assert forall i :: 0 <= i < MAX_NODES ==> BLANK[i] == EMPTY;
    assert IndexOf(BLANK, 0) == 0;
    OwnAtZero(Add(BLANK, id), id);
  }

  lemma StepKeepsOwn(w: World, step: Step)
    requires OwnSlots(w) && Enabled(w, step, ANY)
    ensures OwnSlots(Apply(w, step))
  {
    var p := w.procs[step.p];
    assert ProcOwn(p);
    BumpAndReloadKeepOwn(p);
    assert ProcOwn(Change(w, step)) by {
      if step.Receive? {
        MergeKeepsOwn(p.clock, step.m, p.id);
        OwnAtZero(Merge(p.clock, step.m, p.id), p.id);
      }
    }
  }

  lemma BumpAndReloadKeepOwn(p: Proc)
    requires ProcOwn(p)
    ensures Own(Bump(p.clock, p.id), p.id) && Own(Reload(p), p.id)
  {
    OwnAtZero(p.clock, p.id);
    if p.header == BLANK {
      BlankAdd(p.id);
    } else {
      OwnAtZero(p.header, p.id);
    }
  }

  lemma {:induction false} RunKeepsOwn(w: World, steps: seq<Step>, rules: ClockRules)
    requires OwnSlots(w) && Valid(w, steps, rules)
    ensures OwnSlots(Run(w, steps, rules))
    decreases |steps|
  {
    if steps != [] {
      StepKeepsOwn(w, steps[0]);
      RunKeepsOwn(Apply(w, steps[0]), steps[1..], rules);
    }
  }

  /** Own slot: through startup, merges, increments, writes to disk, rollbacks and reloads,
      slot zero of every process holds its own id, so the one slot that a message carries
      is the sender's own current time. */
  lemma OwnSlotAlways(w: World, steps: seq<Step>, rules: ClockRules, p: nat)
    requires Initial(w) && Valid(w, steps, rules) && p < |w.procs|
    ensures var later := Run(w, steps, rules);
            && |later.procs| == |w.procs| && later.procs[p].id == w.procs[p].id
            && Own(later.procs[p].clock, w.procs[p].id)
            && Stamp(later.procs[p].clock)[0] ==
                 VSlot(w.procs[p].id, TimeOf(later.procs[p].clock, w.procs[p].id))
  {
    forall q | 0 <= q < |w.procs| ensures ProcOwn(w.procs[q]) {
      BlankAdd(w.procs[q].id);
    }
    RunKeepsOwn(w, steps, rules);
    SameProcs(w, steps, rules);
    var later := Run(w, steps, rules);
    assert ProcOwn(later.procs[p]);
    OwnAtZero(later.procs[p].clock, later.procs[p].id);
  }

  lemma {:induction false} SameProcs(w: World, steps: seq<Step>, rules: ClockRules)
    requires Valid(w, steps, rules)
    ensures var later := Run(w, steps, rules);
            && |later.procs| == |w.procs|
            && forall p :: 0 <= p < |w.procs| ==> later.procs[p].id == w.procs[p].id
    decreases |steps|
  {
    if steps != [] {
      SameProcs(Apply(w, steps[0]), steps[1..], rules);
    }
  }

  // The bound

  /** Nobody, and no message, is ahead of a process about that process. */
  ghost predicate Bounded(w: World) {
    && (forall p, q :: 0 <= p < |w.procs| && 0 <= q < |w.procs| ==>
          TimeOf(w.procs[p].clock, w.procs[q].id) <= OwnTime(w.procs[q]))
    && (forall m, q :: m in w.msgs && 0 <= q < |w.procs| ==> Latest(m, w.procs[q].id) <= OwnTime(w.procs[q]))
  }

  /** A clock of process p that is not ahead of any other process. */
  ghost predicate Behind(w: World, c: Clock, p: nat) {
    && Distinct(c)
    && forall q :: 0 <= q < |w.procs| && q != p ==> TimeOf(c, w.procs[q].id) <= OwnTime(w.procs[q])
  }

  /** So are all the clocks x holds as process p, in memory and on disk. */
  ghost predicate Held(w: World, x: Proc, p: nat) {
    && Behind(w, x.clock, p) && Behind(w, x.header, p)
    && forall i :: 0 <= i < |x.records| ==> Behind(w, x.records[i], p)
  }

  ghost predicate ClockInv(w: World) {
    && OwnSlots(w) && Apart(w) && Bounded(w)
    && forall p :: 0 <= p < |w.procs| ==> Held(w, w.procs[p], p)
  }

  lemma {:induction false} LatestBound(c: Clock, id: nat, bound: nat)
    requires forall i :: 0 <= i < |c| && c[i].node == id ==> c[i].time <= bound
    ensures Latest(c, id) <= bound
  {
    if c != [] {
      LatestBound(c[..|c| - 1], id, bound);
    }
  }

  lemma BumpTimes(c: Clock, me: nat)
    requires Own(c, me) && me != 0 && Distinct(c)
    ensures Distinct(Bump(c, me)) && TimeOf(Bump(c, me), me) == (TimeOf(c, me) + 1) % TWO32
    ensures forall id :: id != 0 && id != me ==> TimeOf(Bump(c, me), id) == TimeOf(c, id)
  {
    OwnAtZero(c, me);
    BumpMeaning(c, me);
  }

  /** What receiving a message does to the receiver's view of every node. */
  lemma ReceiveTimes(c: Clock, m: Clock, me: nat)
    requires Own(c, me) && me != 0 && Distinct(c)
    ensures var c' := Bump(Merge(c, m, me), me);
            && Distinct(c') && TimeOf(c', me) == (TimeOf(c, me) + 1) % TWO32
            && forall id :: id != 0 && id != me ==> TimeOf(c', id) <= Max(TimeOf(c, id), Latest(m, id))
  {
    var c1 := Merge(c, m, me);
    MergeKeepsOwn(c, m, me);
    MergeIds(c, m, me);
    MergeTimes(c, m, me, me);
    BumpTimes(c1, me);
    forall id | id != 0 && id != me ensures TimeOf(c1, id) <= Max(TimeOf(c, id), Latest(m, id)) {
      MergeTimes(c, m, me, id);
      if id !in Ids(c1) {
        LatestUnknown(c1, id);
      }
    }
  }

  /** A restart knows about other nodes what the header knew. */
  lemma ReloadTimes(p: Proc)
    requires ProcOwn(p) && Distinct(p.header)
    ensures Distinct(Reload(p))
    ensures forall id :: id != 0 && id != p.id ==> TimeOf(Reload(p), id) == TimeOf(p.header, id)
  {
    if p.header == BLANK {
      BlankAdd(p.id);
      assert forall i :: 0 <= i < MAX_NODES ==> BLANK[i].node == 0;
    } else {
      OwnAtZero(p.header, p.id);
      BumpTimes(p.header, p.id);
    }
  }

  /** The own time of the process that moves does not decrease, and none of its clocks gets
      ahead of the others. */
  ghost predicate Advances(w: World, step: Step)
    requires Enabled(w, step, ANY)
  {
    var p, p' := w.procs[step.p], Change(w, step);
    p'.id == p.id && OwnTime(p) <= OwnTime(p') && Held(w, p', step.p)
  }

  lemma StepAdvances(w: World, step: Step)
    requires ClockInv(w) && Enabled(w, step, STEADY)
    ensures Advances(w, step)
  {
    var p, p' := w.procs[step.p], Change(w, step);
    assert ProcOwn(p) && Held(w, p, step.p);
    if step.Receive? || step.Tick? || step.Reboot? {
      ClockAdvances(w, step);
    }
  }

  /** The steps that change the clock in memory. */
  lemma ClockAdvances(w: World, step: Step)
    requires ClockInv(w) && Enabled(w, step, STEADY) && (step.Receive? || step.Tick? || step.Reboot?)
    ensures var p, p' := w.procs[step.p], Change(w, step);
            p' == p.(clock := p'.clock) && OwnTime(p) <= OwnTime(p') && Behind(w, p'.clock, step.p)
  {
    var p, p' := w.procs[step.p], Change(w, step);
    assert ProcOwn(p) && Held(w, p, step.p);
    OtherIds(w, step.p);
    if step.Receive? {
      ReceiveTimes(p.clock, step.m, p.id);
      ReceiveBehind(w, step.p, step.m, p'.clock);
    } else if step.Tick? {
      BumpTimes(p.clock, p.id);
    } else {
      ReloadTimes(p);
    }
  }

  lemma ReceiveBehind(w: World, p: nat, m: Clock, c: Clock)
    requires p < |w.procs| && Bounded(w) && m in w.msgs && Distinct(c)
    requires forall q :: 0 <= q < |w.procs| && q != p ==> w.procs[q].id != w.procs[p].id && w.procs[q].id != 0
    requires forall id :: id != 0 && id != w.procs[p].id ==>
               TimeOf(c, id) <= Max(TimeOf(w.procs[p].clock, id), Latest(m, id))
    ensures Behind(w, c, p)
  {
  }

  lemma OtherIds(w: World, p: nat)
    requires OwnSlots(w) && Apart(w) && p < |w.procs|
    ensures forall q :: 0 <= q < |w.procs| && q != p ==> w.procs[q].id != w.procs[p].id && w.procs[q].id != 0
  {
    forall q | 0 <= q < |w.procs| && q != p ensures w.procs[q].id != w.procs[p].id && w.procs[q].id != 0 {
      assert ProcOwn(w.procs[q]);
    }
  }

  lemma StampBound(w: World, p: nat, q: nat)
    requires OwnSlots(w) && Apart(w) && p < |w.procs| && q < |w.procs|
    ensures Latest(Stamp(w.procs[p].clock), w.procs[q].id) <= OwnTime(w.procs[q])
  {
    assert ProcOwn(w.procs[p]) && ProcOwn(w.procs[q]);
    OwnAtZero(w.procs[p].clock, w.procs[p].id);
    LatestBound(Stamp(w.procs[p].clock), w.procs[q].id, OwnTime(w.procs[q]));
  }

  lemma OwnTimesGrow(w: World, step: Step, q: nat)
    requires Enabled(w, step, ANY) && Advances(w, step) && q < |w.procs|
    ensures var w' := Apply(w, step);
            w'.procs[q].id == w.procs[q].id && OwnTime(w.procs[q]) <= OwnTime(w'.procs[q])
  {
  }

  lemma StillBehind(w: World, step: Step, c: Clock, p: nat)
    requires Enabled(w, step, ANY) && Advances(w, step) && Behind(w, c, p)
    ensures Behind(Apply(w, step), c, p)
  {
    forall q | 0 <= q < |w.procs| && q != p
      ensures var w' := Apply(w, step); TimeOf(c, w'.procs[q].id) <= OwnTime(w'.procs[q])
    {
      OwnTimesGrow(w, step, q);
    }
  }

  lemma StillHeld(w: World, step: Step, p: nat)
    requires Enabled(w, step, ANY) && Advances(w, step) && p < |w.procs| && Held(w, w.procs[p], p)
    ensures var w' := Apply(w, step); Held(w', w'.procs[p], p)
  {
    var w' := Apply(w, step);
    var x := w'.procs[p];
    assert Held(w, x, p);
    StillBehind(w, step, x.clock, p);
    StillBehind(w, step, x.header, p);
    forall i | 0 <= i < |x.records| ensures Behind(w', x.records[i], p) {
      StillBehind(w, step, x.records[i], p);
    }
  }

  lemma StepKeepsBound(w: World, step: Step)
    requires ClockInv(w) && Enabled(w, step, STEADY)
    ensures ClockInv(Apply(w, step))
  {
    var w' := Apply(w, step);
    StepAdvances(w, step);
    StepKeepsOwn(w, step);
    forall p | 0 <= p < |w'.procs| ensures Held(w', w'.procs[p], p) {
      StillHeld(w, step, p);
    }
    forall m, q | m in w'.msgs && 0 <= q < |w'.procs|
      ensures Latest(m, w'.procs[q].id) <= OwnTime(w'.procs[q])
    {
      MessagesBounded(w, step, m, q);
    }
  }

  lemma MessagesBounded(w: World, step: Step, m: Clock, q: nat)
    requires ClockInv(w) && Enabled(w, step, ANY) && Advances(w, step)
    requires m in Apply(w, step).msgs && q < |w.procs|
    ensures var w' := Apply(w, step); Latest(m, w'.procs[q].id) <= OwnTime(w'.procs[q])
  {
    OwnTimesGrow(w, step, q);
    if m !in w.msgs {
      StampBound(w, step.p, q);
    }
  }

  lemma {:induction false} RunKeepsBound(w: World, steps: seq<Step>)
    requires ClockInv(w) && Valid(w, steps, STEADY)
    ensures ClockInv(Run(w, steps, STEADY))
    decreases |steps|
  {
    if steps != [] {
      StepKeepsBound(w, steps[0]);
      RunKeepsBound(Apply(w, steps[0]), steps[1..]);
    }
  }

  lemma BlankBehind(w: World, p: nat)
    requires p < |w.procs| && forall q :: 0 <= q < |w.procs| ==> w.procs[q].id != 0
    ensures Behind(w, BLANK, p)
  {
    assert forall i :: 0 <= i < MAX_NODES ==> BLANK[i].node == 0;
  }

  lemma InitialInv(w: World)
    requires Initial(w)
    ensures ClockInv(w)
  {
    forall p | 0 <= p < |w.procs| ensures ProcOwn(w.procs[p]) && Held(w, w.procs[p], p) {
      var c := w.procs[p].clock;
      BlankAdd(w.procs[p].id);
      BlankBehind(w, p);
      forall q | 0 <= q < |w.procs| && q != p ensures TimeOf(c, w.procs[q].id) <= OwnTime(w.procs[q]) {
        assert w.procs[p].id != w.procs[q].id && w.procs[q].id != 0;
        assert !Knows(c, w.procs[q].id);
      }
    }
  }

  /** Clock bound: in every run in which restarts reload no earlier own time than the one
      lost and own times do not wrap around, no process and no message in flight holds a
      later time for a node than that node's own. */
  lemma ClockBound(w: World, steps: seq<Step>)
    requires Initial(w) && Valid(w, steps, STEADY)
    ensures Bounded(Run(w, steps, STEADY))
  {
    InitialInv(w);
    RunKeepsBound(w, steps);
  }

  /** In particular in runs without restarts, as long as no own time wraps around. */
  lemma {:induction false} NoRestarts(w: World, steps: seq<Step>)
    requires Valid(w, steps, ClockRules(true, false)) && forall i :: 0 <= i < |steps| ==> !steps[i].Reboot?
    ensures Valid(w, steps, STEADY) && Run(w, steps, STEADY) == Run(w, steps, ClockRules(true, false))
    decreases |steps|
  {
    if steps != [] {
      NoRestarts(Apply(w, steps[0]), steps[1..]);
    }
  }

  lemma ClockBoundNoRestarts(w: World, steps: seq<Step>)
    requires Initial(w) && Valid(w, steps, ClockRules(true, false))
    requires forall i :: 0 <= i < |steps| ==> !steps[i].Reboot?
    ensures Bounded(Run(w, steps, ClockRules(true, false)))
  {
    NoRestarts(w, steps);
    ClockBound(w, steps);
  }

  /** A restart is a new event: a worker whose current clock is on disk comes back one later
      than any time it has used, and the manager at the time it had. */
  lemma RestartIsNew(w: World, p: nat)
    requires ClockInv(w) && Enabled(w, Reboot(p), ANY) && w.procs[p].header == w.procs[p].clock
    ensures var x, x' := w.procs[p], Apply(w, Reboot(p)).procs[p];
            && OwnTime(x') == (if x.manager then OwnTime(x) else (OwnTime(x) + 1) % TWO32)
            && (forall id :: id != 0 && id != x.id ==> TimeOf(x'.clock, id) == TimeOf(x.clock, id))
            && x'.header == x.header && x'.records == x.records
  {
    var x := w.procs[p];
    assert ProcOwn(x) && Held(w, x, p);
    OwnAtZero(x.clock, x.id);
    BumpMeaning(x.clock, x.id);
  }

  // The conditions are needed

  lemma {:induction false} LatestCovers(c: Clock, i: nat)
    requires i < |c|
    ensures Latest(c, c[i].node) >= c[i].time
    decreases |c|
  {
    if i < |c| - 1 {
      LatestCovers(c[..|c| - 1], i);
    }
  }

  /** A process whose own time went down is behind any message that carried the old one. */
  lemma WentBack(w: World, p: nat, time: nat, m: Clock)
    requires p < |w.procs| && m in w.msgs && m != [] && m[0] == VSlot(w.procs[p].id, time)
    requires OwnTime(w.procs[p]) < time
    ensures !Bounded(w)
  {
    LatestCovers(m, 0);
  }

  /** The bound survives a step of a process that has sent its current time exactly when the
      step is not a restart with an earlier own time and does not wrap an own time around. */
  lemma BoundSurvivesExactly(w: World, step: Step)
    requires ClockInv(w) && Enabled(w, step, ANY) && Stamp(w.procs[step.p].clock) in w.msgs
    ensures Bounded(Apply(w, step)) <==> Enabled(w, step, STEADY)
  {
    if Enabled(w, step, STEADY) {
      StepKeepsBound(w, step);
    } else {
      var p := w.procs[step.p];
      assert ProcOwn(p) && Held(w, p, step.p);
      OwnAtZero(p.clock, p.id);
      if step.Receive? {
        ReceiveTimes(p.clock, step.m, p.id);
      } else if step.Tick? {
        BumpTimes(p.clock, p.id);
      }
      WentBack(Apply(w, step), step.p, OwnTime(p), Stamp(p.clock));
    }
  }

  // A lone worker, as a run the worker's code makes

  function At(time: nat): Clock {
    BLANK[0 := VSlot(1, time)]
  }

  lemma AtTimes(time: nat)
    ensures Own(At(time), 1) && TimeOf(At(time), 1) == time
    ensures Bump(At(time), 1) == At((time + 1) % TWO32)
  {
    OwnAtZero(At(time), 1);
  }

  function Alone(time: nat, header: Clock, records: seq<Clock>, msgs: set<Clock>): World {
    World([Proc(1, false, At(time), header, records)], msgs)
  }

  ghost predicate RunBounded(rules: ClockRules, w: World, steps: seq<Step>) {
    Valid(w, steps, rules) ==> Bounded(Run(w, steps, rules))
  }

  ghost predicate GoesWrong(rules: ClockRules, w: World) {
    exists steps :: !RunBounded(rules, w, steps)
  }

  ghost predicate Leads(rules: ClockRules, w: World, step: Step, w': World) {
    Enabled(w, step, rules) && Apply(w, step) == w'
  }

  lemma Then(rules: ClockRules, w: World, step: Step, w': World)
    requires Leads(rules, w, step, w') && GoesWrong(rules, w')
    ensures GoesWrong(rules, w)
  {
    var rest :| !RunBounded(rules, w', rest);
    var steps := [step] + rest;
    assert steps[1..] == rest;
    assert !RunBounded(rules, w, steps);
  }

  lemma EndsWrong(rules: ClockRules, w: World)
    requires !Bounded(w)
    ensures GoesWrong(rules, w)
  {
    assert !RunBounded(rules, w, []);
  }

  lemma Ticks(rules: ClockRules, t: nat, t': nat, header: Clock, rs: seq<Clock>, msgs: set<Clock>)
    requires (t + 1 < TWO32 && t' == t + 1) || (t + 1 == TWO32 && t' == 0 && rules.wrap)
    requires GoesWrong(rules, Alone(t', header, rs, msgs))
    ensures GoesWrong(rules, Alone(t, header, rs, msgs))
  {
    AtTimes(t);
    assert Leads(rules, Alone(t, header, rs, msgs), Tick(0), Alone(t', header, rs, msgs));
    Then(rules, Alone(t, header, rs, msgs), Tick(0), Alone(t', header, rs, msgs));
  }

  lemma Persists(rules: ClockRules, t: nat, header: Clock, rs: seq<Clock>, msgs: set<Clock>)
    requires GoesWrong(rules, Alone(t, At(t), rs, msgs))
    ensures GoesWrong(rules, Alone(t, header, rs, msgs))
  {
    AtTimes(t);
    Then(rules, Alone(t, header, rs, msgs), Persist(0), Alone(t, At(t), rs, msgs));
  }

  /** The start of every command: the clock is incremented and written to the header. */
  lemma Command(rules: ClockRules, t: nat, header: Clock, rs: seq<Clock>, msgs: set<Clock>)
    requires t + 1 < TWO32 && GoesWrong(rules, Alone(t + 1, At(t + 1), rs, msgs))
    ensures GoesWrong(rules, Alone(t, header, rs, msgs))
  {
    Persists(rules, t + 1, header, rs, msgs);
    Ticks(rules, t, t + 1, header, rs, msgs);
  }

  lemma Sends(rules: ClockRules, t: nat, header: Clock, rs: seq<Clock>, msgs: set<Clock>)
    requires GoesWrong(rules, Alone(t, header, rs, msgs + {Stamp(At(t))}))
    ensures GoesWrong(rules, Alone(t, header, rs, msgs))
  {
    AtTimes(t);
    Then(rules, Alone(t, header, rs, msgs), Send(0), Alone(t, header, rs, msgs + {Stamp(At(t))}));
  }

  lemma Logs(rules: ClockRules, t: nat, header: Clock, rs: seq<Clock>, msgs: set<Clock>)
    requires GoesWrong(rules, Alone(t, At(t), rs + [At(t)], msgs))
    ensures GoesWrong(rules, Alone(t, header, rs, msgs))
  {
    AtTimes(t);
    Then(rules, Alone(t, header, rs, msgs), LogNow(0), Alone(t, At(t), rs + [At(t)], msgs));
  }

  /** A process whose own time is behind one of its messages. */
  lemma IsBehind(rules: ClockRules, t: nat, header: Clock, rs: seq<Clock>, msgs: set<Clock>, sent: nat)
    requires t < sent && Stamp(At(sent)) in msgs
    ensures GoesWrong(rules, Alone(t, header, rs, msgs))
  {
    AtTimes(t);
    WentBack(Alone(t, header, rs, msgs), 0, sent, Stamp(At(sent)));
    EndsWrong(rules, Alone(t, header, rs, msgs));
  }

  lemma Reboots(rules: ClockRules, t: nat, h: nat, rs: seq<Clock>, msgs: set<Clock>)
    requires rules.backward && h + 1 < TWO32 && GoesWrong(rules, Alone(h + 1, At(h), rs, msgs))
    ensures GoesWrong(rules, Alone(t, At(h), rs, msgs))
  {
    AtTimes(t);
    AtTimes(h);
    OwnAtZero(At(h), 1);
    Then(rules, Alone(t, At(h), rs, msgs), Reboot(0), Alone(h + 1, At(h), rs, msgs));
  }

  lemma Restores(rules: ClockRules, t: nat, header: Clock, rs: seq<Clock>, msgs: set<Clock>)
    requires rs != [] && GoesWrong(rules, Alone(t, rs[0], rs + [rs[0]], msgs))
    ensures GoesWrong(rules, Alone(t, header, rs, msgs))
  {
    AtTimes(t);
    Then(rules, Alone(t, header, rs, msgs), LogOld(0, 0), Alone(t, rs[0], rs + [rs[0]], msgs));
  }

  /** A rollback puts the clock of BEGIN in the header and a crash follows: the worker comes
      back at time 3 although it has sent a message at time 4. */
  lemma RollsBack(rules: ClockRules, rs: seq<Clock>, msgs: set<Clock>)
    requires rules.backward && rs != [] && rs[0] == At(2) && Stamp(At(4)) in msgs
    ensures GoesWrong(rules, Alone(5, At(5), rs, msgs))
  {
    IsBehind(rules, 3, At(2), rs + [At(2)], msgs, 4);
    Reboots(rules, 5, 2, rs + [At(2)], msgs);
    Restores(rules, 5, At(5), rs, msgs);
  }

  /** A worker that begins, updates, asks to commit, aborts, crashes and restarts. */
  lemma BackwardBreaks(rules: ClockRules, rs: seq<Clock>, msgs: set<Clock>)
    requires rules.backward && rs == [At(2)]
    ensures GoesWrong(rules, Alone(2, At(2), rs, msgs))
  {
    RollsBack(rules, rs + [At(3)], msgs + {Stamp(At(4))});
    Command(rules, 4, At(4), rs + [At(3)], msgs + {Stamp(At(4))});
    Sends(rules, 4, At(4), rs + [At(3)], msgs);
    Command(rules, 3, At(3), rs + [At(3)], msgs);
    Logs(rules, 3, At(3), rs, msgs);
    Command(rules, 2, At(2), rs, msgs);
  }

  /** A worker that has sent a message and then obeys commands until its time wraps. */
  lemma {:induction false} WrapBreaks(rules: ClockRules, t: nat, rs: seq<Clock>, msgs: set<Clock>)
    requires rules.wrap && 2 <= t < TWO32 && Stamp(At(2)) in msgs
    ensures GoesWrong(rules, Alone(t, At(t), rs, msgs))
    decreases TWO32 - t
  {
    if t + 1 < TWO32 {
      WrapBreaks(rules, t + 1, rs, msgs);
      Command(rules, t, At(t), rs, msgs);
    } else {
      IsBehind(rules, 0, At(t), rs, msgs, 2);
      Ticks(rules, t, 0, At(t), rs, msgs);
    }
  }

  lemma FirstClock()
    ensures Initial(Alone(1, BLANK, [], {}))
  {
    BlankAdd(1);
    assert NewProc(1, false).clock == At(1);
  }

  /** A lone worker begins a transaction; what follows takes it behind its own message. */
  lemma LoneWorkerBreaks(rules: ClockRules)
    requires rules.backward || rules.wrap
    ensures Initial(Alone(1, BLANK, [], {})) && GoesWrong(rules, Alone(1, BLANK, [], {}))
  {
    FirstClock();
    var m := {Stamp(At(2))};
    if rules.backward {
      BackwardBreaks(rules, [At(2)], m);
    } else {
      WrapBreaks(rules, 2, [At(2)], m);
    }
    assert [] + [At(2)] == [At(2)] && {} + m == m;
    Logs(rules, 2, At(2), [], m);
    Sends(rules, 2, At(2), [], {});
    Command(rules, 1, BLANK, [], {});
  }

  /** The bound holds in all runs exactly when no restart reloads an earlier own time and no
      own time wraps around. */
  lemma BoundExactly(rules: ClockRules)
    ensures (forall w, steps :: Initial(w) ==> RunBounded(rules, w, steps)) <==> !rules.backward && !rules.wrap
  {
    if rules.backward || rules.wrap {
      LoneWorkerBreaks(rules);
      var w := Alone(1, BLANK, [], {});
      var steps :| !RunBounded(rules, w, steps);
      assert Initial(w);
    } else {
      forall w, steps | Initial(w) ensures RunBounded(rules, w, steps) {
        if Valid(w, steps, rules) {
          ClockBound(w, steps);
        }
      }
    }
  }
}
