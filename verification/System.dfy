/** The whole system: one manager, any number of workers and the network between them. */
module System {
  import opened Types
  import opened TxLog
  import opened Recovery
  import opened Manager
  import opened Worker
  import opened Segments

  /** A participation in a transaction: the endpoint was opened by worker `wid` for
      transaction `tid`. `begun` is false if the worker died before it logged its BEGIN,
      which is otherwise at position `start` of its log. */
  datatype Part = Part(wid: nat, tid: nat, begun: bool, start: nat)

  datatype Ballot = Ballot(ep: nat, yes: bool)

  /** `parts`, `ballots`, `roster` and `counted` record history and are never read by a
      process: every endpoint ever opened, every vote ever sent, every endpoint the manager
      ever entered in a node list, and every endpoint whose vote it took off a counter. */
  datatype Sys = Sys(
    mgr: Mgr, workers: seq<Worker>, net: set<Packet>,
    parts: map<nat, Part>, ballots: seq<Ballot>, roster: set<nat>, counted: set<nat>)

  /** What the environment may do beyond losing, delaying, reordering and crashing. */
  datatype Rules = Rules(
    dupVotes: bool,        // the network may deliver a PREPARED vote more than once
    reuseEndpoints: bool,  // a transaction socket may get an address that was used before
    lateUpdates: bool,     // users may update at a worker that has voted PREPARED
    lateAborts: bool)      // users may abort at a worker that has voted PREPARED

  const STRICT := Rules(false, false, false, false)

  /** What the manager's guarantees need: votes count once, endpoints name one participation. */
  predicate Reliable(rules: Rules) {
    !rules.dupVotes && !rules.reuseEndpoints
  }

  predicate Late(rules: Rules) {
    rules.lateUpdates || rules.lateAborts
  }

  datatype Step =
    | Lose(p: Packet)
    | ManagerReceives(p: Packet, again: bool)     // again: the network keeps a duplicate
    | ManagerCrashes
    | RecoveryStops(k: nat)                       // recovery dies after k appends
    | ManagerRestarts
    | Starts(w: nat, fresh': nat, tid: nat, mtype: MsgType)
    | StartDies(w: nat, fresh': nat, tid: nat, mtype: MsgType)  // request sent, BEGIN not logged
    | Obeys(w: nat, c: Command)
    | WorkerReceives(w: nat, p: Packet, again: bool)
    | VoteDies(w: nat, p: Packet, again: bool)    // PREPARED logged, vote not sent
    | Asks(w: nat)                                // uncertain and timed out
    | WorkerCrashes(w: nat, left: Store)          // in a handler or at startup; `left` is in the store
    | WorkerRestarts(w: nat)

  /** A step of a worker within its participation. */
  predicate Acts(step: Step) {
    step.Obeys? || step.WorkerReceives? || step.VoteDies? || step.WorkerCrashes? || step.WorkerRestarts?
  }

  function Init(n: nat): Sys {
    Sys(Mgr(true, [], EMPTY_TABLE), seq(n, _ => NEW_WORKER), {}, map[], [], {}, {})
  }

  predicate Running(s: Sys, w: nat) {
    w < |s.workers| && s.workers[w].up
  }

  predicate Listening(s: Sys, w: nat, p: Packet) {
    Running(s, w) && s.workers[w].active && p.ToWorker? && p in s.net && p.ep == s.workers[w].ep
  }

  /** A socket never gets the address of one that is open. */
  predicate CanStart(rules: Rules, s: Sys, w: nat, fresh': nat, mtype: MsgType) {
    && Running(s, w) && !s.workers[w].active
    && fresh' != 0 && (fresh' in s.parts ==> rules.reuseEndpoints)
    && (forall v :: 0 <= v < |s.workers| && s.workers[v].up && s.workers[v].active ==> s.workers[v].ep != fresh')
    && (mtype == BeginTx || mtype == JoinTx)
  }

  predicate Updates(c: Command) {
    c.NewA? || c.NewB? || c.NewId?
  }

  /** The commands that a worker does not refuse after it has voted, although it should. */
  predicate Disturbs(c: Command) {
    Updates(c) || c.AbortCmd?
  }

  /** What can happen; `rules` only restricts duplicate votes, endpoints and late commands. */
  predicate Enabled(rules: Rules, s: Sys, step: Step) {
    match step
    case Lose(p) => p in s.net
    case ManagerReceives(p, again) =>
      s.mgr.up && p.ToManager? && p in s.net && (p.mtype == Prepared && again ==> rules.dupVotes)
    case ManagerCrashes => s.mgr.up
    case RecoveryStops(k) => !s.mgr.up && k <= |RecoveryAborts(s.mgr.log)|
    case ManagerRestarts => !s.mgr.up
    case Starts(w, fresh', tid, mtype) => CanStart(rules, s, w, fresh', mtype)
    case StartDies(w, fresh', tid, mtype) => CanStart(rules, s, w, fresh', mtype)
    case Obeys(w, c) =>
      && Running(s, w)
      && (Updates(c) && LastIs(s.workers[w].log, LPrepared) ==> rules.lateUpdates)
      && (c.AbortCmd? && LastIs(s.workers[w].log, LPrepared) ==> rules.lateAborts)
    case WorkerReceives(w, p, again) => Listening(s, w, p)
    case VoteDies(w, p, again) =>
      && Listening(s, w, p) && p.mtype == PrepareToCommit
      && !s.workers[w].uncertain && s.workers[w].doCommit
    case Asks(w) => Running(s, w) && s.workers[w].active && s.workers[w].uncertain
    case WorkerCrashes(w, left) => w < |s.workers|
    case WorkerRestarts(w) => w < |s.workers| && !s.workers[w].up
  }

  /** What is left of the messages in flight when p has been received. */
  function Left(s: Sys, p: Packet, again: bool): set<Packet> {
    if again then s.net else s.net - {p}
  }

  function Arrived(net: set<Packet>, p: Packet, again: bool, sends: seq<Packet>): set<Packet> {
    (if again then net else net - {p}) + set q | q in sends
  }

  function Sent(net: set<Packet>, sends: seq<Packet>): set<Packet> {
    net + set q | q in sends
  }

  function Recount(ballots: seq<Ballot>, ep: nat, vote: Option<bool>): seq<Ballot> {
    if vote.Some? then ballots + [Ballot(ep, vote.value)] else ballots
  }

  function Apply(rules: Rules, s: Sys, step: Step): Sys
    requires Enabled(rules, s, step)
  {
    match step
    case Lose(p) => s.(net := s.net - {p})
    case ManagerReceives(p, again) => ApplyManager(s, p, again)
    case ManagerCrashes => s.(mgr := Crashed(s.mgr))
    case RecoveryStops(k) =>
      s.(mgr := Mgr(false, s.mgr.log + RecoveryAborts(s.mgr.log)[..k], EMPTY_TABLE))
    case ManagerRestarts =>
      s.(mgr := Mgr(true, s.mgr.log + RecoveryAborts(s.mgr.log), EMPTY_TABLE))
    case Starts(w, fresh', tid, mtype) =>
      var r := Start(s.workers[w], fresh', tid, mtype);
      s.(workers := s.workers[w := r.worker], net := Sent(s.net, r.sends),
         parts := s.parts[r.worker.ep := Part(w, tid, true, |s.workers[w].log|)])
    case StartDies(w, fresh', tid, mtype) =>
      var r := Start(s.workers[w], fresh', tid, mtype);
      var dead := Spawn(s.workers[w], fresh', tid).(up := false);
      s.(workers := s.workers[w := dead], net := Sent(s.net, r.sends),
         parts := s.parts[r.worker.ep := Part(w, tid, false, 0)])
    case Obeys(w, c) =>
      var r := Obey(s.workers[w], c);
      s.(workers := s.workers[w := r.worker], net := Sent(s.net, r.sends))
    case WorkerReceives(w, p, again) =>
      var r := React(s.workers[w], p.mtype);
      s.(workers := s.workers[w := r.worker], net := Arrived(s.net, p, again, r.sends),
         ballots := Recount(s.ballots, s.workers[w].ep, r.vote))
    case VoteDies(w, p, again) =>
      var r := React(s.workers[w], p.mtype);
      s.(workers := s.workers[w := r.worker.(up := false)], net := Arrived(s.net, p, again, []))
    case Asks(w) =>
      s.(net := s.net + {ToManager(s.workers[w].ep, Ask, s.workers[w].tid)})
    case WorkerCrashes(w, left) =>
      s.(workers := s.workers[w := s.workers[w].(up := false, store := left)])
    case WorkerRestarts(w) =>
      s.(workers := s.workers[w := Restart(s.workers[w])])
  }

  function ApplyManager(s: Sys, p: Packet, again: bool): Sys
    requires p.ToManager?
  {
    var r := Handle(s.mgr, p.ep, p.mtype, p.tid);
    s.(mgr := r.mgr, net := Arrived(s.net, p, again, r.sends),
       roster := if r.joined then s.roster + {p.ep} else s.roster,
       counted := if r.counted then s.counted + {p.ep} else s.counted)
  }

  /** The worker after a step within its participation. */
  function Moved(k: Worker, step: Step): Worker
    requires Acts(step)
  {
    match step
    case Obeys(_, c) => Obey(k, c).worker
    case WorkerReceives(_, p, _) => React(k, p.mtype).worker
    case VoteDies(_, p, _) => React(k, p.mtype).worker.(up := false)
    case WorkerCrashes(_, left) => k.(up := false, store := left)
    case WorkerRestarts(_) => Restart(k)
  }

  lemma ActsOnOne(rules: Rules, s: Sys, step: Step)
    requires Enabled(rules, s, step) && Acts(step)
    ensures step.w < |s.workers| && Apply(rules, s, step).parts == s.parts
    ensures Apply(rules, s, step).workers == s.workers[step.w := Moved(s.workers[step.w], step)]
  {
  }

  // Runs

  predicate Valid(rules: Rules, s: Sys, steps: seq<Step>)
    decreases |steps|
  {
    steps == [] ||
    (Enabled(rules, s, steps[0]) && Valid(rules, Apply(rules, s, steps[0]), steps[1..]))
  }

  function Run(rules: Rules, s: Sys, steps: seq<Step>): Sys
    requires Valid(rules, s, steps)
    decreases |steps|
  {
    if steps == [] then s else Run(rules, Apply(rules, s, steps[0]), steps[1..])
  }

  ghost predicate ReachableIn(rules: Rules, n: nat, steps: seq<Step>, s: Sys) {
    Valid(rules, Init(n), steps) && Run(rules, Init(n), steps) == s
  }

  ghost predicate Reachable(rules: Rules, s: Sys) {
    exists n, steps :: ReachableIn(rules, n, steps, s)
  }

  // What the theorems speak about

  /** The kinds of record a participation has left in its worker's log. */
  function Trace(s: Sys, e: nat): set<Kind>
    requires e in s.parts && s.parts[e].wid < |s.workers|
  {
    if s.parts[e].begun then SegKinds(s.workers[s.parts[e].wid].log, s.parts[e].start) else {}
  }

  /** The manager never logs both outcomes of a transaction. */
  ghost predicate Agreement(s: Sys, tid: nat) {
    !(Logged(s.mgr.log, LCommit, tid) && Logged(s.mgr.log, LAbort, tid))
  }

  /** A participant the manager accepted never logs the opposite of what the manager logs,
      nor both outcomes. */
  ghost predicate Consistent(s: Sys, e: nat)
    requires e in s.parts && s.parts[e].wid < |s.workers|
  {
    && !(LCommit in Trace(s, e) && Logged(s.mgr.log, LAbort, s.parts[e].tid))
    && !(LAbort in Trace(s, e) && Logged(s.mgr.log, LCommit, s.parts[e].tid))
    && !(LCommit in Trace(s, e) && LAbort in Trace(s, e))
  }
}
