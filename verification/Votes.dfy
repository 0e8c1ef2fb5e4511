/** Who votes, and how often: an invariant of the workers alone, which holds however often
    votes are delivered and whatever the users command. */
module Votes {
  import opened Types
  import opened TxLog
  import opened Recovery
  import opened Manager
  import opened Worker
  import opened System
  import opened WorkerResponses

  /** Worker w opened endpoint e. */
  ghost predicate Opened(s: Sys, w: nat, e: nat) {
    e in s.parts && s.parts[e].wid == w
  }

  /** A worker listens on its own endpoint, keeps its port on disk, and has not voted there
      while it waits for the request; one that has voted was entered by the manager. */
  ghost predicate VoterOk(s: Sys, w: nat)
    requires w < |s.workers|
  {
    var k := s.workers[w];
    && (k.log != [] ==> Opened(s, w, k.port))
    && (k.up && k.active && k.uncertain ==> k.ep in s.roster)
    && (LastIs(k.log, LPrepared) ==> k.port in s.roster)
    && (k.up && !k.active ==> !k.uncertain)
    && (k.up && k.active ==> Opened(s, w, k.ep) && k.port == k.ep)
    && (k.up && k.active && !k.uncertain ==> forall b :: b in s.ballots ==> b.ep != k.ep)
  }

  ghost predicate BallotsOk(s: Sys) {
    && (forall i, j :: 0 <= i < j < |s.ballots| ==> s.ballots[i].ep != s.ballots[j].ep)
    && (forall b :: b in s.ballots ==> b.ep in s.roster && b.ep in s.parts)
  }

  /** Only endpoints in a node list are asked to vote. */
  ghost predicate RosterOk(s: Sys) {
    && (forall i, e :: 0 <= i < MAX_TRANSACTIONS && e in Members(s.mgr.table[i].nodes) ==> e in s.roster)
    && (forall e :: ToWorker(e, PrepareToCommit) in s.net ==> e in s.roster)
  }

  ghost predicate VoteInv(s: Sys) {
    && (forall w: nat :: w < |s.workers| ==> VoterOk(s, w))
    && BallotsOk(s) && RosterOk(s)
  }

  lemma InitVotes(n: nat)
    ensures VoteInv(Init(n))
  {
    assert Members(NO_NODES) == {};
  }

  // Steps of the manager

  /** The manager enters nobody in a node list but the sender. */
  lemma HandleLists(m: Mgr, ep: nat, mtype: MsgType, tid: nat, i: nat, e: nat)
    requires i < MAX_TRANSACTIONS
    ensures var r := Handle(m, ep, mtype, tid);
            e in Members(r.mgr.table[i].nodes) ==> e in Members(m.table[i].nodes) || (r.joined && e == ep)
  {
    match mtype
    case BeginTx => BeginLists(m, ep, tid, i, e);
    case JoinTx => JoinLists(m, ep, tid, i, e);
    case _ =>
  }

  lemma BeginLists(m: Mgr, ep: nat, tid: nat, i: nat, e: nat)
    requires i < MAX_TRANSACTIONS
    ensures var r := OnBegin(m, ep, tid);
            e in Members(r.mgr.table[i].nodes) ==> e in Members(m.table[i].nodes) || (r.joined && e == ep)
  {
    EntersOne(NO_NODES, 0, ep, e);
  }

  lemma JoinLists(m: Mgr, ep: nat, tid: nat, i: nat, e: nat)
    requires i < MAX_TRANSACTIONS
    ensures var r := OnJoin(m, ep, tid);
            e in Members(r.mgr.table[i].nodes) ==> e in Members(m.table[i].nodes) || (r.joined && e == ep)
  {
    var k := FirstFree(m.table[i].nodes);
    if k < MAX_NODES {
      EntersOne(m.table[i].nodes, k, ep, e);
    }
  }

  lemma EntersOne(nodes: Nodes, k: nat, ep: nat, e: nat)
    requires k < MAX_NODES
    ensures e in Members(nodes[k := ep]) ==> e in Members(nodes) || e == ep
    ensures e !in Members(NO_NODES)
  {
  }

  /** It asks nobody to vote but the members of a node list. */
  lemma HandleAsks(m: Mgr, ep: nat, mtype: MsgType, tid: nat, e: nat)
    ensures ToWorker(e, PrepareToCommit) in Handle(m, ep, mtype, tid).sends ==>
              exists j :: 0 <= j < MAX_TRANSACTIONS && e in Members(m.table[j].nodes)
  {
    var j := Find(m.table, tid);
    if j < MAX_TRANSACTIONS {
      var p, nodes := ToWorker(e, PrepareToCommit), m.table[j].nodes;
      BroadcastReaches(nodes, PrepareToCommit, p);
      BroadcastReaches(nodes, Commit, p);
      BroadcastReaches(nodes, Abort, p);
    }
  }

  lemma ManagerVotes(s: Sys, p: Packet, again: bool)
    requires VoteInv(s) && p.ToManager?
    ensures VoteInv(ApplyManager(s, p, again))
  {
    var s' := ApplyManager(s, p, again);
    forall w: nat | w < |s'.workers| ensures VoterOk(s', w) {
      assert VoterOk(s, w);
    }
    forall i, e | 0 <= i < MAX_TRANSACTIONS && e in Members(s'.mgr.table[i].nodes) ensures e in s'.roster {
      HandleLists(s.mgr, p.ep, p.mtype, p.tid, i, e);
    }
    forall e | ToWorker(e, PrepareToCommit) in s'.net ensures e in s'.roster {
      HandleAsks(s.mgr, p.ep, p.mtype, p.tid, e);
    }
  }

  lemma TableLost(s: Sys, mgr: Mgr)
    requires VoteInv(s) && mgr.table == EMPTY_TABLE
    ensures VoteInv(s.(mgr := mgr))
  {
    var s' := s.(mgr := mgr);
    assert Members(NO_NODES) == {};
    forall w: nat | w < |s'.workers| ensures VoterOk(s', w) {
      assert VoterOk(s, w);
    }
  }

  // Steps of a worker

  /** s' differs from s in worker w and its endpoints, messages and votes. */
  ghost predicate Moves(s: Sys, s': Sys, w: nat) {
    && w < |s.workers| == |s'.workers|
    && (forall v :: 0 <= v < |s.workers| && v != w ==> s'.workers[v] == s.workers[v])
    && s'.mgr == s.mgr && s'.roster == s.roster
    && (forall e :: ToWorker(e, PrepareToCommit) in s'.net ==> ToWorker(e, PrepareToCommit) in s.net)
    && (forall e :: e in s.parts ==> e in s'.parts && s'.parts[e] == s.parts[e])
  }

  lemma WorkerVotes(s: Sys, s': Sys, w: nat)
    requires VoteInv(s) && Moves(s, s', w) && s'.ballots == s.ballots && VoterOk(s', w)
    ensures VoteInv(s')
  {
    forall v: nat | v < |s'.workers| ensures VoterOk(s', v) {
      assert VoterOk(s, v);
    }
  }

  lemma BallotCast(s: Sys, s': Sys, w: nat, yes: bool)
    requires VoteInv(s) && Moves(s, s', w) && VoterOk(s', w)
    requires var k := s.workers[w];
             && k.up && k.active && !k.uncertain && k.ep in s.roster
             && s'.ballots == s.ballots + [Ballot(k.ep, yes)]
    ensures VoteInv(s')
  {
    assert VoterOk(s, w);
    forall v: nat | v < |s'.workers| ensures VoterOk(s', v) {
      assert VoterOk(s, v);
    }
    forall i | 0 <= i < |s.ballots| ensures s.ballots[i].ep != s.workers[w].ep {
      assert s.ballots[i] in s.ballots;
    }
  }

  lemma StartVotes(rules: Rules, s: Sys, w: nat, fresh': nat, tid: nat, mtype: MsgType, dies: bool)
    requires !rules.reuseEndpoints && VoteInv(s) && AllSteady(s) && CanStart(rules, s, w, fresh', mtype)
    ensures var step := if dies then StartDies(w, fresh', tid, mtype) else Starts(w, fresh', tid, mtype);
            VoteInv(Apply(rules, s, step))
  {
    var step := if dies then StartDies(w, fresh', tid, mtype) else Starts(w, fresh', tid, mtype);
    var s' := Apply(rules, s, step);
    assert VoterOk(s, w) && SteadyAt(s, w);
    assert Moves(s, s', w);
    WorkerVotes(s, s', w);
  }

  lemma RequestVotes(rules: Rules, s: Sys, w: nat, p: Packet, again: bool)
    requires VoteInv(s) && AllSteady(s) && Enabled(rules, s, WorkerReceives(w, p, again))
    requires React(s.workers[w], p.mtype).vote.Some?
    ensures VoteInv(Apply(rules, s, WorkerReceives(w, p, again)))
  {
    var s' := Apply(rules, s, WorkerReceives(w, p, again));
    assert VoterOk(s, w);
    assert VoterOk(s', w);
    BallotCast(s, s', w, React(s.workers[w], p.mtype).vote.value);
  }

  lemma ReceiveVotes(rules: Rules, s: Sys, w: nat, p: Packet, again: bool)
    requires VoteInv(s) && AllSteady(s) && Enabled(rules, s, WorkerReceives(w, p, again))
    ensures VoteInv(Apply(rules, s, WorkerReceives(w, p, again)))
  {
    assert VoterOk(s, w) && SteadyAt(s, w);
    if React(s.workers[w], p.mtype).vote.Some? {
      RequestVotes(rules, s, w, p, again);
    } else {
      WorkerVotes(s, Apply(rules, s, WorkerReceives(w, p, again)), w);
    }
  }

  lemma ObeyVotes(rules: Rules, s: Sys, w: nat, c: Command)
    requires VoteInv(s) && AllSteady(s) && Enabled(rules, s, Obeys(w, c))
    ensures VoteInv(Apply(rules, s, Obeys(w, c)))
  {
    var s' := Apply(rules, s, Obeys(w, c));
    assert VoterOk(s, w) && SteadyAt(s, w);
    assert Moves(s, s', w);
    WorkerVotes(s, s', w);
  }

  lemma RestartVotes(rules: Rules, s: Sys, w: nat)
    requires VoteInv(s) && AllSteady(s) && Enabled(rules, s, WorkerRestarts(w))
    ensures VoteInv(Apply(rules, s, WorkerRestarts(w)))
  {
    var s' := Apply(rules, s, WorkerRestarts(w));
    assert VoterOk(s, w) && SteadyAt(s, w);
    assert Moves(s, s', w);
    WorkerVotes(s, s', w);
  }

  lemma LossVotes(s: Sys, p: Packet)
    requires VoteInv(s)
    ensures VoteInv(s.(net := s.net - {p}))
  {
    var s' := s.(net := s.net - {p});
    forall w: nat | w < |s'.workers| ensures VoterOk(s', w) {
      assert VoterOk(s, w);
    }
  }

  /** Every step keeps it, whatever the rules say about votes and late commands. */
  lemma StepVotes(rules: Rules, s: Sys, step: Step)
    requires !rules.reuseEndpoints && VoteInv(s) && AllSteady(s) && Enabled(rules, s, step)
    ensures VoteInv(Apply(rules, s, step))
  {
    var s' := Apply(rules, s, step);
    match step
    case Lose(p) => LossVotes(s, p);
    case ManagerReceives(p, again) => ManagerVotes(s, p, again);
    case ManagerCrashes => TableLost(s, s'.mgr);
    case RecoveryStops(k) => TableLost(s, s'.mgr);
    case ManagerRestarts => TableLost(s, s'.mgr);
    case Starts(w, fresh', tid, mtype) => StartVotes(rules, s, w, fresh', tid, mtype, false);
    case StartDies(w, fresh', tid, mtype) => StartVotes(rules, s, w, fresh', tid, mtype, true);
    case WorkerReceives(w, p, again) => ReceiveVotes(rules, s, w, p, again);
    case Obeys(w, c) => ObeyVotes(rules, s, w, c);
    case WorkerRestarts(w) => RestartVotes(rules, s, w);
    case _ =>
      assert VoterOk(s, step.w) && SteadyAt(s, step.w);
      WorkerVotes(s, s', step.w);
  }

  lemma {:induction false} RunVotes(rules: Rules, s: Sys, steps: seq<Step>)
    requires !rules.reuseEndpoints && VoteInv(s) && AllSteady(s) && Valid(rules, s, steps)
    ensures VoteInv(Run(rules, s, steps))
    decreases |steps|
  {
    if steps != [] {
      StepVotes(rules, s, steps[0]);
      StepSteady(rules, s, steps[0]);
      RunVotes(rules, Apply(rules, s, steps[0]), steps[1..]);
    }
  }

  lemma ReachableVotes(rules: Rules, s: Sys)
    requires !rules.reuseEndpoints && Reachable(rules, s)
    ensures VoteInv(s) && AllSteady(s)
  {
    var n, steps :| ReachableIn(rules, n, steps, s);
    InitVotes(n);
    RunVotes(rules, Init(n), steps);
    RunSteady(rules, Init(n), steps);
  }

  /** Single vote: an endpoint sends at most one vote in its life, across crashes, restarts
      and repeated requests, and only endpoints the manager entered vote at all. */
  lemma SingleVote(rules: Rules, s: Sys, i: nat, j: nat)
    requires !rules.reuseEndpoints && Reachable(rules, s) && i < |s.ballots| && j < |s.ballots|
    requires s.ballots[i].ep == s.ballots[j].ep
    ensures i == j && s.ballots[i].ep in s.roster
  {
    ReachableVotes(rules, s);
    assert s.ballots[i] in s.ballots;
  }
}
