# A verified model of a two-phase-commit transaction manager

The system is a transaction manager, any number of workers and a datagram network. A
worker begins or joins a transaction, updates its own A, B and ID under an undo log, and
votes when the manager asks it to prepare. The manager counts votes, logs the decision and
tells the workers. Every process may crash at any moment and recover from its log.

Nothing in the code enforces agreement locally. The ABORT branch does not look for a
committed transaction, a late COMMIT request moves a finished transaction back to the
prepare state, and votes are counted without recording who sent them. Safety follows only
from a global invariant over table, log, messages in flight, votes sent and worker logs.
This project states that invariant, proves that every step of every process keeps it, and
derives from it what holds in every run. For agreement, participant consistency, single
votes, the store kept by a commit and the clock bound the conditions are exact: each of them
is an if and only if over what the environment may do, with a run that breaks the guarantee
for each thing it must not do.

| file | contents |
|---|---|
| `Types.dfy`, `TxLog.dfy` | shared values; what a log says about one transaction |
| `Manager.dfy`, `Recovery.dfy` | the manager's table, message switch and startup recovery |
| `Worker.dfy`, `Segments.dfy` | commands, transaction thread, rollback; the part of a log that belongs to one participation |
| `System.dfy` | the state machine: steps, runs, reachable states |
| `Invariant.dfy`, `WorkerSteps.dfy`, `ManagerSteps.dfy` | the invariant and the proof that every step keeps it |
| `Theorems.dfy`, `Limits.dfy` | what holds in every run; exact conditions and the runs behind them |
| `Votes.dfy` | who votes, and how often |
| `ManagerResponses.dfy`, `WorkerResponses.dfy` | what each message and each command brings about in any run, in full |
| `Progress.dfy` | what can always still happen |
| `Undo.dfy` | crash recovery at the granularity of single writes to disk |
| `DataRuns.dfy`, `DataLimits.dfy` | the data over whole runs of the system; the exact condition and the runs behind it |
| `LogFile.dfy` | the log file byte by byte |
| `VClock.dfy`, `ClockRuns.dfy` | vector clocks as tables, as maps, and over whole runs |
| `Message.dfy` | byte order conversion in place, and broadcast |

The manager, the worker, the log file and the message are classes whose methods change
fields in place, and the clock operations work on arrays. Each method is proved against a
function on values, and the lemmas are about those functions.

## How the system is modelled

- The network is a set of datagrams. Any of them may be lost, delayed, reordered and, except
  for PREPARED votes, delivered any number of times. `Rules.dupVotes` lifts the exception.
- An endpoint stands for the address of a worker's transaction socket; each participation
  opens one that was never used before (tx_worker_thread.c:23-36, server.c:63-67).
  `Rules.reuseEndpoints` lets the system hand out any address that is not open. Manager
  broadcasts carry no transaction id and workers ignore the id of what they receive.
- One handled message is one step. A crash inside a handler is a step too wherever it can be
  told apart from a crash before or after the handler: between the request to the manager
  and the worker's BEGIN record, between the PREPARED record and the vote, after any number
  of appends of the manager's recovery. A worker crash, at startup too, may leave anything in
  the store, so the theorems about logs do not depend on how far an update or a rollback got.
  `Undo.CrashAtomic` proves that for the log every handler is atomic. The runs of `DataRuns`
  are the same with crashes limited to what a handler cut off between two writes can leave.
- Users may issue any command at any time, with one exception that `Rules.lateUpdates` and
  `Rules.lateAborts` lift: no update and no abort at a worker whose last record is PREPARED.
  The code does not refuse these (tworker.c:177, tworker.c:297).
- A PREPARED vote for a transaction that is not in the table is answered from the log and
  then ends the manager, which goes on to use a slot it did not find (tmanager.c:212-218).
- Transaction id zero is modelled as the code treats it, as the id of an empty slot; the
  theorems are about nonzero ids, and `Limits.AgreementExactlyNonzero` shows why.
- A worker starts with all flags clear (it is an uninitialised local at tworker.c:28), and an
  empty log is taken to have no last record (the read of txlog.c:154-156 then leaves another
  uninitialised local as it is, see `LogFile.LogStore.LastEntry`).
- `parts`, `ballots`, `roster` and `counted` in the system state are history that no process
  reads: endpoints opened, votes sent, endpoints entered in a node list, votes taken off a
  counter.
- Counters and clock times are 32-bit and wrap explicitly.

Where code and documentation differ, the model follows the code: the node limit is ten, not
nine (common.h:9); the abort command of a worker rolls back at once and builds a message that
is never sent, so the manager learns of it only through the vote (tworker.c:296-312); a
message carries only slot zero of the sender's clock (msg.c:18-19).

## Model

| member | source | states |
|---|---|---|
| `Theorems.AgreementHolds` | tmanager.c:142-269 | in every reachable state no nonzero transaction has both COMMIT and ABORT in the manager's log, under loss, delay, reordering, duplication of everything but votes, crashes, restarts and any user commands, with endpoints that are not used again |
| `Limits.AgreementExactly` | tmanager.c:205-237 | that agreement holds in all runs if and only if no PREPARED vote is delivered twice and no endpoint is used again |
| `Limits.DuplicateVote` | tmanager.c:207-237 | a concrete run: one vote delivered twice commits a transaction that its other member then aborts |
| `Limits.StaleVote` | tx_worker_thread.c:149-167 | a concrete run: an old request to vote reaches a reused endpoint, whose vote commits a transaction that its only member then aborts |
| `Limits.AgreementExactlyNonzero` | tmanager.c:334-395 | for a transaction id, agreement holds in all runs if and only if the id is not zero |
| `Limits.TransactionZero` | tmanager.c:386-395 | a concrete run in which transaction zero is committed and aborted |
| `Theorems.ParticipantsConsistent` | tx_worker_thread.c:43-108 | an endpoint the manager entered never has an outcome in its worker's log that contradicts the manager's log, nor both outcomes |
| `Limits.ConsistencyExactly` | tworker.c:76-97 | that consistency holds in all runs if and only if votes are not duplicated, endpoints are not used again, and neither an update nor an abort is issued after PREPARED |
| `Limits.LateUpdate` | tworker.c:175-193 | a concrete run: an update after the vote makes a restart undo a committed transaction |
| `Limits.LateAbort` | tworker.c:296-312 | a concrete run: an abort after the vote undoes a committed transaction at once |
| `Limits.StaleCommit` | tx_worker_thread.c:216-226 | a concrete run: an old COMMIT reaches a reused endpoint in a transaction that recovery then aborts |
| `Theorems.WorkerCommitsAfterManager` | tx_worker_thread.c:216-226 | a COMMIT in any worker's log, of an accepted endpoint or not, has a COMMIT in the manager's |
| `Theorems.CommitValid` | tmanager.c:231-263 | every endpoint entered for a committed transaction has PREPARED in its own worker's log, voted so and never voted to abort |
| `Votes.SingleVote` | tx_worker_thread.c:149-199 | an endpoint sends at most one vote in its life, across crashes, repeated requests, duplicated votes and late commands, and only entered endpoints vote |
| `Votes.StepVotes` | tx_worker_thread.c:149-199 | the invariant of workers, votes and node lists behind it is kept by every step |
| `Limits.SingleVoteExactly` | tx_worker_thread.c:23-36 | no endpoint votes twice in any run if and only if no endpoint is used again |
| `Theorems.DecisionStable` | tmanager.c:495-525 | once decided, every later state of every run has the same decision in the log and finds the same answer there |
| `ManagerResponses.AnswerStable` | tmanager.c:80-109 | once a decision is logged, a question received in any later state of any run sends that decision and nothing else to whoever asks |
| `ManagerResponses.QuestionAnswered` | tmanager.c:80-109 | an ASK, and a COMMIT, ABORT, JOINTX or PREPARED about a transaction not in the table, sends the logged decision, or nothing if there is none, and changes nothing else, but a PREPARED ends the manager |
| `ManagerResponses.VoteDecides` | tmanager.c:205-269 | a PREPARED vote for an open transaction is counted, and COMMIT is logged and sent to exactly the endpoints entered if and only if with it all members have voted and none is listed twice |
| `ManagerResponses.VoteRefused` | tmanager.c:217-229 | a vote for an aborted transaction brings the error and nothing else |
| `ManagerResponses.CommitAsksAll` | tmanager.c:142-168 | the first request to commit asks exactly the endpoints entered to vote, a repeated one nobody, and no other transaction changes |
| `ManagerResponses.AbortTellsAll` | tmanager.c:170-202 | a vote to abort logs ABORT and sends it to exactly the endpoints entered |
| `ManagerResponses.BeginEnters` | tmanager.c:112-140 | a transaction is entered with its sender as the only node if and only if its id was never used and some slot is empty or finished; otherwise the sender gets the error and nothing else happens |
| `ManagerResponses.JoinEnters` | tmanager.c:271-306 | the sender becomes one more node if and only if the transaction is open, not yet asked to commit and not full; otherwise it gets the error and nothing else happens |
| `WorkerResponses.RequestAnswered` | tx_worker_thread.c:149-199 | a request to vote gets exactly one vote, PREPARED after its record from a worker that means to commit and ABORT from one told to abort, and none from a worker that has voted |
| `WorkerResponses.VoteReflectsCommands` | tworker.c:302-334 | a worker that starts, obeys any list of commands and is asked votes to commit if and only if none of them was to abort or to vote so |
| `WorkerResponses.ErrorEnds` | tx_worker_thread.c:205-214 | an error ends the participation of a worker that has not voted, which may then begin or join at any fresh address, means nothing to one that has, and changes neither log, store nor votes |
| `WorkerResponses.OutcomeEnds` | tx_worker_thread.c:74-97 | COMMIT is logged and the store kept, or the store rolled back and ABORT logged, for the worker's own transaction, and the worker may begin or join again |
| `WorkerResponses.CommandsObeyed` | tworker.c:240-334 | what a commit request, an abort and a vote to abort send, log and change, with and without a transaction |
| `WorkerResponses.StartEnters` | tworker.c:120-172 | begin and join open the address, send the request for the transaction from it and log BEGIN |
| `WorkerResponses.RestartResumes` | tworker.c:76-97 | a voter waits again at the address and for the transaction of its vote, an update is rolled back, any other worker finds its store and may start again |
| `Progress.AskingRecovers` | tx_worker_thread.c:43-108 | a lost outcome: a worker that waits, or died after PREPARED, can log the manager's decision within four steps by restarting and asking |
| `Progress.NobodyBlocked` | tmanager.c:456-492 | from every state a worker that waits can get an outcome within six steps, at worst after the manager has crashed, restarted and aborted what was undecided |
| `Progress.NoWorkerLost` | tworker.c:76-97 | from every state each worker can come to be free to begin or join again within six steps |
| `Progress.CommitPossible` | tmanager.c:142-269 | when all endpoints of an open transaction belong to running workers that mean to commit and none is listed twice, a run of one request and one vote each logs COMMIT |
| `Theorems.HistoryShape` | tmanager.c:111-125 | the log projected on a transaction is empty, BEGIN, BEGIN COMMIT, or BEGIN and one or more ABORTs |
| `Theorems.DecisionAnnounced` | tmanager.c:258-263 | when a decision is logged, a datagram with it goes to exactly the endpoints ever entered for the transaction and to no other endpoint at all |
| `Theorems.LogGrows` | txlog.c:116-130 | the manager's log is append only over every run, restarts included |
| `Theorems.VoteCounter` | tmanager.c:231-237 | the counter is nodes less votes taken off, bounds the members whose vote is outstanding, stays within ten, and is zero exactly when every member's vote is in and none is listed twice |
| `Theorems.CounterCoversUnprepared` | tmanager.c:236-240 | the counter is at least the number of members without PREPARED in their own log, so the commit test cannot hold before all have it |
| `Theorems.CounterNeverWraps` | tmanager.c:231-232 | a vote that is in flight never meets a counter that is zero |
| `Theorems.TableCachesLog` | tmanager.c:334-395 | transactions in the table are distinct and begun, and the state of a slot is the last record of its transaction |
| `Theorems.RecyclingIsSafe` | tmanager.c:352-367 | a transaction that BEGINTX pushes out of the table has its decision in the log |
| `Theorems.RecoveryCorrect` | tmanager.c:456-492 | from any log of any run, duplicated votes and reused endpoints included, recovery aborts each undecided transaction once and no other; interrupted anywhere and rerun it leaves the same log; run again it appends nothing |
| `Recovery.RecoveryExactly` | tmanager.c:465-490 | what recovery appends, for every log in which BEGIN is the first record of its transaction |
| `Recovery.RecoveryResumes` | tmanager.c:465-490 | stopping after any number of appends and rerunning equals one undisturbed run |
| `Recovery.RecoveryIdempotent` | tmanager.c:465-490 | a second run appends nothing |
| `Theorems.StepKeeps` | tmanager.c:67-328 | every step of manager, workers and network keeps the global invariant |
| `ManagerSteps.ReceiveKeeps` | tmanager.c:80-327 | every message the manager handles keeps it |
| `ManagerSteps.AbortVoteStatus` | tmanager.c:170-202 | the unchecked ABORT branch never meets a committed transaction |
| `ManagerSteps.LastVote` | tmanager.c:231-250 | when the counter reaches zero all members' votes are in and the log holds neither decision |
| `ManagerSteps.CounterVote` | tmanager.c:231-237 | one more vote of an uncounted member does not wrap the counter and takes it to zero only with the last member |
| `ManagerSteps.RecoverKeeps` | tmanager.c:456-492 | recovery, complete or cut short, keeps the global invariant |
| `WorkerSteps.VoteKeeps` | tx_worker_thread.c:149-199 | voting keeps it: PREPARED is logged before it is sent and an endpoint that has voted cannot vote again |
| `WorkerSteps.VoteDiesKeeps` | tx_worker_thread.c:159-167 | so does a crash after the PREPARED record and before the vote |
| `WorkerSteps.DecisionKeeps` | tx_worker_thread.c:74-97 | a decision leaves the manager's outcome in the worker's log |
| `WorkerSteps.RestartKeeps` | tworker.c:76-97 | restart keeps it in the uncertain, the rolled-back and the idle case |
| `WorkerSteps.ObeysKeeps` | tworker.c:174-334 | every user command keeps it |
| `WorkerSteps.StartDiesKeeps` | tworker.c:125-140 | so does a crash between the request to the manager and the BEGIN record |
| `TxLog.StatusIsProjection` | txlog.c:158-171 | the status of a transaction is a statement about the sequence of its records |
| `TxLog.LastOfStatus` | txlog.c:158-171 | the last record of a transaction with a well-formed history is its decision, if it has one |
| `Manager.TransactionManager.Receive` | tmanager.c:79-309 | one turn of the message loop takes the manager to the specified state and sends the specified datagrams |
| `Manager.TransactionManager.ReceiveVote` | tmanager.c:205-269 | the same for a PREPARED vote, the null dereference included |
| `Manager.TransactionManager.FindTransaction` | tmanager.c:386-395 | the first slot with the id, or none |
| `Manager.TransactionManager.AddTransaction` | tmanager.c:334-383 | the slot taken, the clash and the full table, with the error sent |
| `Manager.TransactionManager.JoinTransaction` | tmanager.c:438-454 | the endpoint is put in the first unused position and counted, or the list is full |
| `Manager.TransactionManager.SendToAllWorkers` | tmanager.c:398-412 | one datagram for each occupied position, in order |
| `Manager.TransactionManager.CheckTransactionLog` | tmanager.c:495-525 | the answer is the last record of the transaction, if it is a decision |
| `Manager.TransactionManager.RestoreTransactions` | tmanager.c:456-492 | the nested scans append the specified aborts |
| `Manager.BroadcastReaches` | tmanager.c:398-412 | a broadcast reaches exactly the members of a node list |
| `Worker.UnwindIsEarliest` | tworker.c:345-364 | the backward scan with repeated restores equals restoring the image of the earliest update since the last BEGIN, COMMIT or ABORT, passing over PREPARED |
| `Worker.RollbackTwice` | tworker.c:345-376 | for every worker and every log a repeated rollback leaves the store alone |
| `Worker.WorkerProcess.UpdateRollback` | tworker.c:345-376 | the loop restores that image and logs exactly one ABORT, for the transaction of the record that stopped it |
| `Worker.WorkerProcess.Execute` | tworker.c:174-334 | each command, with the undo image logged before the store changes |
| `Worker.WorkerProcess.BeginOrJoin` | tworker.c:120-172 | begin and join, refused while a transaction is active |
| `Worker.WorkerProcess.Open` | tx_worker_thread.c:12-40 | the port is the old one when uncertain and a fresh one otherwise |
| `Worker.WorkerProcess.Receive` | tx_worker_thread.c:43-250 | the voting loop and the uncertain loop |
| `Worker.WorkerProcess.Startup` | tworker.c:76-97 | uncertain after PREPARED, rolled back after UPDATE, idle otherwise |
| `Undo.RestartRestoresBegin` | tworker.c:76-97 | updates, aborts and restarts in any order, each cut off by a crash at any write, then a complete restart: A, B and ID are as at BEGIN |
| `Undo.AbortRestoresBegin` | tworker.c:345-376 | the same with a vote to commit among them, for a complete abort; a restart that finds PREPARED writes nothing |
| `Undo.CrashAtomic` | tworker.c:174-239 | a crash at any write keeps what rollback would restore, and leaves the log found or the log of the complete handler |
| `Undo.CommandMatches` | tworker.c:174-239 | NEW_A sets A, NEW_B sets B and NEW_IDSTR sets ID and nothing else; an active worker's writes are the image and that field, an idle worker's only the field |
| `Undo.UpdateMatches` | tworker.c:174-239 | the writes of an update add up to the specified handler |
| `Undo.RollbackMatches` | tworker.c:345-376 | the writes of a rollback and of a startup add up to the specified handlers |
| `Undo.PreparedSurvivesExactly` | tworker.c:80-95 | a prepared worker that obeys any commands and crashes comes back uncertain with log and store as voted if and only if none of them was an update or an abort |
| `Undo.AppendOnBytes` | txlog.c:116-130 | the writes on record cells that the undo theorems speak of are the writes on bytes of the log file, one by one, with a torn record as no write |
| `DataRuns.TargetIsBegin` | tworker.c:345-376 | in every reachable state of the whole system, while a participation is active or ends in UPDATE or PREPARED, a rollback would restore A, B and ID as they were at its BEGIN |
| `DataRuns.AbortRestores` | tworker.c:345-376 | whichever step logs ABORT for a participation, on a message, a command or a restart, leaves the store as it was at its BEGIN |
| `DataRuns.CommitKeepsVote` | tx_worker_thread.c:74-97 | in strict runs the step that logs COMMIT for a participation that has voted finds and leaves the store with which it voted, across crashes, restarts and questions |
| `DataLimits.CommitKeepsVoteExactly` | tworker.c:175-312 | that holds in all runs if and only if votes are not duplicated, endpoints are not used again, and neither an update nor an abort is issued after PREPARED |
| `DataLimits.LateBreaks` | tworker.c:177-191 | a concrete run: a voter changes A again, or starts to undo and crashes, before it is told to commit |
| `DataLimits.DuplicateBreaks` | tmanager.c:207-237 | a concrete run: a vote counted twice gets a voter both outcomes, and a crash in the rollback leaves it to commit the old store |
| `DataLimits.ReuseBreaks` | tx_worker_thread.c:74-97 | a concrete run: the same from an ABORT of an earlier transaction at a reused endpoint |
| `DataRuns.CutLeaves` | tworker.c:174-239 | a handler or a startup cut off between any two writes leaves a log and a store that the crash step of these runs allows |
| `DataRuns.CommandLeaves` | tworker.c:174-239 | the same for the three update commands of the user |
| `DataRuns.StepData` | tworker.c:114-334 | every step keeps the invariant that ties undo images and store to the store of BEGIN |
| `DataRuns.StepVoted` | tx_worker_thread.c:43-108 | every step keeps the store of the vote until a decision arrives |
| `LogFile.AppendExactly` | txlog.c:116-130 | an append refines appending to a sequence if and only if the 32-bit count does not wrap; if it does the log is lost |
| `LogFile.TornRecord` | txlog.c:118-124 | a crash after any number of bytes of a record and before the count leaves exactly the old sequence |
| `LogFile.CountedRecord` | txlog.c:118-124 | counting the record makes it the last one and disturbs no other |
| `LogFile.ClockApart` | txlog.c:105-108 | writing the clock changes neither count nor records |
| `LogFile.RecordRoundTrip` | txlog.h:37-47 | decoding the bytes of a record gives the record |
| `LogFile.RecordLayout` | txlog.h:37-47 | every field of a record is at the place the structure gives it |
| `LogFile.OpenedIsLog` | txlog.c:43-61 | a new file is an empty log and a log is left as it is |
| `LogFile.LogStore.Append` | txlog.c:116-130 | the three writes, and the sequence they leave |
| `LogFile.LogStore.ReadEntry` | txlog.c:133-138 | reading at an offset reads an element of the sequence, any record the file has, or past the end leaves the buffer alone |
| `LogFile.LogStore.FreeId` | txlog.c:141-151 | true exactly for ids that no record has |
| `LogFile.LogStore.LastEntry` | txlog.c:154-156 | the last record; in an empty log the index wraps around and the buffer stays as it was, unless the file has a record there |
| `LogFile.LogStore.LastTx` | txlog.c:159-171 | the last record of a transaction, or none; none is found exactly when there is none or the log has more than 2^31 records |
| `LogFile.LogStore.WriteClock` | txlog.c:105-108 | the header clock is replaced and the records stay |
| `LogFile.LogStore.ReadClock` | txlog.c:111-113 | the header clock |
| `VClock.MergeRefinesMap` | common.c:49-92 | the merge of tables is the pointwise maximum of maps over all nodes but the own if and only if the new nodes do not outnumber the empty slots |
| `VClock.MergeIsMaximum` | common.c:49-92 | for two tables that hold each node once the merge is the pointwise maximum of their maps if and only if there is room |
| `VClock.MergeTimes` | common.c:77-82 | full or not, the own entry is untouched, every node in the result has the greater time, and no time decreases |
| `VClock.MergeIds` | common.c:84-90 | distinctness is kept, each new node takes one empty slot, and nodes are dropped only when no slot is left |
| `VClock.UpdateClock` | common.c:49-92 | the nested loops in place compute that merge |
| `VClock.UpdateSlot` | common.c:63-91 | one turn of the outer loop |
| `VClock.Increment` | common.c:94-105 | the own time grows by one, modulo wrap-around, or the process exits |
| `VClock.BumpMeaning` | common.c:94-105 | the own time moves on, modulo wrap-around, and no other does |
| `VClock.Has` | common.c:107-113 | whether a table knows a node |
| `VClock.AddNode` | common.c:115-128 | the node is entered at time one in the first empty slot, or the process exits |
| `VClock.AddMeaning` | common.c:115-128 | the node gets time one, one empty slot is taken and no other time moves |
| `ClockRuns.OwnSlotAlways` | msg.c:15-20 | through startup, merges, increments, writes to disk, rollbacks and reloads slot zero holds the own id, so what a message carries is the sender's own time |
| `ClockRuns.ClockBound` | tmanager.c:74-77 | in runs in which no restart reloads an earlier own time than the one lost and no own time wraps around, no process and no message is ahead of a node about that node |
| `ClockRuns.BoundExactly` | tworker.c:114-115 | the bound holds in all runs if and only if neither of the two is allowed |
| `ClockRuns.BoundSurvivesExactly` | common.c:94-105 | for a process that has sent its current time a step keeps the bound if and only if it is neither of the two |
| `ClockRuns.StepKeepsBound` | common.c:49-105 | every other step keeps it, with the clocks in the header and in the records behind the other processes too |
| `ClockRuns.ClockBoundNoRestarts` | tmanager.c:74-77 | the bound in runs without restarts |
| `ClockRuns.RestartIsNew` | tworker.c:58-69 | a worker whose clock is on disk comes back one later than any time it has used, the manager at the time it had |
| `ClockRuns.BackwardBreaks` | tworker.c:370-372 | a concrete run: begin, update, commit request, abort, crash and restart leave a worker at time 3 behind its own message at time 4, because rollback writes the clock of BEGIN to disk |
| `ClockRuns.WrapBreaks` | common.c:94-105 | a concrete run: a worker obeys commands until its time wraps to zero, behind its own message |
| `Message.ConversionRoundTrip` | msg.c:86-114 | conversion from network byte order undoes conversion to it, on every field and clock slot |
| `Message.SwapIsNetwork` | msg.c:86-99 | a converted word has its most significant byte first |
| `Message.ConvertedCarries` | msg.c:84-99 | on the wire every field and clock slot is at its place in network byte order and the text is as it was |
| `Message.CarriesOne` | msg.c:101-114 | the bytes on the wire carry one message only |
| `Message.Buffer.Convert` | msg.c:86-114 | the conversion in place, and that the bytes it leaves carry the message in network byte order |
| `Message.Buffer.constructor` | msg.c:8-21 | a new message carries slot zero of the clock and nothing else |
| `Message.SendToAll` | tmanager.c:398-412 | every node in use is sent bytes that carry the original message and decode to it, because each conversion acts on a copy |

## Left out

- Liveness: that what `Progress` proves possible comes about; the manager has no vote timeout, and a late COMMIT request can keep a slot from being reused.
- Sockets, host resolution, select timeouts and port binding: the network is a set of datagrams and a timeout is a step.
- Memory mapping and flushing: written data is durable, in the order of the writes.
- Interleaving of a worker's two threads inside one handler: worker state is shared without locks (tworker.h:14-15).
- TX_ERROR ends a transaction without rollback (tx_worker_thread.c:205-214): the undo theorems speak of crashes and aborts while the transaction is active.
- Clocks in the protocol model: no decision depends on a clock, so log entries and datagrams of `System` carry none; they are modelled in `VClock`, `ClockRuns` and `LogFile`.
- Persisted clocks that never go backwards: the code does not give this, see `ClockRuns.BackwardBreaks`.
- Overflow of the log count and the signed loop indexes over it (tworker.c:350, tmanager.c:465-490) in the protocol model: logs of `System` are unbounded; `LogFile.AppendExactly` and `LogFile.LogStore.LastTx` state where the file ends.
- Runs from worker flags that are not clear at the first start (tworker.c:28).
- Delay and crash switches for demonstrations: part of the crash and delay steps.
- Length limits and termination of C strings.
- The command line client, log and object dumps, visualisation output and wall-clock times: user interface and reporting.
