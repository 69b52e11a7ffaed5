# tod: the protocols and algorithms under its agents, modelled and proved

`tod` runs coding agents for the nodes of an outline. This project models the parts of it whose
guarantees span several functions, and proves them in Dafny 4.11:

- **The daemon's requests** (`RequestProtocol`, `RemoteCall`). A client sends a command again, under
  the same id, when the connection that carried it is lost; the daemon answers from the last 512
  answers it remembers. The model is a state machine of calls, arrivals and answers with losses and
  restarts of the daemon anywhere, and the three hypotheses of at-most-once execution are predicates
  on runs, each shown to be needed by a run without it.
- **Starting and replacing the daemon** (`DaemonStart`, `DaemonReplace`, `DaemonLaunch`): launchers of
  several builds, the start lock, the daemon lock, the info file, connects that miss a daemon, drained
  and killed daemons; and one launcher's polling loops with their attempt counter and deadlines.
- **The daemon's idle exit** (`IdleExit`): connections come and go while a watcher counts and decides.
- **Autopilot runs** (`Runners`, `RunnerLease`): a slot per node, changed one mutex section at a time
  by client starts, ticks, the reconciler and a run's own events.
- **The ACP session driver** (`AcpPairing`, `AcpAwait`, `AcpWorker`, `AcpDiscipline`, `ReplyStream`):
  pairing of responses and requests and why a worker's turns keep it, the idle bound of a wait, one
  session and one process per conversation, and the reply as it streams in.
- **The batch language** (`BatchLexer`, `BatchGrammar`, `BatchParser`, `BatchPrinter`,
  `BatchProblems`, `BatchRun`): lexer and parser, how words, lines and scripts are written and what is
  told of one that is refused, and the run, with a link from what the parser accepts to what it can skip.
- **Algorithms**: secret masking (`SecretMask`, `MaskCompleteness`), usage accounting (`Usage`), the
  journal of next actors (`ActorJournal`), the outline listing (`OutlineTree`) and the version order
  (`Versions`, and `SemVer` for how it differs from Semantic Versioning). `Text` and `Seqs` hold the string and sequence facts these share.

Code that works by changing state is a class or a loop here (`AnswerMemory`, `DaemonWriter`, `Table`,
`Presence`, `Client`, `ConversationWorker`, `Stream`, `TokenUsage`, `ActorTracker`, and the loops of the
lexer, parser, mask, listing and launcher), each tied by its `ensures` to a function or relation that
the lemmas are about. Interleavings are runs: a sequence of steps is a run when each step is enabled
after the ones before it, and the theorems are about the state after every run.

Several promises hold only under a condition. Each has its condition stated, a
theorem under it, and, where it says so, the other half for all runs: a step outside the condition can be
followed by steps within it that break the promise.

- A command is executed at most once as long as no look-up comes while the same id is being answered,
  after 512 other answers, or at another daemon than one that executed it; the first that does can be
  followed by a second execution (`LimitsAreExact`; `OverlapExecutesTwice`, `EvictionExecutesTwice` and
  `RestartExecutesTwice` give a run for each limit).
- A launcher is given a daemon of its own build as long as none gives up on a child that may still
  serve, and no connect misses a daemon that serves; the first step that does either can be followed by
  another launcher being given a foreign build (`CarelessnessGivesForeign`). A launcher that missed a
  daemon can itself be given that daemon, whatever its build (`MissedDaemonAnswers`): the loop at
  crates/tod-agentd-client/src/client.rs:325-335 returns what answers, without comparing.
- Builds that serve are newer and newer as long as no step ends the daemon that serves, leaves its
  replacement undone, or leaves a child that has still to try its lock; any such step can be followed
  by one that is no newer (`DeathLetsOlderServe`, `OrphanLetsOlderServe`).
- The idle exit is sound as long as the last connection to store its clock hides no end of less than
  `idle` ago; where it does, the daemon can quit early (`LateStampEndsEarly`). Whatever comes, a
  connection accepted after the count can be cut, and so, with a limit of zero, can one that was
  counted (`ConnectionAfterCountIsCut`, `ZeroIdleEndsOpenConnection`).
- A node has one live run as long as the reconciler does not act on an old plan while the slot is in
  use; where it does, two runs can follow (`LateReportLetsTwoRun`).
- A run that finishes before its start has stored it stays in the slot (`EarlyFinishStaysInSlot`); a
  due wait, or an answered request, on a node that cannot be started here is picked at every tick
  (`RefusedWaitIsPickedAgain`, `RefusedAnswerIsPickedAgain`).
- A run that is continued after a request was seen waiting since it stopped, as the comment at
  crates/tod-agentd/src/runners.rs:78-80 has it, as long as no tick marks the node while its run works,
  and no run of a marked node sends its last event before its start has stored it, where a tick has
  picked the node or now can (`ResumesAfterTheStop`); either can be followed by a run that is continued
  without having been seen (`BlurResumesTooSoon`).
- A response is the answer to the request last sent as long as no error is carried past on a connection,
  and a worker's turns carry none (`WorkerIsPaired`); where a client does while the answer can still
  come, it can take it for the answer to its next request (`CarryingOnMispairs`).
- A connect that fails after its spawn leaves its process, and perhaps a session, behind, so that two
  processes can run for a moment although crates/tod-agent/src/cursor_acp.rs:121 says at most one
  (`OneProcess`, `IdleFreesUnlessLeft`, `FailedConnectOrphansSession`).
- Streaming a secret with an inner newline shows it, whatever the comment at
  crates/tod-cli/src/secrets.rs:291-293 says of secrets and reads (`StreamRefinesMask`,
  `StreamShowsSecret`), and a secret that the mask itself can spell shows (`OneSecretIsHidden`).
- Costs in interleaving currencies do not add up the same in every grouping
  (`PlusIsAssociativeExactly`).
- The version order is the precedence of item 11 of Semantic Versioning 2.0.0, but for ties between
  prereleases of one version, exactly for versions with no dash in the build metadata of a release and
  no number above 64 bits (`OlderIsCoarser`, `CoarserExactly`).

`dafny verify dfyconfig.toml` checks the whole project.

## Model

| member | source | states |
|---|---|---|
| RequestProtocol.AtMostOnce | crates/tod-agentd/src/server.rs:283-302 | in every run within the three limits, with losses and restarts anywhere, a command sent by a call is executed at most once, also when the call gave up; a call that returned was executed exactly once and has that execution's response |
| RequestProtocol.QueueIsLastAnswers | crates/tod-agentd/src/server.rs:294-300 | within the limits the queue is always the last 512 answers the daemon remembered, with distinct ids |
| RequestProtocol.LimitsAreExact | crates/tod-agentd/src/server.rs:283-302 | after any run within the limits, the first look-up outside one of them can be followed by executions alone that execute its command a second time |
| RequestProtocol.MissCanExecuteTwice | crates/tod-agentd/src/server.rs:287-293 | in any run, a look-up that misses while the id is pending or already executed can be continued by executions alone so that the command is executed twice |
| RequestProtocol.OverlapExecutesTwice | crates/tod-agentd/src/server.rs:287-300 | a run in which the look-up of a resend is the only one that overlaps an answer, and the command is executed twice |
| RequestProtocol.EvictionExecutesTwice | crates/tod-agentd/src/server.rs:34 | a run in which nothing overlaps, exactly 512 other ids are answered after the first execution, and the command is executed twice |
| RequestProtocol.RestartExecutesTwice | crates/tod-agentd-client/src/remote.rs:34-50 | a run in which the daemon restarts between the execution of a command and its last resend, nothing overlaps and nothing is forgotten, and the command is executed twice |
| RequestProtocol.AnswerMemory.Lookup | crates/tod-agentd/src/server.rs:287-291 | the search of the queue finds the answer remembered under the id |
| RequestProtocol.AnswerMemory.Remember | crates/tod-agentd/src/server.rs:294-299 | an answer is pushed at the back, and the oldest dropped beyond 512 |
| RequestProtocol.AnswerMemory.Answer | crates/tod-agentd/src/server.rs:283-302 | a request under a remembered id is answered without executing; any other is executed and, when it has an id, remembered |
| RemoteCall.DaemonWriter.Call | crates/tod-agentd-client/src/remote.rs:52-80 | at most three attempts under one id; the first that reaches an end says what the caller is told: a reply passed on as done when it is ok and as refused when it is not, or that it cannot be read; told unanswered exactly when no attempt does; and what the client sees is a call of the protocol |
| RemoteCall.RunShowsCall | crates/tod-agentd-client/src/remote.rs:52-80 | in every run of the protocol the steps of a call are what its client sees, and leave it where those say |
| RemoteCall.CallIsARun | crates/tod-agentd-client/src/remote.rs:52-80 | whatever a client can see of a call comes of a run within the limits |
| RemoteCall.CallExecutesAtMostOnce | crates/tod-agentd-client/src/remote.rs:52-80 | so in every run within the limits a call is executed at most once, and, when its client has a response, once and with that response |
| RemoteCall.ToldIsTrue | crates/tod-agentd-client/src/client.rs:109-114 | in every run within the limits, a caller told done had its command executed once, with that ok response, and one told refused had it executed once, with that response, which is not ok |
| DaemonStart.NeverBothOlder | crates/tod-agentd-client/src/client.rs:40-48 | two builds never each find the other older |
| DaemonStart.FindGoesByBuildTime | crates/tod-agentd-client/src/client.rs:226-241 | in any run a launcher that finds a daemon returns it exactly when the stamps are equal, drains it exactly when they differ and it was built earlier, and is refused exactly when they differ and it was not |
| DaemonStart.AtMostOneServes | crates/tod-agentd/src/server.rs:61-108 | over any interleaving, with crashes and abandoned children, at most one daemon is past its lock, and the one that answers is the one the info file names |
| DaemonStart.OkMeansOwnBuild | crates/tod-agentd-client/src/client.rs:213-243 | when no launcher abandons a child that may still serve or misses a daemon that serves, a launcher that returned a daemon has one of its own stamp, and it served as the launcher returned |
| DaemonStart.CarelessnessGivesForeign | crates/tod-agentd-client/src/client.rs:321-350 | from any run, a launcher that does abandon one or miss one can be followed by steps with neither, after which any unused launcher of another stamp was given a daemon that is not of its own |
| DaemonStart.MissedDaemonAnswers | crates/tod-agentd-client/src/client.rs:137-149 | in any run, a launcher that misses the daemon that serves can be given that very daemon, whatever the two builds |
| DaemonStart.OnlyKilledIsRetried | crates/tod-agentd-client/src/client.rs:328-348 | in any run a launcher whose child is over starts another exactly when a step of the run killed that child and it has started fewer than three; else it fails |
| DaemonStart.ToldWhatItDid | crates/tod-agentd-client/src/client.rs:225-242 | in any run a launcher that returned with a daemon says "restarted" exactly when it saw an older one go, and "started" exactly when it started one where none was |
| DaemonReplace.ReplacementsIncrease | crates/tod-agentd-client/src/client.rs:225-239 | as long as no step ends the daemon that serves, leaves its replacement undone or leaves a child that has still to try its lock, each daemon that serves was built later than the one before it, and there are at most as many as there are build times among the launchers |
| DaemonReplace.OlderIsReplaced | crates/tod-agentd-client/src/client.rs:232-241 | from any run with no start in progress, a launcher of other source and built later than the daemon that answers can come to its own build serving in its place |
| DaemonReplace.DeathLetsOlderServe | crates/tod-agentd-client/src/client.rs:232-241 | after any such run, a step that ends the daemon that serves or leaves it unreplaced can be followed by undisturbed steps in which any unused launcher of a build no newer puts its own there |
| DaemonReplace.OrphanLetsOlderServe | crates/tod-agentd-client/src/client.rs:321-350 | after any such run, a step that leaves a child starting can be followed by undisturbed steps in which that child serves after a daemon that is no older |
| DaemonLaunch.Start | crates/tod-agentd-client/src/client.rs:321-350 | the polling loop ends where its looks say: with the first answer, with an exit that may not be retried, when asking after the child or starting it again fails, or when a child has been starting for 60 s; it starts a child at most three times |
| DaemonLaunch.EndIsDetermined | crates/tod-agentd-client/src/client.rs:321-350 | what the looks see determines one end |
| DaemonLaunch.SteadyStart | crates/tod-agentd-client/src/client.rs:321-350 | in milliseconds: when each look takes `took` and the child neither answers nor ends, the start gives up after exactly the looks, `took + 50` apart, that begin within 60000 |
| DaemonLaunch.ThirdKillEnds | crates/tod-agentd-client/src/client.rs:333-347 | a child that is killed is started again, twice; killed a third time within the same start, it ends it |
| DaemonLaunch.WaitGone | crates/tod-agentd-client/src/client.rs:259-276 | the wait succeeds exactly when the daemon lock is free at one of the tries that begin within 30 s, however long each takes |
| DaemonLaunch.SteadyTries | crates/tod-agentd-client/src/client.rs:259-276 | in milliseconds: when each try takes `took`, the wait succeeds exactly when a try `i` with `i * (took + 50) < 30000` finds the lock free |
| DaemonLaunch.EnsureRunningAs | crates/tod-agentd-client/src/client.rs:213-243 | by stamps and build times: equal stamps, used as it is; refused exactly when they differ and the daemon was built no earlier; built earlier, drained, and then, as with none, what answers the start loop, and nothing when draining, spawning or the loop fails |
| IdleExit.ClientsAreUnreleased | crates/tod-agentd/src/server.rs:140-153 | in every run the client count is the number of connections accepted and not yet released |
| IdleExit.IdleExitIsSound | crates/tod-agentd/src/server.rs:212-236 | when no last stamp hides a later end: an exit of a daemon whose root exists means no run in the snapshot and every connection accepted before the count ended `idle` ago, unless one was open and the pass took `idle` to decide |
| IdleExit.NewerNeverHides | crates/tod-agentd/src/server.rs:147 | in every run in which no connection stores a clock before the one stored, as none would if it read and stored it in one step, no stamp hides an end |
| IdleExit.ConnectionAfterCountIsCut | crates/tod-agentd/src/server.rs:219-227 | in any run with the watcher past its count and no run in its snapshot, a connection that comes then can be open as the daemon quits, at most `idle` later |
| IdleExit.ZeroIdleEndsOpenConnection | crates/tod-agentd/src/lifetime.rs:31-47 | in any run with an idle limit of zero, the watcher past its count, no run in its snapshot and an open connection counted, the daemon can quit at once with that connection open |
| IdleExit.CanCountOpen | crates/tod-agentd/src/server.rs:212-224 | every run of a daemon that has not quit can come there, with a new connection counted and open |
| IdleExit.LateStampEndsEarly | crates/tod-agentd/src/server.rs:145-148 | from any run, wherever its watcher is, a last stamp that hides an end of less than `idle` ago can be followed, with nothing else stored, by the daemon quitting while that is still so |
| IdleExit.Presence.Go | crates/tod-agentd/src/server.rs:146-148 | the counters take the steps of a connection that ends: it reads the clock, stores it, and is uncounted only once its stamp is stored, as `Presence.Leave` demands |
| IdleExit.Presence.Check | crates/tod-agentd/src/server.rs:214-234 | the counters take the steps of one pass of the watcher, and it quits exactly when those do: the root is gone, or there is no run, no poll, and `idle` since the last client |
| IdleExit.ShouldExit | crates/tod-agentd/src/lifetime.rs:31-47 | the reason to exit, and when there is one |
| Runners.Table.Begin | crates/tod-agentd/src/runners.rs:530-538 | the first section of a start: claims the slot exactly when no run is in it and no start in progress |
| Runners.Table.Start | crates/tod-agentd/src/runners.rs:523-559 | a start on its own: refused without a trace when the node is not local, a no-op on a busy slot, else the run stored or the failure recorded |
| Runners.Table.OnFinished | crates/tod-agentd/src/runners.rs:698-715 | the last event clears the slot's run and leaves the outcome |
| Runners.Table.RecordStartFailure | crates/tod-agentd/src/runners.rs:511-518 | the failure is the slot's outcome, and nothing is running or starting |
| Runners.Table.SelectDue | crates/tod-agentd/src/runners.rs:282-299 | the first section of a tick picks exactly the nodes whose wait is due and those on a request |
| Runners.Table.LookAtRequests | crates/tod-agentd/src/runners.rs:314-328 | the second marks the waiting ones and continues exactly those seen waiting that no longer are |
| Runners.Table.Plan | crates/tod-agentd/src/runners.rs:169-211 | by slots and evidence: a start exactly for nodes that should run with no start, run or outcome in the way, here, whose actor is that nothing started them or a failed run with the first lifecycle lease that is not alive; moved for those not here; a stop of the own run, or of the first live lease, for those that should not run |
| Runners.DecisionIsCalledFor | crates/tod-agentd/src/runners.rs:169-211 | what is decided of a slot is exactly what its evidence calls for, action by action |
| Runners.Table.TakeDead | crates/tod-agentd/src/runners.rs:437-443 | a run whose thread is over leaves the slot |
| RunnerLease.OneLiveRun | crates/tod-agentd/src/runners.rs:523-559 | the lease: when the reconciler acts on an old plan only while the slot is not in use, the node has at most one live run in every reachable state, in the slot, or covered by the start in progress |
| RunnerLease.FinishedClearsOnlyItsOwn | crates/tod-agentd/src/runners.rs:698-715 | the last event of a run never clears another run |
| RunnerLease.DeadInSlotDiedOrWasEarly | crates/tod-agentd/src/runners.rs:539-549 | a run in the slot that no longer works died, or finished before its start stored it |
| RunnerLease.EarlyFinishStaysInSlot | crates/tod-agentd/src/runners.rs:534-549 | whenever it does finish that early, it stays in the slot with no outcome, and the next start is a no-op |
| RunnerLease.LateReportLetsTwoRun | crates/tod-agentd/src/runners.rs:387-402 | in any run, acting on an old plan while a start is in progress or a run works can be followed, with no other late report, by two runs at work on the node |
| RunnerLease.SpawnsOnlyWhereLocal | crates/tod-agentd/src/runners.rs:524-529 | a run is spawned only by a call that found the node local, whoever asked |
| RunnerLease.ReconcilerAsksOnEvidence | crates/tod-agentd/src/runners.rs:157-166 | in every run each call the reconciler adds comes with such evidence, on a slot not in use; a node explained otherwise gets none |
| RunnerLease.ReconcilerReportsOnEvidence | crates/tod-agentd/src/runners.rs:182-187 | and so does each failure it records of a node that moved or has a lease to clear |
| RunnerLease.NoRetryStorm | crates/tod-agentd/src/runners.rs:281-335 | after a recorded failure, until some start reaches its first section, no tick picks the node, nothing runs, and each new call is a client's or one whose tick had picked the node before the failure |
| RunnerLease.WhoTriesAgain | crates/tod-agentd/src/runners.rs:281-335 | so the first call to reach that section was there before the failure, is a client's, or was picked before it |
| RunnerLease.RefusedWaitIsPickedAgain | crates/tod-agentd/src/runners.rs:300-306 | a due wait that is refused where the place is looked up is picked again, any number of times |
| RunnerLease.RefusedAnswerIsPickedAgain | crates/tod-agentd/src/runners.rs:314-335 | and so is a request that was answered and is refused there |
| RunnerLease.NoEarlyResume | crates/tod-agentd/src/runners.rs:314-328 | a tick continues a run after a request only if it sees the node not waiting and an earlier look saw it waiting since the last run was stored |
| RunnerLease.ResumesAfterTheStop | crates/tod-agentd/src/runners.rs:78-80 | in every run in which no look marks the node while its run works, and no unstored run of a marked node sends its last event where a tick has picked the node or now can, that earlier look came after the run had stopped |
| RunnerLease.BlurResumesTooSoon | crates/tod-agentd/src/runners.rs:314-328 | in any run, either of these steps can be followed by a tick that continues the run although none has seen the node waiting since it stopped |
| RunnerLease.SeenBeforeItStopped | crates/tod-agentd/src/runners.rs:282-328 | such a run from the start: stored between the two sections of a tick, marked at work, and continued at once after it stops for a new request |
| AcpPairing.ResponsesArePaired | crates/tod-agent/src/cursor_acp.rs:1297-1375 | in every run in which an error ends the connection, each response returned answers the request last sent, none is returned twice, and at most one request is outstanding |
| AcpPairing.CarryingOnMispairs | crates/tod-agent/src/cursor_acp.rs:246-252 | from any disciplined run with a request outstanding and no error to it queued, a client that carries on after giving up on it can take its answer for the answer to the next request |
| AcpAwait.Client.AwaitResponse | crates/tod-agent/src/cursor_acp.rs:1317-1375 | what the loop reports, when, and after which notifications: the timeout comes after `idle` of silence, a cancel within one poll or one notification |
| AcpAwait.OutcomeIsDetermined | crates/tod-agent/src/cursor_acp.rs:1317-1375 | a wait nobody cancels has one outcome, at one time |
| AcpAwait.BusyAgentIsWaitedFor | crates/tod-agent/src/cursor_acp.rs:1310-1316 | an agent that keeps reporting is waited for, however long it takes in all |
| AcpWorker.ConversationWorker.RunTurn | crates/tod-agent/src/cursor_acp.rs:244-324 | a turn connects when there is no live session, prompts, and lets the process go when it fails |
| AcpWorker.FailureEndsConnection | crates/tod-agent/src/cursor_acp.rs:244-252 | a connection is live after a turn exactly when the turn succeeded |
| AcpDiscipline.WorkerIsPaired | crates/tod-agent/src/cursor_acp.rs:194-253 | whatever turns, releases and replacements a worker has, and wherever its connects and prompts fail, the run of its connections is disciplined: its responses are paired, and between events a connection is there, with nothing outstanding, exactly when the worker holds a live session |
| AcpDiscipline.WorkerIsARun | crates/tod-agent/src/cursor_acp.rs:194-253 | and every worker has such runs |
| AcpWorker.ConversationWorker.Release | crates/tod-agent/src/cursor_acp.rs:213-224 | an idle worker kills the process of a live session and keeps the session's id |
| AcpWorker.ConversationWorker.Successor | crates/tod-agent/src/cursor_acp.rs:627-636 | a worker that takes over begins with the session the last one reached, else with the one given |
| AcpWorker.OneSession | crates/tod-agent/src/cursor_acp.rs:277-281 | in every run `session/new` succeeds at most once, each later attempt resumes exactly the session known, and every prompt goes to it |
| AcpWorker.SessionNeverChanges | crates/tod-agent/src/cursor_acp.rs:306-307 | the session id, once there is one, never changes |
| AcpWorker.ResumedStaysResumed | crates/tod-agent/src/cursor_acp.rs:277-281 | a worker that began with a session to resume makes none, and resumes no other |
| AcpWorker.OneProcess | crates/tod-agent/src/cursor_acp.rs:2205-2208 | after each event at most one process runs; a new one is spawned beside another exactly when a failed connect left one behind |
| AcpWorker.IdleFreesUnlessLeft | crates/tod-agent/src/cursor_acp.rs:213-224 | an idle timeout leaves no process exactly when no failed connect left one behind |
| AcpWorker.CancelAlwaysFrees | crates/tod-agent/src/cursor_acp.rs:778-791 | in every run a cancel and a replacement leave no process even so, and keep the session to be resumed; a stop lets go of what an idle timeout does |
| AcpWorker.FailedConnectOrphansSession | crates/tod-agent/src/cursor_acp.rs:2262-2297 | in any run that knows no session, a connect that fails after `session/new` was answered is followed by one that asks for another, and that one is kept |
| AcpWorker.OrphanIsNeverResumed | crates/tod-agent/src/cursor_acp.rs:277-281 | in every run, a session made by a connect that failed is resumed or prompted only if it is the one kept |
| ReplyStream.Stream.PushText | crates/tod-agent/src/reply.rs:38-56 | streamed text joins the last part of its kind, or starts one |
| ReplyStream.Stream.PushTool | crates/tod-agent/src/reply.rs:60-84 | a tool call seen before changes in place, keeping what an empty field had; another is added |
| ReplyStream.StreamIsWellShaped | crates/tod-agent/src/reply.rs:38-84 | at every update: no empty text part, no two neighbours of one text kind, one part per tool id, and the message parts are the end of the turn's text |
| ReplyStream.PartsAreTheText | crates/tod-agent/src/cursor_acp.rs:618-626 | the turn's text is what the provider's clears took, then the parts: they are equal exactly when the clears took none |
| ReplyStream.PartsAreWhatCame | crates/tod-agent/src/reply.rs:38-84 | character by character, the parts are what came since the last clear, in order: text of both kinds and new calls at the end, and a known call renewed where it stands |
| ReplyStream.UpdatesKeepOrder | crates/tod-agent/src/cursor_acp.rs:1377-1416 | an update removes and reorders nothing, and changes at most one part |
| ReplyStream.ToolShowsLatest | crates/tod-agent/src/reply.rs:60-84 | the part of a tool call shows the latest title and the latest status that were not empty |
| BatchLexer.Tokenize | crates/tod-cli/src/batch.rs:205-261 | the character loop computes the lexing function |
| BatchGrammar.LineReads | crates/tod-cli/src/batch.rs:205-261 | words written in any mix of bare text, both quotes and every escape, with any whitespace between them, are read as their texts, with heredoc marks only where unquoted |
| BatchGrammar.OpenLineIsRefused | crates/tod-cli/src/batch.rs:219-248 | a quote that nothing closes, also one whose last character is a backslash, refuses the line, by its kind |
| BatchGrammar.EveryLineIsWritten | crates/tod-cli/src/batch.rs:205-261 | every line is written so: a line is refused exactly when a quote in it is never closed |
| BatchGrammar.QuotingIsUndone | crates/tod-cli/src/batch.rs:219-239 | quoting is undone for every list of strings |
| BatchParser.ParseScript | crates/tod-cli/src/batch.rs:117-189 | the line loop computes the parsing function |
| BatchParser.SkippedExactly | crates/tod-cli/src/batch.rs:124-128 | the lines skipped are those with nothing but whitespace, at all or before a `#` |
| BatchParser.AcceptedScriptIsSound | crates/tod-cli/src/batch.rs:168-182 | every item of an accepted script has a valid binding, an allowed noun, no `-`, only variables an earlier line binds, and line numbers increase |
| BatchPrinter.ParseUndoesPrint | crates/tod-cli/src/batch.rs:117-189 | parsing a printed list, in any quotes, with blank lines, comments and indents anywhere, gives its bindings, tokens and lines exactly when the grammar admits the list |
| BatchPrinter.OnlyComments | crates/tod-cli/src/batch.rs:126-128 | a script of blank lines and comments has no commands |
| BatchProblems.WrongArgumentsAreTold | crates/tod-cli/src/batch.rs:165-181 | after any admitted commands: a refused noun is told first, then a `-`, then the first variable that nothing binds, at the line of the command |
| BatchProblems.WrongHeadIsTold | crates/tod-cli/src/batch.rs:133-147 | a binding with a bad name, one without a command, and a `=` inside the first word are told, at their line |
| BatchProblems.OpenQuoteIsTold | crates/tod-cli/src/batch.rs:130 | a quote that nothing closes is told, at its line |
| BatchProblems.OpenHeredocIsTold | crates/tod-cli/src/batch.rs:150-158 | the first heredoc that no line closes is told by its tag, at the line of its command |
| BatchPrinter.PrintedLinesIncrease | crates/tod-cli/src/batch.rs:123 | the line numbers of what was printed strictly increase |
| BatchRun.Substitute | crates/tod-cli/src/batch.rs:290-303 | the loop over a line's tokens puts in the variables, and stops at the first one missing |
| BatchRun.Execute | crates/tod-cli/src/batch.rs:282-329 | the report and the calls of the loop are those of the run |
| BatchRun.EveryLineHasOneOutcome | crates/tod-cli/src/batch.rs:282-329 | one outcome per item in order, and the calls are exactly the unskipped lines with the latest values produced |
| BatchRun.OutcomeTellsReply | crates/tod-cli/src/batch.rs:308-326 | the outcome of a line that is not skipped is what its command replied: its error, its output, and for a binding exactly what the first line of the output binds, or that it binds nothing |
| BatchRun.BindingIs | crates/tod-cli/src/batch.rs:332-340 | a first line binds the string under `slug`, or without one under `id`, when it is JSON, and its last word otherwise |
| BatchRun.AcknowledgedIsBound | crates/tod-cli/src/batch.rs:339 | a line that ends in a word binds that word, whatever is printed below it |
| BatchRun.SkippedExactlyWhenMissing | crates/tod-cli/src/batch.rs:292-307 | a line is skipped for a name exactly when that is its first variable no earlier line gave a value |
| BatchRun.SkipsAreExplained | crates/tod-cli/src/batch.rs:176-182 | in an accepted script, exactly when besides an earlier line binds the name, and none that does produced a value |
| BatchRun.CountsMatchCalls | crates/tod-cli/src/batch.rs:368-385 | applied, failed and skipped add up to the items, and the calls to the first two |
| SecretMask.MaskText | crates/tod-cli/src/secrets.rs:313-330 | the scan computes the mask |
| SecretMask.SortLongestFirst | crates/tod-cli/src/secrets.rs:314-315 | the secrets, permuted, none before a longer one |
| SecretMask.MaskIgnoresOrder | crates/tod-cli/src/secrets.rs:313-330 | permuting or repeating the secrets changes nothing |
| SecretMask.MaskIsLeftmostLongest | crates/tod-cli/src/secrets.rs:311-330 | any way to cut the text into bytes kept and secrets hidden, each the longest at the leftmost place, shows what the mask gives |
| SecretMask.EveryTextIsCutUp | crates/tod-cli/src/secrets.rs:313-330 | and there is such a way for every text |
| SecretMask.CopyMasked | crates/tod-cli/src/secrets.rs:294-309 | the line loop writes the masked lines, up to the first error |
| SecretMask.StreamRefinesMask | crates/tod-cli/src/secrets.rs:291-309 | streaming is the mask of the whole text, for every text, exactly when no secret has a newline before its last byte |
| SecretMask.StreamMissesSecretAcrossLines | crates/tod-cli/src/secrets.rs:297-303 | whatever else is stored, a secret with one comes out of the stream as something other than its mask |
| MaskCompleteness.StreamShowsSecret | crates/tod-cli/src/secrets.rs:297-303 | stored alone, it comes out whole |
| MaskCompleteness.SecretsAreHidden | crates/tod-cli/src/secrets.rs:313-330 | no secret the mask cannot spell occurs anywhere in the masked text, seams included, for every list of secrets |
| MaskCompleteness.OneSecretIsHidden | crates/tod-cli/src/secrets.rs:313-330 | a single secret never occurs, for every text, exactly when the mask cannot spell it |
| MaskCompleteness.LeadingStarShows | crates/tod-cli/src/secrets.rs:319-325 | a text in which a secret that starts with `*` shows |
| MaskCompleteness.TrailingStarShows | crates/tod-cli/src/secrets.rs:319-325 | a text in which one that ends with `*` shows |
| MaskCompleteness.TripleStarShows | crates/tod-cli/src/secrets.rs:319-325 | a text in which one that holds `***` shows |
| Usage.TokenUsage.Add | crates/tod-agent/src/usage.rs:117-155 | adding a session's usage in place gives the sum of the two |
| Usage.TokenUsage.ApplyCostStates | crates/tod-agent/src/usage.rs:225-246 | the two loops give the records kept, added in the order of their processes |
| Usage.NothingIsNeutral | crates/tod-agent/src/usage.rs:117-155 | a session that reported nothing changes nothing, on either side |
| Usage.SessionsAddUp | crates/tod-agent/src/usage.rs:117-155 | the sum of any sessions, field by field: counts added up in all and for each model, the context, models and effort last reported, durations and lines of those that report them, and the costs in the currency first reported |
| Usage.PlusIsAssociativeExactly | crates/tod-agent/src/usage.rs:130-136 | sessions can be grouped in any way exactly when their currencies do not interleave |
| Usage.KeptIsLastMost | crates/tod-agent/src/usage.rs:226-236 | each process keeps the last of its records that show its most, from which its duration and lines come |
| Usage.KeptAreAdded | crates/tod-agent/src/usage.rs:237-246 | the records change nothing but cost, duration and lines, and the last three are added up over the records kept |
| Usage.SwapKeepsUsage | crates/tod-agent/src/usage.rs:225-246 | swapping neighbouring records of different processes changes nothing |
| Usage.CostIsSumOfMost | crates/tod-agent/src/usage.rs:225-246 | in one currency the cost added is the sum over processes of the most each shows, and there is none exactly when that is zero and there was none |
| ActorJournal.KeysTellKindsApart | crates/tod-agentd/src/actor_journey.rs:32-72 | two actors have one key exactly when they are of one kind |
| ActorJournal.KeysAre | crates/tod-agentd/src/actor_journey.rs:32-72 | the key of each kind, word for word |
| ActorJournal.ActorTracker.Observe | crates/tod-agentd/src/actor_journey.rs:107-127 | the first look tells nothing; each later one exactly the nodes whose key changed, sorted, from their last key |
| ActorJournal.TellsOneThing | crates/tod-agentd/src/actor_journey.rs:125 | the changes and their order are determined |
| ActorJournal.ChangesAreReal | crates/tod-agentd/src/actor_journey.rs:112-124 | no change is from a key to itself, none is told twice, and `from` is the key before, or empty for a node that was not there |
| ActorJournal.JournalReplays | crates/tod-agentd/src/actor_journey.rs:107-127 | the changes of any sequence of looks, applied to the first keys and cut down to the nodes present, give the last keys |
| OutlineTree.GroupChildren | crates/tod-cli/src/node.rs:251-260 | the children of each parent, by ordinal and then by id |
| OutlineTree.SortedIsOrdered | crates/tod-cli/src/node.rs:258-260 | sorting orders the children, by ordinal and those of equal ordinal by id, and loses none |
| OutlineTree.Tree | crates/tod-cli/src/node.rs:261-281 | the stack loop ends and lists the recursive preorder cut at the depth limit |
| OutlineTree.ListsWhatIsBelow | crates/tod-cli/src/node.rs:264-280 | a line is listed exactly when its node is that far below through nodes that exist and within the limit, and it counts as hidden the entries under its node exactly on the limit, and none elsewhere |
| OutlineTree.ListsEachOnce | crates/tod-cli/src/node.rs:264-280 | on a forest no node is listed twice |
| Versions.VersionLess | crates/tod-agent/src/claude_adapter.rs:401-424 | the padded comparison is the comparison of the numbers extended with zeros, then of the prerelease marks |
| Versions.LessIsStrictWeakOrder | crates/tod-agent/src/claude_adapter.rs:399-424 | on all texts it is a strict weak order, and ties exactly same numbers with same prerelease mark |
| Versions.PrintedIsRead | crates/tod-agent/src/claude_adapter.rs:402-413 | dotted numbers are read back whatever the suffix, one above 64 bits as 0, as a prerelease exactly when the suffix has a dash |
| Versions.SurroundingsAreDropped | crates/tod-agent/src/claude_adapter.rs:403 | whitespace around a version and any `v`s in front of it are not part of it |
| Versions.OnlyTheDashCounts | crates/tod-agent/src/claude_adapter.rs:404-407 | prereleases of one version tie, and build metadata makes a release older than itself exactly when it holds a dash |
| SemVer.PrecedenceIsTotal | crates/tod-agent/src/claude_adapter.rs:399-400 | the precedence of item 11 of Semantic Versioning 2.0.0: of two versions that differ in more than build metadata exactly one precedes the other |
| SemVer.OlderIsCoarser | crates/tod-agent/src/claude_adapter.rs:401-424 | on well-read versions, older is precedence, except between two prereleases of one version, which tie |
| SemVer.AgreesExactly | crates/tod-agent/src/claude_adapter.rs:401-424 | where the numbers fit 64 bits, older and precedence differ exactly on pairs of one version: two prereleases in order, a prerelease and a misread release, a misread release and another |
| SemVer.CoarserExactly | crates/tod-agent/src/claude_adapter.rs:404-410 | a version compares with all well-read ones as precedence has it, but for those ties, exactly when it has no dash in the build metadata of a release and no number above 64 bits |

## Left out

- Sockets, processes, files, the stores and JSON: what they give is a step of a run or an argument.
- The texts of error messages, echoes, reports and log lines: outcomes are tags, with the name or tag a message is about.
- Real time, 64-bit overflow and floating point: clocks and counters are naturals, and a cost is an input in millionths. `Versions` keeps the 64-bit bound of a number.
- The Subscribe command and requests without an id, which the daemon does not remember: `AnswerMemory.Answer` covers the latter for one request, the runs cover requests with an id.
- RequestProtocol.AtMostOnce: requires that no look-up overlaps an answer still being executed under its id, comes after 512 other answers, or is at a daemon after the one that executed it; outside that it is false, as `LimitsAreExact` shows.
- DaemonStart.OkMeansOwnBuild: requires that no launcher abandons a child that may still serve or misses a daemon that serves; outside that it is false, as `CarelessnessGivesForeign` shows. A daemon that drains is one that does not answer.
- DaemonReplace.ReplacementsIncrease: requires that no step disturbs the order; each that does is shown to matter.
- The lock probe of `wait_gone`, which holds the daemon lock for an instant and could turn away a daemon that tries it just then.
- RunnerLease.OneLiveRun: requires that the reconciler acts on an old plan only while the slot is not in use, and takes it that a run sends its last event once, and that a spawn returns before the first event arrives.
- RunnerLease: one node's slot; the slots of different nodes share no state but the map, which `Runners.Table` keeps.
- Resuming saved runs, draining, publishing to subscribers, deferrals, the sweep of waits and the saved copy of an outcome.
- IdleExit.IdleExitIsSound: requires that the last connection to store its clock hides no end of less than `idle` ago, as `LateStampEndsEarly` shows it must, and counts a connection as accepted when it is counted.
- AcpPairing.ResponsesArePaired: requires that the agent answers each request once; the ids of other connections cannot come, each connection having a channel of its own.
- The permission dialog, `authenticate` and config options of a connect: further requests sent and awaited the same way.
- Cancel flags set between turns, which the next turn clears.
- AcpWorker.OneProcess: takes the process of a worker that is replaced to be killed with its slot.
- MaskCompleteness.SecretsAreHidden: one way only for a list of several secrets, since one secret may be hidden by another that covers it; for a single secret `OneSecretIsHidden` is exact.
- `fill_from_live`, and reading Anthropic and Claude records: field by field.
- The words of a change of actor are one string, and `Request` does not carry its count.
- Obligation and plan step counts of an outline line, and the rendering of the listing.
- OutlineTree.Tree: without a depth limit, requires that following children ends; the loop in the source would not end on a cycle either.
- Most nouns of `tod-cli`, routing, launching in containers, pruning builds, and the mock agent.
