# Odyshell: Sessions, Commands and their output, verified

Odyshell lets a Server drive Sessions and Commands on a Client over a connection that drops,
while the Client may crash and restart. This project models the protocol, the authority on
both ends and the data structures they rest on, and proves what they are for.

**Client output and execution** (`Wire`, `Journal`, `ClientOutput`, `ClientRuntime`,
`ServerCommands`, `OutputProtocol`, and the proofs in `OutputLogs`, `JournalFading`,
`BufferBounds`, `ClientProgress`, `ClientAnswers`, `ClientTracking`, `HaltedTracking`,
`OutputHonesty`, `OutputTaken`, `OutputCounts`, `LateOutput`, `FlagsHold`, `ExecutionOnce`,
`OutcomeFidelity`, `WireOrder`, `MessageHandling`, `OutputBeyondWire`). The Client's state is the journal table, the three in-memory sets, the
bounded message buffer, one connection and the `emit` closures that are still reachable; the
Server's is a row for each Command with its chunks; the connections are logs of which the
Server handles a growing prefix, so a connection may be cut anywhere and its tail may still be
handled after the Client has moved on. One invariant over every interleaving of process
output, evictions, sends that fail, disconnections, crashes, reconnections, duplicate starts,
cancellations, unproved terminations, output that arrives after its execution has ended,
Server handling and acknowledgements gives the main results: what the Server holds of a
Command it has seen end, and when that is all its process wrote; a Command runs at most once;
its result survives until the Server has it and is what the Server learns; lost output stays
flagged until the acknowledgement; messages keep their order. The other half is that nothing is
given up without need: output that fits is taken whole and unflagged, a message is refused only
for want of room, a usable connection carries what is delivered, and every start, cancellation,
end and message is answered as the row and the Command demand. The same functions specify classes
with the source's fields and loops.

**Two results are findings.** A Command that ended and is not marked truncated should have all
the output its process wrote. `LateOutput.OutputIsHonest` gives the exact condition, which has
two parts the source does not mention.

- The message schema rejects sequence numbers above 1,000,000
  (`packages/protocol/src/session.ts:367`), while 1 MiB written byte by byte needs up to
  1,048,576. Output is complete only if it took no more than 1,000,001 chunks;
  `OutputBeyondWire.HonestyFailsBeyondWire` builds a reachable state beyond that.
- When termination cannot be confirmed, the Client journals and sends `execution_unknown`
  without the truncation flag while the process, and its pipes, may still be there
  (`apps/client/src/shell-executor.ts:82-83`, `apps/client/src/index.ts:906-929`); a crash
  before the first chunk leaves the same behind (`apps/client/src/journal.ts:63-76`). What such
  a process still writes is refused or lost. Output is complete only if nothing was written
  after the end. No other status has this gap, which `LateOutput.UnprovedTerminationLosesOutput`
  and `LateOutput.CrashLosesOutput` show to be reachable.

The schema also rejects completions whose error text is longer than 2048 characters, which the
Client does not shorten; the model keeps that check and the one on sequence numbers.

**Client authority** (`Authority`, `AuthorityBounds`, `AuthorityTurns`, `AuthorityRuntime`):
opening, starting and closing as a step relation whose steps are the turns between two
`await`s, with the message queue that holds back later messages while a close or a cancellation
is awaited, and expiry timers that do not wait. Ceilings of Local Policy, deadlines that no
retry moves, and the order of closing hold in every reachable state; and what Local Policy and
the contract allow is opened or started, and lasts as long as they say. The close of a Session
the Client no longer knows is safe only because messages are handled one at a time, which the
model keeps.

**Server lifecycle** (`SessionDatabase`, `Supervision`, `Idempotency`): the transactions on
Session and Command rows, what every run of them keeps, who may use a Session and until
when, and concurrent creation with idempotency keys.

**Reconnection** (`Reconnect`, `ReplayDelivery`, `AuthorityProgress`, `ReplayInterleavings`,
`ReplayChoices`, `ReplayReopens`): the replayed message list, its order and content, and what
delivering it twice at one instant does to a Client in any reachable state, over every
interleaving of its queue with the closes and cancellations that the list begins or that are
already under way. The second delivery never executes a Command. It may open a Session.
`ReplayDelivery.Steady` is a condition on the state before the first delivery, and
`ReplayChoices.SteadyExactly` proves it exact: it holds if and only if no pair of deliveries
opens a Session the second time. `ReplayReopens` builds reachable runs for the three ways in
which it fails: a slot freed by a close of the list (`FreedRoomReopens`), a slot freed by a
close that an expiry timer had begun before (`TimerFreesRoom`), and a remembered close
forgotten over one of the list (`ForgottenSessionReopens`). A Session whose close is under way
takes room and need not survive, unless an expiry timer began or joined that close and one of
its cancellations has been refused: then it keeps its room until its end stops the Client. No
timer begins a close during the two deliveries. Nothing is claimed about closes: a
`session.close` delivered again, after the first one has ended, begins a further close.

**Queue, limiter and quoting** (`LifecycleQueue`, `RateWindows`, `RateLimiter`,
`ShellQuoting`): promise chaining with its racy-looking clean-up; the heap-backed rate
limiter against the plain map it must agree with, and its bounds over whole runs; and the
enrollment command against a reader of shell words.

Identifiers are numbers, hashes and fingerprints stand for the values they hash, payloads
are byte sequences, and each SQL transaction is one function of the tables. Clock readings,
randomness, process output, process ends and the moment a send starts to fail are chosen by
the environment.

## Model

| member | source | states |
|---|---|---|
| LateOutput.OutputIsHonest | apps/client/src/index.ts:493-538 | In every reachable state a Command the Server holds as ended and not truncated stores the chunks of its only execution in order up to the wire's sequence limit; these carry every byte its process ever wrote if and only if the execution took no more than 1,000,001 chunks and the process wrote nothing after its execution had ended; and only a Command that ended as unknown can have a process that did |
| OutputBeyondWire.HonestyFailsBeyondWire | packages/protocol/src/session.ts:364-370 | A reachable state in which an ended, not truncated Command lacks output: the schema refuses sequence numbers above 1,000,000 |
| LateOutput.UnprovedTerminationLosesOutput | apps/client/src/index.ts:906-943 | A reachable state in which a Command is reported as unknown, not truncated, because its termination could not be proved, and lacks what its process wrote afterwards |
| LateOutput.CrashLosesOutput | apps/client/src/journal.ts:63-86 | A reachable state of the same kind after a crash before the first chunk |
| OutputHonesty.ExecutionIsHonest | apps/client/src/index.ts:820-845 | The same for what was produced during the execution, whatever its status: stored and produced bytes agree if and only if it took no more than 1,000,001 chunks |
| OutputHonesty.OutputIsNeverRefused | apps/server/src/session-database.ts:825-875 | While a Command is active no well-formed output a connection still carries exceeds the Server's byte ceiling or repeats a stored sequence number |
| OutputHonesty.DeletionFollowsDecision | apps/server/src/index.ts:145-162 | An acknowledgement that may reach the Client is always of a Command whose row on the Server has ended, so a journal row is only deleted after that |
| FlagsHold.DiscardsStayFlagged | apps/client/src/index.ts:981-994 | From the step that loses output of a Command until its acknowledgement, over every run and whatever the Server has decided: the journal row is flagged, no buffered completion and no message put on this or any later connection claims complete output, and neither will the completion the Client would send now or when the execution ends |
| FlagsHold.LossIsTold | apps/client/src/index.ts:507-524 | The step that first flags a Command, by a discard, the output limit, a lost connection or a crash, flags it in the journal, in the buffer and for the execution still going on |
| FlagsHold.StepHolds | apps/client/src/index.ts:981-1000 | Every step but the acknowledgement keeps that and sends nothing against it |
| OutputHonesty.BufferStaysBounded | apps/client/src/index.ts:236-280 | In every reachable state the buffer is within its message and byte caps, and empty behind an authenticated open connection |
| OutputCounts.OutputIsTaken | apps/client/src/index.ts:820-845 | In every reachable state output of an execution that nothing is lost of is taken as far as the Command's limit allows, if that fits the connection or the buffer: the bytes handed out grow by exactly these, behind everything sent or waiting, and nothing is flagged unless there was more or the limit had been reached, and then only this Command |
| OutputCounts.OutputWithinLimit | apps/client/src/index.ts:773-776 | In every reachable state and every lifetime of a row an execution's counters are what it has handed out, within the smaller of Local Policy's limit and 1 MiB |
| OutputTaken.EmitTakes | apps/client/src/index.ts:820-845 | The same of one call of `emit` in any state: data that fits is handed out whole, up to the limit, in chunks |
| OutputTaken.LateIsTaken | apps/client/src/index.ts:820-845 | The same of output that arrives after its execution has ended |
| OutputTaken.DeliversExactly | apps/client/src/index.ts:493-505 | When a delivery sends, when it buffers and when it refuses |
| OutputTaken.FlushesExactly | apps/client/src/index.ts:526-538 | How much of what waits a flush sends, and when the connection counts as lost |
| OutputTaken.AuthenticationDelivers | apps/client/src/index.ts:582-587 | An authentication on a connection that takes enough messages sends everything that waited and then every stored result |
| BufferBounds.EnqueuesExactly | apps/client/src/index.ts:246-280 | When the buffer takes a message, and that one with room is appended without a flag |
| BufferBounds.MarkedExactly | apps/client/src/index.ts:282-296 | Marking flags the buffered completions of exactly the given Commands, and gives one an error if it has none; no other message changes |
| ClientAnswers.StartAnswers | apps/client/src/index.ts:750-860 | What each of the four kinds of start is answered, journals and sets running |
| ClientAnswers.LaunchedExactly | apps/client/src/index.ts:761-865 | A start reaches the executor exactly when the Command is new, admitted and may write output, which is when it begins to run |
| ClientAnswers.CancelAnswers | apps/client/src/index.ts:956-979 | What each kind of cancellation is answered and journals |
| ClientAnswers.FinishAnswers | apps/client/src/index.ts:892-943 | What the end of an execution answers and journals, and when it stops the Client |
| ClientAnswers.ShutdownStops | apps/client/src/index.ts:457-480 | A shutdown counts exactly the unconfirmed output as lost and gives up the connection for good |
| ClientAnswers.CloseForgets | apps/client/src/index.ts:415-425 | A lost connection counts exactly the unconfirmed output as lost and leaves what waits and what runs |
| MessageHandling.MessageIsHandled | apps/server/src/index.ts:99-163 | A message makes its statement on the row of the one Command it concerns and changes nothing else; exactly the completions of known Commands that the schema admits are acknowledged, repeated ones included |
| LateOutput.LateStep | apps/client/src/shell-executor.ts:82-83 | Every step keeps that late output comes only from executions left behind, that these are journaled as unknown, and that the Server learns of them as unknown |
| OutputHonesty.StepKeepsInvariant | apps/client/src/index.ts:415-437 | Every step of Client, Server and connections keeps the invariant that ties journal, sets, buffer, connections and stored chunks together |
| OutputHonesty.DecidedStep | apps/server/src/session-database.ts:906-924 | No step changes the Server's row of a Command that has ended |
| OutputHonesty.ClaimFindsAll | apps/client/src/index.ts:820-845 | When the Server handles a claim of complete output it has handled every chunk of the Command, and these carry all that its execution produced |
| OutputHonesty.ServerKeeps | apps/server/src/session-database.ts:848-873 | Handling a message keeps the stored chunks equal to the handled outputs, as emitted, with matching byte counts |
| OutputHonesty.DisconnectKeepsTracks | apps/client/src/index.ts:415-425 | Losing the connection, or the process, keeps what is tracked of every undecided Command |
| ClientTracking.EmitKeeps | apps/client/src/index.ts:820-845 | Emitting output extends the accepted chunks and the produced bytes alike, or marks the Command truncated |
| ClientTracking.AuthenticatedKeeps | apps/client/src/index.ts:582-587 | Flushing the buffer and resending results never makes a false claim of complete output |
| ClientTracking.FinishKeeps | apps/client/src/index.ts:892-943 | The result built when an execution ends is truncated exactly when the journal row or the in-memory set says so, and unless it is everything produced was accepted for sending; building and sending it keeps the tracking |
| ClientTracking.StartKeeps | apps/client/src/index.ts:750-787 | A start, first or repeated, keeps what is tracked of its Command |
| ClientTracking.CancelKeeps | apps/client/src/index.ts:956-979 | So does a cancellation, before, during or after execution |
| ClientTracking.RestartKeeps | apps/client/src/journal.ts:46-91 | A crash followed by recovery keeps it: unconfirmed output counts as lost |
| HaltedTracking.EmitHalts | apps/client/src/index.ts:820-845 | On a Client that has stopped, output of an execution still going on extends the accepted chunks and the produced bytes alike, or marks the Command truncated |
| HaltedTracking.LateHalts | apps/client/src/index.ts:820-845 | Output that arrives after its execution has ended changes nothing the Server can still be told about the execution |
| HaltedTracking.RestartTracks | apps/client/src/journal.ts:46-91 | The next start of a Client that had stopped tracks every Command again |
| ClientProgress.StepProgress | apps/client/src/journal.ts:93-150 | No step loses a row's outcome, adds a launch to a finished row or removes a row other than by its acknowledgement |
| ExecutionOnce.AtMostOnce | apps/client/src/index.ts:750-759 | In each lifetime of a journal row the executor is called at most once across duplicate starts, reconnections and crashes, and never after a cancellation that came first |
| ExecutionOnce.ResultSurvives | apps/client/src/journal.ts:120-173 | Over every run without its acknowledgement a completed row stays, with its outcome, at most gaining the truncation flag |
| ExecutionOnce.TableIsSound | apps/client/src/journal.ts:93-173 | In every reachable state the journal lists every row once, and a row has a result, with its own flag, exactly when it is completed |
| ExecutionOnce.ResultsAreResent | apps/client/src/index.ts:996-1000 | In every reachable state, after an authentication that leaves the connection usable, the result of every completed row has been sent again on it |
| OutcomeFidelity.ServerLearnsJournaledEnd | apps/server/src/index.ts:145-162 | In every reachable state the message that decides a Command on the Server gives it the status and exit code of the Client's journal row, which is still there |
| OutcomeFidelity.CancelledBeforeStart | apps/client/src/index.ts:962-979 | A cancellation that arrives first is journaled as such and no later start reaches the executor while the row is there |
| OutcomeFidelity.StepTellsTruth | apps/client/src/index.ts:981-1000 | Every step keeps all completions sent or buffered equal, in status and exit code, to the journal |
| WireOrder.WireKeepsOrder | apps/client/src/index.ts:493-538 | In every reachable state what all connections carried, in order, followed by the buffer, is a subsequence of what `deliver` accepted, apart from raised truncation flags |
| WireOrder.DiscardsOneMessage | apps/client/src/index.ts:246-280 | The buffer leaves out nothing; or the output itself, which it rejects if and only if its bytes or one more message have no room; or exactly one message to make room for one that is not output: the oldest output, or the oldest message when there is none |
| WireOrder.DiscardsAreFlagged | apps/client/src/index.ts:246-296 | The Command of an output that is left out is flagged in memory and in the journal, and no completion of it in the buffer claims complete output |
| BufferBounds.StepOrderly | apps/client/src/index.ts:526-538 | Every step keeps the buffer within its caps and empty behind a usable connection |
| JournalFading.EmitFades | apps/client/src/index.ts:820-845 | Emitting output never changes a row's state, outcome or well-formedness: it can only raise the truncation flag or mark output unconfirmed |
| Journal.StatementsKeepTable | apps/client/src/journal.ts:93-173 | Every statement keeps the key index, keeps rows completed exactly when they have a result, and a completed row's flag equal to its result's |
| Journal.TruncationSticks | apps/client/src/journal.ts:137-150 | No run of statements clears a row's truncation flag before it is acknowledged |
| Journal.OutcomeIsDurable | apps/client/src/journal.ts:112-150 | Marking, receiving again and recovering never change a completed row's status or exit code |
| Journal.RecoveryCommutes | apps/client/src/journal.ts:46-91 | Recovery is idempotent, leaves only completed rows, equals marking all unconfirmed rows truncated and then recovering, ends interrupted rows as unknown and keeps the outcome of completed ones |
| Journal.RecoverEachIsRecover | apps/client/src/journal.ts:59-86 | Recovering row by row recovers the whole table and counts the interrupted rows |
| Journal.ResultsAreCompletedRows | apps/client/src/journal.ts:159-169 | The results offered for reconciliation are exactly those of the completed rows, each once |
| Journal.ResultsInRowOrder | apps/client/src/journal.ts:159-169 | They are offered in the order of their rows |
| Journal.AcknowledgedIsNotOffered | apps/client/src/journal.ts:159-173 | After an acknowledgement reconciliation offers every stored result but that one |
| ClientRuntime.CommandJournal.RecoverInterrupted | apps/client/src/journal.ts:46-91 | Afterwards every row is completed: an interrupted one as unknown, with the error that says so, a completed one with its outcome; exactly the rows whose output was truncated or unconfirmed are truncated; the loop returns the number of interrupted rows |
| ClientRuntime.CommandJournal.Receive | apps/client/src/journal.ts:93-104 | A Command gets a new row exactly when there is none; otherwise nothing changes and the answer says whether a result is stored; every other row is kept |
| ClientRuntime.CommandJournal.MarkRunning | apps/client/src/journal.ts:106-110 | From here on a crash ends the Command as unknown, without an exit code; every other row is kept |
| ClientRuntime.CommandJournal.MarkOutputUnconfirmed | apps/client/src/journal.ts:112-118 | From here on a crash flags the Command's output as incomplete; its flag and result, and every other row, are kept |
| ClientRuntime.CommandJournal.MarkOutputTruncated | apps/client/src/journal.ts:137-150 | Row and stored result are truncated with their outcome unchanged, and every other row is kept |
| ClientRuntime.CommandJournal.Complete | apps/client/src/journal.ts:120-135 | The row reports the status and exit code given, truncated if the result or the row was, and no crash changes that outcome; every other row is kept |
| ClientRuntime.CommandJournal.Result | apps/client/src/journal.ts:152-157 | Exactly what reconciliation would offer for the Command, with the row's flag |
| ClientRuntime.CommandJournal.ResultsForReconciliation | apps/client/src/journal.ts:159-169 | The completed rows' results in row order |
| ClientRuntime.CommandJournal.Acknowledge | apps/client/src/journal.ts:171-173 | Reconciliation no longer offers the Command's result and still offers every other one; a row in progress stays |
| ClientRuntime.ClientMessageBuffer.Enqueue | apps/client/src/index.ts:246-280 | An output is taken if and only if the output bytes waiting and its own are within the byte cap and the buffer is below its message cap, any other message always; while there is room the message is appended and nothing else changes, no flag included; a refused output's Command is flagged. The byte count stays the sum over the entries |
| ClientRuntime.ClientMessageBuffer.MarkOutputTruncated | apps/client/src/index.ts:282-296 | Every buffered completion of the Command becomes its truncated form, and every other message stays as it is |
| ClientRuntime.ClientMessageBuffer.Peek | apps/client/src/index.ts:298-300 | The first message |
| ClientRuntime.ClientMessageBuffer.Shift | apps/client/src/index.ts:302-307 | Removes and returns the first message, keeping the byte count exact |
| ClientRuntime.Client.Deliver | apps/client/src/index.ts:493-505 | On a usable connection the message is sent and nothing waits; otherwise it is buffered, unless it is an output for which there is no room, which is refused and flagged; what is accepted is exactly what is sent or buffered |
| ClientRuntime.Client.MarkCommandOutputTruncated | apps/client/src/index.ts:507-512 | Marks journal, buffer and both sets: the Command is known to be truncated and no longer merely unconfirmed |
| ClientRuntime.Client.MarkUnconfirmedOutputTruncated | apps/client/src/index.ts:520-524 | The loop marks exactly the unconfirmed Commands and leaves none unconfirmed |
| ClientRuntime.Client.FlushBufferedMessages | apps/client/src/index.ts:526-538 | Sends what waits, oldest first, as far as the connection takes it, keeps the rest waiting, and counts the connection as lost only if a send failed |
| ClientRuntime.Client.SendCompletion | apps/client/src/index.ts:981-994 | A completion is never refused: exactly one message is accepted, with the result's status and exit code, truncated if and only if the result is or output of the Command is known to be lost, with the result's error, or one of its own if it is truncated and has none |
| ClientRuntime.Client.ReconcileJournalResults | apps/client/src/index.ts:996-1000 | Resends every stored result |
| ClientRuntime.Client.HandleAuthenticated | apps/client/src/index.ts:582-587 | If the connection takes enough messages everything that waited is sent, then the completion of every stored result, and nothing waits any more |
| ClientRuntime.Client.Emit | apps/client/src/index.ts:820-845 | The loop over chunks leaves the specified state, including the truncation at the output limit |
| ClientRuntime.Client.CompleteAndSend | apps/client/src/index.ts:903-929 | The outcome is journaled, with its error, and exactly one completion that reports it is accepted |
| ClientRuntime.Client.FinishCommand | apps/client/src/index.ts:892-943 | The execution is over; its final result, flagged if it or its Command is, is journaled and reported; an unproved termination, and nothing else, stops the Client, gives up the connection and leaves the `emit` closure behind |
| ClientRuntime.Client.EmitLate | apps/client/src/index.ts:820-845 | Output after the end runs through the same closure; it touches no execution and only raises flags in the journal |
| ClientRuntime.Client.BeginTerminalShutdown | apps/client/src/index.ts:457-471 | Unconfirmed output counts as lost, the connection is given up and no other one is opened |
| ClientRuntime.Client.StartCommand | apps/client/src/index.ts:750-860 | A Command that has ended is answered with exactly one completion that reports its stored result; one in progress changes nothing; a new one that is admitted is reported as started and runs, having written nothing; a new one that is refused has failed, journaled and reported with the reason |
| ClientRuntime.Client.CancelCommand | apps/client/src/index.ts:956-979 | Leaves a Command that executes; for any other exactly one completion is accepted: the stored result for one that has ended, cancelled before it started for an unknown one, unknown for one whose execution is gone; the last two are journaled as reported |
| ClientRuntime.Client.HandleAcknowledged | apps/client/src/index.ts:623-628 | The Command's result is reconciled no more and nothing is remembered as lost of it; all other results are still offered and reported as before |
| ClientRuntime.Client.HandleClose | apps/client/src/index.ts:415-425 | Unconfirmed output counts as lost, the connection is forgotten, what waits goes on waiting and executions go on running |
| ServerCommands.CommandProgress | apps/server/src/session-database.ts:807-951 | Over every run of statements a Command's rank never falls, an ended row never changes, and its end time is set exactly when it has ended |
| ServerCommands.FirstEndWins | apps/server/src/session-database.ts:906-951 | Over every run the first completion decides a Command: status, exit code, flag, time and its error up to 2,048 characters stay |
| ServerCommands.UndecidedRun | apps/server/src/session-database.ts:807-823 | Over every run without a completion a cancellation outranks every start, a waiting Command that was started is running, and no part of the result is set |
| ServerCommands.NewCommandRun | apps/server/src/session-database.ts:567-587 | The same from a new Command, which is queued, without result and output |
| ServerCommands.FirstStartWins | apps/server/src/session-database.ts:807-823 | The first start of a waiting Command sets its start time for ever |
| ServerCommands.FirstChunkWins | apps/server/src/session-database.ts:825-875 | An output is taken exactly while the Command has not ended and the bytes fit, and over every run the chunk stored first under a number stays |
| ServerCommands.OutputAccounting | apps/server/src/session-database.ts:825-875 | With outputs repeated and reordered at will, each byte counter is the number of bytes stored of its own stream, and together they are the bytes stored, which never exceed 1 MiB |
| ServerCommands.InOrderPrefix | apps/server/src/session-database.ts:877-904 | If exactly the first chunks of a list are stored, reading by sequence number gives those |
| Authority.LocalSessionDecision | packages/protocol/src/session.ts:193-215 | A Session is allowed exactly when organization, duration, Session count and Command limit are all within Local Policy, and otherwise denied for the first limit that it does not meet |
| Authority.DeadlineWithinSkew | apps/client/src/index.ts:153-170 | The local deadline leaves what the Server's clock leaves and is within the allowed skew of the contract's instant |
| Authority.TimeoutWithinAuthority | apps/client/src/index.ts:172-191 | The timeout ends within the Session and Local Policy, is the largest such up to the request, and is zero exactly when the request is out of range or the Session has expired |
| Authority.ServerDecisionHoldsOnClient | packages/protocol/src/session.ts:228-248 | The Server allows a Command exactly when its whole timeout fits, and says why otherwise; a Client whose clock leaves as much time grants it in full |
| AuthorityBounds.PolicyCeilings | apps/client/src/index.ts:635-699 | In every reachable state open Sessions, pending Commands of each Session, every deadline and every kill time are within Local Policy |
| AuthorityBounds.OpenRepliesTellTruth | apps/client/src/index.ts:635-699 | An open is confirmed exactly when the Client then holds the Session as asked for and is not closing it, and called closed exactly when the close is remembered |
| AuthorityBounds.DeadlineNeverMoves | apps/client/src/index.ts:643-661 | Over every run, whatever retries arrive, a Session object keeps its contract and its deadline |
| AuthorityBounds.ClosedMeansTerminated | apps/client/src/index.ts:720-748 | When a close reports `session.closed`, every cancellation it issued is confirmed and no Command of the Session is pending |
| AuthorityBounds.NothingStartsWhileClosing | apps/client/src/index.ts:761-787 | While a Session is being closed no step starts a Command of it or opens it again |
| AuthorityBounds.DropTerminates | apps/client/src/index.ts:540-557 | When the Client has dropped its authority nothing is pending and every cancellation has settled |
| AuthorityTurns.OpenedExactly | apps/client/src/index.ts:663-687 | A Session that is not held is opened exactly when the open is for this profile and no remembered close, its times can be read within 30 seconds of skew, time is left and all four limits of Local Policy are met; it then expires when the time its contract leaves is over, and not earlier |
| AuthorityTurns.DeadlinesFollowContracts | apps/client/src/index.ts:153-170 | In every reachable state the deadline of every Session held is within 30 seconds of the instant its contract names |
| AuthorityTurns.AdmittedExactly | apps/client/src/index.ts:761-787 | A Command that is not pending is admitted exactly when it is new, its Session held, not closing, not over and below its number of Commands, and timeout and output within Local Policy; it is killed when its timeout or its Session is over, whichever comes first |
| AuthorityTurns.PendingAre | apps/client/src/index.ts:764-766 | The pending Commands of a Session, counted and cancelled, are exactly those registered for it |
| AuthorityTurns.CloseBegins | apps/client/src/index.ts:720-740 | A close that begins remembers its Session as closed, marks the Session object as closing and asks exactly the pending Commands of the Session to cancel |
| AuthorityTurns.CloseIsReported | apps/client/src/index.ts:733-738 | A close is judged by its cancellations alone, and reported once, exactly when all are confirmed and all its Commands have finished |
| AuthorityTurns.CancelAsks | apps/client/src/index.ts:956-961 | A cancellation asks exactly the pending Command to cancel, once, and holds the queue; of another Command only the row is remembered |
| AuthorityTurns.TimeoutAsks | apps/client/src/index.ts:861-864 | A timeout asks the Command to cancel and holds nothing |
| AuthorityTurns.CancellationSettles | apps/client/src/command-control.ts:46-61 | A cancellation settles once, as the process says, and is always confirmed for a Command that never started |
| AuthorityTurns.EndedCommandIsGone | apps/client/src/index.ts:930-943 | A Command that ends is finished and pending no more, and stops the Client if and only if its cancellation was refused |
| AuthorityTurns.AcknowledgementForgets | apps/client/src/index.ts:623-628 | An acknowledgement forgets the row of a Command that is not pending, and nothing else |
| AuthorityTurns.DropAsksAll | apps/client/src/index.ts:540-552 | Dropping the authority lets go of every Session at once and asks every pending Command to cancel |
| AuthorityTurns.DropForgets | apps/client/src/index.ts:552-557 | Its timers are cleared once every cancellation has settled, and nothing is pending once the Commands have finished |
| AuthorityBounds.StepKeepsInvariant | apps/client/src/index.ts:720-748 | Every turn of opens, starts, closes, cancellations, timers and the shutdown keeps the invariant behind these |
| AuthorityRuntime.PendingCommand.Attach | apps/client/src/command-control.ts:33-38 | Registers the process once, an error the second time |
| AuthorityRuntime.PendingCommand.FailStart | apps/client/src/command-control.ts:40-44 | No process can be registered afterwards, one that already is stays so, the verdict on a cancellation is kept, and a repetition changes nothing |
| AuthorityRuntime.PendingCommand.Cancel | apps/client/src/command-control.ts:46-61 | The cancellation is asked for; a later call shares the first one's outcome, settled or not, and changes nothing |
| AuthorityRuntime.PendingCommand.MarkFinished | apps/client/src/command-control.ts:63-66 | The Command has finished, no process can be registered any more, and the outcome of a cancellation is kept |
| AuthorityRuntime.LocalAuthority.OpenSession | apps/client/src/index.ts:635-699 | Keeps the invariant; the reply says whether the Session is held as asked for or remembered as closed; a Session already held keeps its deadline, no other one changes; any other one is opened exactly when its times can be read within the allowed skew, time is left and all four limits of Local Policy are met, and then expires when the time its contract leaves is over |
| AuthorityRuntime.LocalAuthority.TryOpen | apps/client/src/index.ts:643-697 | The body of the try block opens a Session that is not held exactly under these conditions, with that deadline and contract, and ends with the reply of the specified opening |
| AuthorityRuntime.LocalAuthority.Remember | apps/client/src/index.ts:723-727 | The close is remembered, at most 1,000 are, and at most the oldest is forgotten, only for want of room |
| AuthorityRuntime.LocalAuthority.CancelAll | apps/client/src/index.ts:730-737 | The loop asks exactly the given PendingCommands to cancel |
| AuthorityRuntime.LocalAuthority.CloseSession | apps/client/src/index.ts:720-740 | Joins a close in progress, which only notes whether a timer did, or begins one over every pending Command of the Session |
| AuthorityRuntime.LocalAuthority.HandleClose | apps/client/src/index.ts:613-615 | Keeps the invariant; the queue waits for the close, the Session is closing, and a close that begins here asks every pending Command of the Session to cancel |
| AuthorityRuntime.LocalAuthority.EndClose | apps/client/src/index.ts:742-747 | Keeps the invariant; the close and the Session object it found are gone, no other Session is, the queue goes on, a reported close leaves no Command of the Session pending, and a timer's unproved close stops the Client |
| AuthorityRuntime.LocalAuthority.StartCommand | apps/client/src/index.ts:761-787 | Keeps the invariant; a known Command changes nothing; any other one is admitted exactly when its Session is usable and below its number of Commands and timeout and output are within Local Policy, and is killed when its timeout or its Session is over, whichever comes first |
| SessionDatabase.LifecycleProgress | apps/server/src/session-database.ts:466-527 | Over every run of transactions Session and Command rows keep their status or rise in rank, terminal rows never change, end times are set exactly on them, and whose Session a row is never changes |
| SessionDatabase.SessionStore.DecideSession | apps/server/src/session-database.ts:466-527 | Keeps the lifecycle; exactly a waiting, not overdue Session of the Organization is decided, an approval grants the duration asked for, counted from the decision, a denial cancels; an approval of a Session that is already opening or active changes nothing; an overdue one expires; repeating the call changes nothing |
| SessionDatabase.SessionStore.FinishSession | apps/server/src/session-database.ts:589-649 | Keeps the lifecycle; an owned Session that has not ended is completed with its end time if no Command of it is active, or left to be closed, without an end time, with its active Commands told to stop; one that has ended, one of somebody else and one that cannot be completed yet stay as they are, each with its own answer; no other Session changes |
| SessionDatabase.SessionStore.ExpireSessions | apps/server/src/session-database.ts:953-987 | The sweep and its loop stop exactly the overdue Sessions and return each with its active Commands; a waiting one has expired, an opening or active one is left to be closed, every other one stays |
| SessionDatabase.SessionStore.RevokeSessions | apps/server/src/session-database.ts:989-1044 | The loop revokes exactly the Sessions in scope and returns each with its active Commands |
| Supervision.ApprovalSafety | apps/server/src/sessions.ts:367-406 | On every run a Session that needed approval is opening or active only after exactly one approval; its expiry is that approval plus the duration asked for; approvals and denials are audited at most once, as decided |
| Supervision.OtherIsLawful | apps/server/src/session-database.ts:718-805 | No other transaction approves a Session or moves its expiry |
| Supervision.MoveKeepsInvariant | apps/server/src/sessions.ts:222-274 | Requests, decisions, audit entries, lost calls and all other transactions keep the invariant behind it |
| Supervision.DecisionIsRecorded | apps/server/src/sessions.ts:375-396 | A decision is recorded and its audit entry owed exactly if it is of the Session's own Organization and the Session waits and is not overdue |
| Idempotency.OneCreationPerKey | apps/server/src/sessions.ts:174-274 | For every interleaving of calls: a call that is told anything but a refusal is told what the one row of its key says, as its creator, with its identifier or of the conflict; no two calls of a key are told they created it; a creation is audited at most once, exactly once when it is reported as created |
| Idempotency.OneCreator | apps/server/src/session-database.ts:365-385 | The row of a key was inserted by exactly one call of that key, whether or not that call lived to report it |
| Idempotency.LaterCallsReplay | apps/server/src/sessions.ts:276-304 | Once a row exists every later call with its key is answered with its identifier or the conflict |
| Idempotency.FirstCallCreates | apps/server/src/sessions.ts:228-274 | A call that finds no row and is not refused inserts one with its own fingerprint, audits it and is told so |
| Idempotency.StepKeepsInvariant | apps/server/src/session-database.ts:365-385 | Every statement of every call keeps calls, table and audit consistent, and rows are never changed |
| Reconnect.SessionReconnectMessages | apps/server/src/session-reconciliation.ts:13-70 | The four loops build opens, starts, cancels and closes in that order, every start after the open of its Session |
| Reconnect.ReplayOrder | apps/server/src/session-reconciliation.ts:20-67 | The same order for every list of Sessions and Commands |
| Reconnect.SessionContent | apps/server/src/session-reconciliation.ts:20-32 | With distinct identifiers exactly the opening and active Sessions are opened, under their contract, and exactly those to be cancelled closed, as expired if their time is up and as cancelled otherwise |
| Reconnect.CommandContent | apps/server/src/session-reconciliation.ts:34-59 | With distinct identifiers exactly the Commands to be cancelled are cancelled, and exactly the other Commands of opened Sessions restarted |
| Reconnect.ReplayKeepsListOrder | apps/server/src/session-reconciliation.ts:20-67 | Messages of one kind come in the order of the list they are made from |
| Reconnect.NoMessageTwice | apps/server/src/session-reconciliation.ts:20-67 | With distinct identifiers no message is replayed twice |
| ReplayInterleavings.ReplayTwice | apps/client/src/index.ts:635-699 | A replay is delivered twice at one instant to a Client in any reachable state, each time in any interleaving with the closes and cancellations it begins and with those under way: the second delivery executes no Command, and opens no Session if the Client was steady for the list |
| ReplayChoices.SteadyExactly | apps/client/src/index.ts:720-748 | In every reachable state in which the Client waits for a message it is steady if and only if no pair of interleavings opens a Session the second time. Steady is a condition on the state before: a close of the list can only end by stopping the Client; or the Client stays full even after the closes of the list and those under way; or everything the list would open finds room the first time, and of every other Session it would open, unless that stays held, the close is still remembered after the closes of the list |
| ReplayChoices.UnsteadyOpens | apps/client/src/index.ts:720-748 | For a Client that is not steady two deliveries are constructed, the second of which opens a Session |
| ReplayDelivery.QuietReplayTwice | apps/client/src/index.ts:635-699 | When no close is under way before, every pair of deliveries opens something the second time or none does, as the same condition says |
| ReplayDelivery.SecondExecutesNothing | apps/client/src/index.ts:750-759 | From any state, reachable or not, the second delivery of the same messages executes no Command |
| ReplayReopens.FreedRoomReopens | apps/client/src/index.ts:720-748 | A run from a reachable state on which a Session refused for want of room is opened by the second delivery, because the list closed another one |
| ReplayReopens.ForgottenSessionReopens | apps/client/src/index.ts:723-727 | A run from a reachable state on which a Session remembered as closed is opened by the second delivery, because a close of the list evicted it |
| ReplayReopens.TimerFreesRoom | apps/client/src/index.ts:712-718 | A run from a reachable state on which a Session refused for want of room is opened by the second delivery, because the close an expiry timer had begun ended in between |
| AuthorityProgress.EndsClose | apps/client/src/index.ts:729-747 | In every reachable state of a Client that has not stopped, a close under way can be brought to its end by steps that receive nothing, with only its Session gone and the queue released, unless an expiry timer began or joined it and a cancellation of it has been refused |
| AuthorityProgress.StepKeepsAttended | apps/client/src/index.ts:720-748 | Every step keeps that a close under way is of the Session object held under its identifier, if any is held, and has asked all its Commands to cancel, that until the Client stops every unfinished Command is registered, and that no close is remembered twice |
| ReplayDelivery.DeliveryInStep | apps/client/src/index.ts:404-409 | When no other close is under way, Sessions held, closes remembered and Sessions opened come out of a delivery as the messages one after the other prescribe, however its turns are interleaved |
| ReplayDelivery.BookTwice | apps/client/src/index.ts:643-661 | Any opens followed by other messages that close none of them: handled twice, one after the other, they open a Session the second time exactly when the condition fails |
| ReplayDelivery.ReplayedStartsDoNothing | apps/client/src/index.ts:750-759 | Whatever happens after a start, short of its acknowledgement, receiving a start of the same Command again does nothing at all |
| LifecycleQueue.OperationsNeverOverlap | apps/server/src/gateway.ts:50-63 | Under every schedule, with operations failing or not, the operations of a machine never overlap and start in submission order, and its map entry is absent only when all have settled |
| LifecycleQueue.NothingIsStranded | apps/server/src/gateway.ts:50-63 | While an operation has not settled, some call of its machine can start, end or resolve |
| LifecycleQueue.NothingLingers | apps/server/src/gateway.ts:58-60 | On every run a machine all of whose calls have been cleaned up has no map entry |
| LifecycleQueue.CleanUpMaps | apps/server/src/gateway.ts:58-60 | Deleting the entry of a machine's last call leaves nothing unsettled behind |
| LifecycleQueue.MachineLifecycleQueue.Run | apps/server/src/gateway.ts:53-57 | Keeps the invariant; the operation is chained behind the machine's last call, or behind nothing only if nothing of the machine is unsettled; no other machine is affected |
| LifecycleQueue.MachineLifecycleQueue.CleanUp | apps/server/src/gateway.ts:58-60 | Keeps the invariant; the machine's entry goes exactly with its last call, when all its calls have settled; no other machine is affected |
| RateWindows.RateBound | apps/server/src/control.ts:301-363 | With nondecreasing times any interval of one window's length, ends included, holds at most twice the limit of admissions of a key, one fewer with an end left out |
| RateWindows.RefusalIsDue | apps/server/src/control.ts:344-349 | With nondecreasing times a valid call is refused only if its key was admitted as often as the limit says within less than one window's length, or it has no window and no more keys can be tracked |
| RateWindows.RunWithinBounds | apps/server/src/control.ts:344-363 | Over every run each window counts at most the limit and no more keys are tracked than allowed |
| RateWindows.StepGroups | apps/server/src/control.ts:319-363 | Every call keeps the admissions of a key grouped into windows of at most the limit that do not overlap |
| RateWindows.AdmitsWithinBounds | apps/server/src/control.ts:344-349 | A key is admitted exactly when counting the admission keeps all limits |
| RateLimiter.FixedWindowRateLimiter.Create | apps/server/src/control.ts:283-299 | Fails exactly when an argument is not a positive safe integer |
| RateLimiter.FixedWindowRateLimiter.Allow | apps/server/src/control.ts:301-306 | Answer and windows are those of the plain map filtered by expiry; an admitted call adds one to its key's window or opens one, a refused one counts nothing; heap and map stay in bijection |
| RateLimiter.FixedWindowRateLimiter.CanAllow | apps/server/src/control.ts:308-311 | The same answer without counting |
| RateLimiter.FixedWindowRateLimiter.Consume | apps/server/src/control.ts:313-317 | The same count without an answer |
| RateLimiter.FixedWindowRateLimiter.Prepare | apps/server/src/control.ts:319-329 | Accepts exactly the safe times and prunes |
| RateLimiter.FixedWindowRateLimiter.PruneExpired | apps/server/src/control.ts:331-342 | Removes exactly the expired windows |
| RateLimiter.FixedWindowRateLimiter.CanAllowPrepared | apps/server/src/control.ts:344-349 | True exactly when counting one more admission would leave every window and the number of tracked keys within their limits |
| RateLimiter.FixedWindowRateLimiter.ConsumePrepared | apps/server/src/control.ts:351-363 | Counts the admission, opening a window when there is none |
| RateLimiter.FixedWindowRateLimiter.AddExpiration | apps/server/src/control.ts:365-375 | The hole that moves up leaves a heap of the old entries and the new one |
| RateLimiter.FixedWindowRateLimiter.RemoveNextExpiration | apps/server/src/control.ts:377-401 | Returns the root and leaves a heap of the other entries |
| RateLimiter.FixedWindowRateLimiter.SiftDown | apps/server/src/control.ts:381-399 | The hole that moves down leaves a heap of the same entries |
| RateLimiter.RootIsLeast | apps/server/src/control.ts:333-334 | No entry of a heap expires before its root |
| RateLimiter.NothingExpired | apps/server/src/control.ts:331-342 | When the root has not expired no window has |
| RateLimiter.AskThenCount | apps/server/src/control.ts:429-437 | Asking first changes neither the answer nor what is counted afterwards |
| RateLimiter.ScopedRateLimiter.constructor | apps/server/src/control.ts:408-421 | Each limiter gets its own limit, the same window and room for 10,000 keys |
| RateLimiter.ScopedRateLimiter.Allow | apps/server/src/control.ts:423-438 | Admits exactly when both limiters do, counting in both; a refused call counts in neither |
| ShellQuoting.QuotingRoundTrip | apps/web/src/lib/enrollment-command.ts:16-19 | For every list of arguments the shell reads the joined, quoted arguments back as that list if and only if none holds a NUL character |
| ShellQuoting.ReadArgument | apps/web/src/lib/enrollment-command.ts:16-19 | A printed argument is read back as one word |
| ShellQuoting.MachineEnrollmentCommand | apps/web/src/lib/enrollment-command.ts:3-14 | The shell reads the command as `ods`, the server if it is not the default one, `up`, and token and name each after its own flag |
| ShellQuoting.EnrollmentSurvives | apps/web/src/lib/enrollment-command.ts:3-14 | Two enrollments have the same command only if server, token and name are all the same |
| OutcomeFidelity.EndIsExplained | apps/client/src/index.ts:893-927 | Helper about a single result: success is an exit with code zero that nobody interrupted; an outcome is unknown only when termination could not be confirmed; a timeout wins over a cancellation; the exit code is the process's, the error that of the failure or of the output limit |
| SessionDatabase.SweepLeavesNothingOverdue | apps/server/src/session-database.ts:953-987 | Helper about a single transaction: after an expiry sweep no waiting, opening or active Session is past its time: a waiting one has expired, an opening or active one is left to be closed with its active Commands told to stop, and nothing else changed |
| SessionDatabase.RevocationEndsScope | apps/server/src/session-database.ts:989-1044 | Helper about a single transaction: a revocation ends exactly the waiting, opening and active Sessions of the Organization that fit the Agent and Machine given, tells their active Commands to stop, and changes nothing else |
| SessionDatabase.FinishAccountsForCommands | apps/server/src/session-database.ts:589-649 | Helper about a single transaction: who finds the Session, when it can be completed, what status completing and cancelling give it, and that exactly its active Commands are reported and told to stop |
| SessionDatabase.ReportsMoveTheirOwnSession | apps/server/src/session-database.ts:718-805 | Helper about a single transaction: a Client's report moves a Session exactly when Machine, status and, for an opening, profile and user fit; it gives the reported status and touches nothing else |

## Left out

- ClientRuntime.Client.StartCommand: takes the outcome of the Session and policy checks as an argument, because the checks themselves are in `AuthorityRuntime.LocalAuthority.StartCommand`; process preparation and the race with the deadline appear as later steps.
- AuthorityRuntime.LocalAuthority.CancelAll: works on PendingCommand values held in a sequence, so aliasing between the object in the map and the one a closure captured is not modelled; `PendingCommand` itself is a class.
- RateLimiter.FixedWindowRateLimiter.Create: a number is an integer or not one; which non-integers JavaScript has is not modelled.
- ShellQuoting.QuotingRoundTrip: reads words only; aliases, reserved words and assignments that a shell recognises in the first word are not modelled.
- Crashes in the middle of a turn, and database failures: a turn and a transaction are atomic, and a crash is followed by recovery before anything else happens.
- LateOutput.OutputIsHonest: speaks of the first lifetime of a Command's journal row, as at-most-once execution speaks of one lifetime; a delayed `command.start` that arrives after the acknowledgement begins another one, whose output an ended Command no longer takes.
- What happens to the output of a process that outlives the Client process: it counts as written and reaches nobody.
- Output retention, the purge of expired chunks and the paging of reads by 256.
- Timestamps inside Client messages; Server-to-Client messages are not queued in order but may arrive at any later time, any number of times, or never.
- The Server closing a connection whose message it rejects: the model lets it go on or stop, so every real run is one of the model's.
- `drain` of the message buffer, heartbeats, pings and the challenge.
- Whether the Server alone enforces its concurrency limits: it checks and then inserts, so it does not; the Client does.
- Whether a completed Session can have active Commands: a Command may be created after its Session's row was read.
- Gateway presence flags and the `online` column.
- Cryptography, SQL, base64 and JSON parsing, HTTP and MCP handlers, the web interface, service managers, the updater and operating-system process control.
- ServerCommands.InOrderPrefix: reads all stored chunks; the paging by 256 and the filter on expired chunks are left out.
- ReplayInterleavings.ReplayTwice: no expiry timer begins a close during the two deliveries, which happen at one instant; closes begun before are covered.
- `ScopedConcurrencyLimiter` and `ControlLiveTokenReplayGuard` are not modelled.
