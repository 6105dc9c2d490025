/** The authority a Client holds for its Sessions (apps/client/src/index.ts,
    apps/client/src/command-control.ts): opening under Local Policy, starting Commands,
    and closing, as one step relation.

    A step is one JavaScript turn, up to the next `await`.  Messages of the Server are
    handled one after the other: a handler that waits for a close or a cancellation holds
    up the queue, expiry timers do not wait for it.  Every clock reading is a parameter,
    and no reading is assumed to be later than another. */
module Authority {
  import opened Wire

  const MAX_CLIENT_CLOCK_SKEW_MILLISECONDS := 30_000
  const REMEMBERED_CLOSED_SESSIONS: nat := 1_000

  // ---------- Deadlines and limits ----------

  datatype Policy = Policy(
    organizationId: string,
    maxSessionDurationSeconds: nat,
    maxConcurrentSessions: nat,
    maxConcurrentCommands: nat,
    maxCommandTimeoutSeconds: nat,
    maxCommandOutputBytes: nat)

  datatype Decision =
    | Allowed
    | OrganizationDenied
    | DurationDenied
    | SessionConcurrencyDenied
    | CommandConcurrencyDenied

  function LocalSessionDecision(policy: Policy, organizationId: string, durationSeconds: int,
                                activeSessions: nat, maxConcurrentCommands: nat): (d: Decision)
    ensures d == Allowed <==>
              && organizationId == policy.organizationId
              && durationSeconds <= policy.maxSessionDurationSeconds
              && activeSessions < policy.maxConcurrentSessions
              && maxConcurrentCommands <= policy.maxConcurrentCommands
    ensures d == OrganizationDenied <==> organizationId != policy.organizationId
    ensures d == DurationDenied ==> durationSeconds > policy.maxSessionDurationSeconds
    ensures d == SessionConcurrencyDenied ==>
              activeSessions >= policy.maxConcurrentSessions && durationSeconds <= policy.maxSessionDurationSeconds
    ensures d == CommandConcurrencyDenied ==>
              && maxConcurrentCommands > policy.maxConcurrentCommands && activeSessions < policy.maxConcurrentSessions
              && durationSeconds <= policy.maxSessionDurationSeconds
  {
    if organizationId != policy.organizationId then OrganizationDenied
    else if durationSeconds > policy.maxSessionDurationSeconds then DurationDenied
    else if activeSessions >= policy.maxConcurrentSessions then SessionConcurrencyDenied
    else if maxConcurrentCommands > policy.maxConcurrentCommands then CommandConcurrencyDenied
    else Allowed
  }

  /** A timestamp as written and the instant it parses to, in milliseconds. */
  datatype Timestamp = Timestamp(text: string, instant: Option<int>)

  /** The expiry on the local clock; None stands for the errors. */
  function AdjustedDeadline(expiresAt: Timestamp, serverTime: Option<Timestamp>, localNow: int): Option<int> {
    var serverNow := if serverTime.None? then Some(localNow) else serverTime.value.instant;
    if serverNow.None? || expiresAt.instant.None? then None
    else if serverTime.Some? && Abs(localNow - serverNow.value) > MAX_CLIENT_CLOCK_SKEW_MILLISECONDS then None
    else Some(localNow + (expiresAt.instant.value - serverNow.value))
  }

  function Abs(x: int): int {
    if x < 0 then -x else x
  }

  /** The local deadline leaves what the Server's clock leaves, and differs from the
      contract's instant by no more than the allowed skew. */
  lemma DeadlineWithinSkew(expiresAt: Timestamp, serverTime: Option<Timestamp>, localNow: int)
    requires AdjustedDeadline(expiresAt, serverTime, localNow).Some?
    ensures var deadline := AdjustedDeadline(expiresAt, serverTime, localNow).value;
            && Abs(deadline - expiresAt.instant.value) <= MAX_CLIENT_CLOCK_SKEW_MILLISECONDS
            && (serverTime.None? ==> deadline == expiresAt.instant.value)
            && (serverTime.Some? ==> deadline - localNow == expiresAt.instant.value - serverTime.value.instant.value)
  {
  }

  function Seconds(milliseconds: int): int {
    -(-milliseconds / 1_000)
  }

  function CommandTimeout(requestedSeconds: int, localMaximumSeconds: int, sessionExpiresAt: int, now: int): int {
    if requestedSeconds <= 0 || localMaximumSeconds <= 0 || requestedSeconds > localMaximumSeconds then 0
    else Max(0, Min(requestedSeconds * 1_000, sessionExpiresAt - now))
  }

  /** A positive timeout ends within the Session and within Local Policy, and is the
      largest such that does not exceed the request; there is none exactly when the request
      is out of range or the Session has expired. */
  lemma TimeoutWithinAuthority(requested: int, maximum: int, expiresAt: int, now: int)
    ensures var t := CommandTimeout(requested, maximum, expiresAt, now);
            && 0 <= t
            && (t > 0 <==> 0 < requested <= maximum && now < expiresAt)
            && (t > 0 ==> now + t <= expiresAt && t <= requested * 1_000 <= maximum * 1_000)
            && (t > 0 ==> t == requested * 1_000 || now + t == expiresAt)
  {
  }

  datatype CommandDecision =
    | CommandAllowed(timeoutSeconds: int)
    | SessionNotActive
    | SessionExpired
    | TimeoutExceedsLocalPolicy
    | TimeoutExceedsSession

  /** The Server's own check before it creates a Command. */
  function DecideCommand(active: bool, expiresAt: int, timeoutSeconds: int, maxCommandTimeoutSeconds: int, now: int): CommandDecision {
    if !active then SessionNotActive
    else
      var remaining := (expiresAt - now) / 1_000;
      if remaining <= 0 then SessionExpired
      else if timeoutSeconds > maxCommandTimeoutSeconds then TimeoutExceedsLocalPolicy
      else if timeoutSeconds > remaining then TimeoutExceedsSession
      else CommandAllowed(timeoutSeconds)
  }

  /** The Server allows a Command exactly when its whole timeout fits into the Session and
      into Local Policy, and says why otherwise; a Client whose clock leaves the Session at least as long grants
      that timeout in full. */
  lemma ServerDecisionHoldsOnClient(active: bool, expiresAt: int, timeout: int, maximum: int, now: int, localExpiresAt: int, localNow: int)
    requires timeout >= 1
    ensures DecideCommand(active, expiresAt, timeout, maximum, now).CommandAllowed? <==>
              active && timeout <= maximum && now + timeout * 1_000 <= expiresAt
    ensures var d := DecideCommand(active, expiresAt, timeout, maximum, now);
            && (d.CommandAllowed? ==> d.timeoutSeconds == timeout)
            && (d.SessionNotActive? <==> !active)
            && (d.SessionExpired? <==> active && expiresAt < now + 1_000)
            && (d.TimeoutExceedsLocalPolicy? <==> active && now + 1_000 <= expiresAt && timeout > maximum)
    ensures DecideCommand(active, expiresAt, timeout, maximum, now).CommandAllowed? && localExpiresAt - localNow >= expiresAt - now ==>
              CommandTimeout(timeout, maximum, localExpiresAt, localNow) == timeout * 1_000
  {
    var remaining := (expiresAt - now) / 1_000;
    assert remaining * 1_000 <= expiresAt - now < remaining * 1_000 + 1_000;
  }

  // ---------- State ----------

  datatype Contract = Contract(
    organizationId: string,
    agentId: string,
    clientProfileId: string,
    expiresAt: Timestamp,
    maxConcurrentCommands: nat)

  /** `serial` is the identity of the object; `openedAt` the clock reading its duration
      was judged by. */
  datatype Session = Session(contract: Contract, expiresAt: int, openedAt: int, closing: bool, serial: nat)

  datatype Ready = Unsettled | Started | NotStarted
  datatype Cancellation = NotAsked | Asked | Confirmed | Refused

  /** A PendingCommand.  `killAt` is when its timer cancels it, counted from `admittedAt`. */
  datatype Control = Control(
    commandId: CommandId,
    sessionId: SessionId,
    sessionExpiresAt: int,
    admittedAt: int,
    killAt: int,
    cancelRequested: bool,
    ready: Ready,
    cancellation: Cancellation,
    finished: bool)

  datatype Phase = Cancelling | TimerCleared | Waiting | Delivered | Unproved

  /** A close in progress: the Session object it found, the PendingCommands it cancels,
      and whether an expiry timer began or joined it. */
  datatype Close = Close(session: Option<nat>, targets: set<nat>, byTimer: bool, phase: Phase)

  /** `dropLocalAuthority` in progress: what it cancels and the Sessions whose timers it clears. */
  datatype Drop = Drop(targets: set<nat>, sessions: set<SessionId>, phase: Phase)

  /** What the message queue is waiting for. */
  datatype Task = Idle | AwaitClose(sessionId: SessionId) | AwaitCancel(control: nat)

  datatype Reply =
    | Opened(sessionId: SessionId)
    | OpenFailed(sessionId: SessionId)
    | AlreadyClosed(sessionId: SessionId)
    | Closed(sessionId: SessionId)

  datatype State = State(
    policy: Policy,
    profileId: string,
    sessions: map<SessionId, Session>,
    serials: nat,
    closed: seq<SessionId>,
    closings: map<SessionId, Close>,
    controls: seq<Control>,
    commands: map<CommandId, nat>,
    rows: set<CommandId>,
    timers: set<SessionId>,
    task: Task,
    stopped: bool,
    drop: Option<Drop>,
    replies: seq<Reply>)

  datatype OpenMessage = OpenMessage(sessionId: SessionId, contract: Contract, serverTime: Option<Timestamp>)

  datatype Readings = Readings(first: int, second: int, third: int)

  datatype StartMessage = StartMessage(commandId: CommandId, sessionId: SessionId, timeoutSeconds: nat, maxOutputBytes: nat)

  // ---------- PendingCommand ----------

  function Attach(c: Control): Control {
    c.(ready := Started)
  }

  function FailStart(c: Control): Control {
    if c.ready != Unsettled then c else c.(ready := NotStarted)
  }

  function AskCancel(c: Control): Control {
    c.(cancelRequested := true, cancellation := if c.cancellation == NotAsked then Asked else c.cancellation)
  }

  function Settle(c: Control, confirmed: bool): Control {
    c.(cancellation := if confirmed then Confirmed else Refused)
  }

  function MarkFinished(c: Control): Control {
    FailStart(c).(finished := true)
  }

  predicate Settled(c: Control) {
    c.cancellation == Confirmed || c.cancellation == Refused
  }

  function CancelAll(controls: seq<Control>, targets: set<nat>): (r: seq<Control>)
    ensures |r| == |controls|
    ensures forall k | 0 <= k < |controls| :: r[k] == if k in targets then AskCancel(controls[k]) else controls[k]
  {
    seq(|controls|, k requires 0 <= k < |controls| => if k in targets then AskCancel(controls[k]) else controls[k])
  }

  // ---------- Turns ----------

  /** The PendingCommands of a Session. */
  function TargetsOf(s: State, id: SessionId): (r: set<nat>)
    ensures forall k | k in r :: k < |s.controls|
  {
    set c | c in s.commands && s.commands[c] < |s.controls| && s.controls[s.commands[c]].sessionId == id :: s.commands[c]
  }

  /** How many Commands of a Session are pending. */
  function CommandsOf(s: State, id: SessionId): set<CommandId> {
    set c | c in s.commands && s.commands[c] < |s.controls| && s.controls[s.commands[c]].sessionId == id
  }

  function Answer(s: State, reply: Reply): State {
    s.(replies := s.replies + [reply])
  }

  /** `openSession`.  The second check of `closedSessions` is made in the same turn as the
      first one and cannot find anything new. */
  function OpenSession(s: State, m: OpenMessage, at: Readings): State {
    var id := m.sessionId;
    if s.profileId != m.contract.clientProfileId then Answer(s, OpenFailed(id))
    else if id in s.closed then Answer(s, AlreadyClosed(id))
    else if id in s.sessions then
      var existing := s.sessions[id];
      Answer(s, if existing.closing || existing.contract != m.contract then OpenFailed(id) else Opened(id))
    else
      var deadline := AdjustedDeadline(m.contract.expiresAt, m.serverTime, at.first);
      if deadline.None? then Answer(s, OpenFailed(id))
      else
        var duration := Seconds(deadline.value - at.second);
        var decision := LocalSessionDecision(s.policy, m.contract.organizationId, duration, |s.sessions|,
                                             m.contract.maxConcurrentCommands);
        if decision != Allowed || duration <= 0 then Answer(s, OpenFailed(id))
        else
          Answer(s.(sessions := s.sessions[id := Session(m.contract, deadline.value, at.second, false, s.serials)],
                    serials := s.serials + 1,
                    timers := s.timers + {id}),
                 Opened(id))
  }

  function Remember(closed: seq<SessionId>, id: SessionId): seq<SessionId> {
    var longer := if id in closed then closed else closed + [id];
    if |longer| > REMEMBERED_CLOSED_SESSIONS then longer[1..] else longer
  }

  /** The first turn of `closeSession`; a later call joins the close in progress. */
  function BeginClose(s: State, id: SessionId, byTimer: bool): State {
    if id in s.closings then
      s.(closings := s.closings[id := s.closings[id].(byTimer := s.closings[id].byTimer || byTimer)])
    else
      var session := if id in s.sessions then Some(s.sessions[id].serial) else None;
      var targets := TargetsOf(s, id);
      s.(closed := Remember(s.closed, id),
         sessions := if id in s.sessions then s.sessions[id := s.sessions[id].(closing := true)] else s.sessions,
         controls := CancelAll(s.controls, targets),
         closings := s.closings[id := Close(session, targets, byTimer, Cancelling)])
  }

  /** `closeSession` once every cancellation has settled. */
  function ClearTimer(s: State, id: SessionId): State
    requires id in s.closings
  {
    var closing := s.closings[id];
    s.(timers := if closing.session.Some? then s.timers - {id} else s.timers,
       closings := s.closings[id := closing.(phase := TimerCleared)])
  }

  predicate AllConfirmed(s: State, targets: set<nat>) {
    forall k | k in targets :: k < |s.controls| && s.controls[k].cancellation == Confirmed
  }

  predicate AllSettled(s: State, targets: set<nat>) {
    forall k | k in targets :: k < |s.controls| && Settled(s.controls[k])
  }

  predicate AllFinished(s: State, targets: set<nat>) {
    forall k | k in targets :: k < |s.controls| && s.controls[k].finished
  }

  function JudgeCancellations(s: State, id: SessionId): State
    requires id in s.closings
  {
    s.(closings := s.closings[id := s.closings[id].(phase := if AllConfirmed(s, s.closings[id].targets) then Waiting else Unproved)])
  }

  function DeliverClosed(s: State, id: SessionId): State
    requires id in s.closings
  {
    Answer(s.(closings := s.closings[id := s.closings[id].(phase := Delivered)]), Closed(id))
  }

  /** The `finally` block of `closeSession`; a timer's close that could not prove termination
      stops the Client. */
  function EndClose(s: State, id: SessionId): State
    requires id in s.closings
  {
    var closing := s.closings[id];
    var same := id in s.sessions && closing.session == Some(s.sessions[id].serial);
    s.(sessions := if same then s.sessions - {id} else s.sessions,
       closings := s.closings - {id},
       task := if s.task == AwaitClose(id) then Idle else s.task,
       stopped := s.stopped || (closing.byTimer && closing.phase == Unproved))
  }

  /** What the checks of `startCommand` compute: the timeout of an admitted Command. */
  function Admission(s: State, m: StartMessage, at: Readings): Option<int> {
    if m.sessionId !in s.sessions then None
    else
      var session := s.sessions[m.sessionId];
      if session.closing || session.expiresAt <= at.first then None
      else if |CommandsOf(s, m.sessionId)| >= session.contract.maxConcurrentCommands then None
      else
        var timeout := CommandTimeout(m.timeoutSeconds, s.policy.maxCommandTimeoutSeconds, session.expiresAt, at.second);
        if Min(m.maxOutputBytes, s.policy.maxCommandOutputBytes) < 1 || timeout <= 0 then None
        else if session.expiresAt <= at.third then None
        else Some(timeout)
  }

  function StartCommand(s: State, m: StartMessage, at: Readings): State {
    if m.commandId in s.rows then s
    else
      var s1 := s.(rows := s.rows + {m.commandId});
      var timeout := Admission(s1, m, at);
      if timeout.None? then s1
      else
        var control := Control(m.commandId, m.sessionId, s.sessions[m.sessionId].expiresAt, at.second,
                               at.second + timeout.value, false, Unsettled, NotAsked, false);
        s1.(controls := s1.controls + [control], commands := s1.commands[m.commandId := |s1.controls|])
  }

  function SetControl(s: State, k: nat, c: Control): State
    requires k < |s.controls|
  {
    s.(controls := s.controls[k := c])
  }

  /** The `finally` block of `startCommand`; a refused cancellation stops the Client. */
  function EndCommand(s: State, id: CommandId): State
    requires id in s.commands && s.commands[id] < |s.controls|
  {
    var k := s.commands[id];
    SetControl(s, k, MarkFinished(s.controls[k])).(
      commands := s.commands - {id},
      stopped := s.stopped || s.controls[k].cancellation == Refused)
  }

  /** `cancelCommand`. */
  function CancelCommand(s: State, id: CommandId): State {
    if id in s.commands && s.commands[id] < |s.controls| then
      var k := s.commands[id];
      SetControl(s, k, AskCancel(s.controls[k])).(task := AwaitCancel(k))
    else s.(rows := s.rows + {id})
  }

  /** The first turn of `dropLocalAuthority`. */
  function BeginDrop(s: State): State {
    var targets := set c | c in s.commands :: s.commands[c];
    s.(sessions := map[],
       controls := CancelAll(s.controls, targets),
       drop := Some(Drop(targets, s.sessions.Keys, Cancelling)))
  }

  datatype Step =
    | ReceiveOpen(open: OpenMessage, at: Readings)
    | ReceiveClose(sessionId: SessionId)
    | ReceiveStart(start: StartMessage, at: Readings)
    | ReceiveCancel(commandId: CommandId)
    | ReceiveAcknowledged(commandId: CommandId)
    | TimerFires(sessionId: SessionId)
    | CommandTimesOut(commandId: CommandId)
    | ProcessStarts(control: nat)
    | StartAbandoned(control: nat)
    | CancelSettles(control: nat, confirmed: bool)
    | CancelReturns
    | CommandEnds(commandId: CommandId)
    | CloseSettles(sessionId: SessionId)
    | CloseJudges(sessionId: SessionId)
    | CloseDelivers(sessionId: SessionId)
    | CloseEnds(sessionId: SessionId)
    | Stop
    | DropBegins
    | DropSettles
    | DropEnds

  predicate InPhase(s: State, id: SessionId, phase: Phase) {
    id in s.closings && s.closings[id].phase == phase
  }

  predicate Enabled(s: State, step: Step) {
    match step
    case ReceiveOpen(_, _) => !s.stopped && s.task == Idle
    case ReceiveClose(_) => !s.stopped && s.task == Idle
    case ReceiveStart(_, _) => !s.stopped && s.task == Idle
    case ReceiveCancel(_) => !s.stopped && s.task == Idle
    case ReceiveAcknowledged(id) => !s.stopped && s.task == Idle
    case TimerFires(id) => id in s.timers
    case CommandTimesOut(id) => id in s.commands && s.commands[id] < |s.controls|
    case ProcessStarts(k) => k < |s.controls| && s.controls[k].ready == Unsettled && !s.controls[k].finished
    case StartAbandoned(k) => k < |s.controls| && s.controls[k].ready == Unsettled && s.controls[k].cancelRequested
    case CancelSettles(k, confirmed) =>
      && k < |s.controls| && s.controls[k].cancellation == Asked && s.controls[k].ready != Unsettled
      && (s.controls[k].ready == NotStarted ==> confirmed)
    case CancelReturns => s.task.AwaitCancel? && s.task.control < |s.controls| && Settled(s.controls[s.task.control])
    case CommandEnds(id) =>
      && id in s.commands && s.commands[id] < |s.controls|
      && (s.controls[s.commands[id]].ready == NotStarted ==> s.controls[s.commands[id]].cancellation == Confirmed)
    case CloseSettles(id) => InPhase(s, id, Cancelling) && AllSettled(s, s.closings[id].targets)
    case CloseJudges(id) => InPhase(s, id, TimerCleared)
    case CloseDelivers(id) => InPhase(s, id, Waiting) && AllFinished(s, s.closings[id].targets)
    case CloseEnds(id) => InPhase(s, id, Delivered) || InPhase(s, id, Unproved)
    case Stop => true
    case DropBegins => s.stopped && s.task == Idle && s.drop.None?
    case DropSettles => s.drop.Some? && s.drop.value.phase == Cancelling && AllSettled(s, s.drop.value.targets)
    case DropEnds => s.drop.Some? && s.drop.value.phase == TimerCleared && AllFinished(s, s.drop.value.targets)
  }

  function Apply(s: State, step: Step): State
    requires Enabled(s, step)
  {
    match step
    case ReceiveOpen(m, at) => OpenSession(s, m, at)
    case ReceiveClose(id) => BeginClose(s, id, false).(task := AwaitClose(id))
    case ReceiveStart(m, at) => StartCommand(s, m, at)
    case ReceiveCancel(id) => CancelCommand(s, id)
    case ReceiveAcknowledged(id) => if id in s.commands then s else s.(rows := s.rows - {id})
    case TimerFires(id) => BeginClose(s.(timers := s.timers - {id}), id, true)
    case CommandTimesOut(id) => SetControl(s, s.commands[id], AskCancel(s.controls[s.commands[id]]))
    case ProcessStarts(k) => SetControl(s, k, Attach(s.controls[k]))
    case StartAbandoned(k) => SetControl(s, k, FailStart(s.controls[k]))
    case CancelSettles(k, confirmed) => SetControl(s, k, Settle(s.controls[k], confirmed))
    case CancelReturns => s.(task := Idle)
    case CommandEnds(id) => EndCommand(s, id)
    case CloseSettles(id) => ClearTimer(s, id)
    case CloseJudges(id) => JudgeCancellations(s, id)
    case CloseDelivers(id) => DeliverClosed(s, id)
    case CloseEnds(id) => EndClose(s, id)
    case Stop => s.(stopped := true)
    case DropBegins => BeginDrop(s)
    case DropSettles => s.(timers := s.timers - s.drop.value.sessions, drop := Some(s.drop.value.(phase := TimerCleared)))
    case DropEnds => s.(commands := map[], drop := Some(s.drop.value.(phase := Delivered)))
  }

  function InitialState(policy: Policy, profileId: string): State {
    State(policy, profileId, map[], 0, [], map[], [], map[], {}, {}, Idle, false, None, [])
  }

  ghost predicate IsRun(s: State, steps: seq<Step>)
    decreases |steps|
  {
    steps == [] || (Enabled(s, steps[0]) && IsRun(Apply(s, steps[0]), steps[1..]))
  }

  function After(s: State, steps: seq<Step>): State
    requires IsRun(s, steps)
    decreases |steps|
  {
    if steps == [] then s else After(Apply(s, steps[0]), steps[1..])
  }

  ghost predicate Reachable(s: State) {
    exists policy, profileId, steps ::
      IsRun(InitialState(policy, profileId), steps) && After(InitialState(policy, profileId), steps) == s
  }
}
