/** What the turns of the Client's authority do, said of the message that begins one and of
    the state it finds (apps/client/src/index.ts): when a Session is opened and until when, when
    a Command is admitted and when it is killed, what a close or a cancellation sets going. */
module AuthorityTurns {
  import opened Wire
  import opened Authority
  import opened AuthorityBounds

  // ---------- Opening ----------

  /** The times of an open can be read, and its clock is close enough to the Server's. */
  predicate Readable(m: OpenMessage, localNow: int) {
    && m.contract.expiresAt.instant.Some?
    && (m.serverTime.Some? ==>
          m.serverTime.value.instant.Some? && -30_000 <= localNow - m.serverTime.value.instant.value <= 30_000)
  }

  /** The milliseconds the contract leaves by the clock it was written by. */
  function TimeLeft(m: OpenMessage, localNow: int): int
    requires Readable(m, localNow)
  {
    m.contract.expiresAt.instant.value - if m.serverTime.Some? then m.serverTime.value.instant.value else localNow
  }

  lemma DeadlineIsTimeLeft(m: OpenMessage, localNow: int)
    ensures var deadline := AdjustedDeadline(m.contract.expiresAt, m.serverTime, localNow);
            && (deadline.Some? <==> Readable(m, localNow))
            && (deadline.Some? ==> deadline.value == localNow + TimeLeft(m, localNow))
  {
  }

  lemma SecondsWithin(milliseconds: int, maximum: nat)
    ensures Seconds(milliseconds) <= maximum <==> milliseconds <= maximum * 1_000
    ensures Seconds(milliseconds) > 0 <==> milliseconds > 0
  {
  }

  /** The open is for this profile and for no remembered close, its times can be read, time is
      left, and all four limits of Local Policy are met. */
  predicate Openable(s: State, m: OpenMessage, at: Readings) {
    && s.profileId == m.contract.clientProfileId && m.sessionId !in s.closed
    && Readable(m, at.first)
    && 0 < at.first + TimeLeft(m, at.first) - at.second <= s.policy.maxSessionDurationSeconds * 1_000
    && m.contract.organizationId == s.policy.organizationId
    && |s.sessions| < s.policy.maxConcurrentSessions
    && m.contract.maxConcurrentCommands <= s.policy.maxConcurrentCommands
  }

  /** A new Session is opened exactly when it is openable; it then expires when the time its
      contract leaves is over, its timer is armed and it is not closing. */
  lemma OpenedExactly(s: State, m: OpenMessage, at: Readings)
    requires m.sessionId !in s.sessions
    ensures var v := OpenSession(s, m, at);
            && (m.sessionId in v.sessions <==> Openable(s, m, at))
            && (m.sessionId in v.sessions ==>
                  && v.sessions[m.sessionId] ==
                       Session(m.contract, at.first + TimeLeft(m, at.first), at.second, false, s.serials)
                  && m.sessionId in v.timers)
  {
    hide AdjustedDeadline, Seconds, Readable, TimeLeft;
    DeadlineIsTimeLeft(m, at.first);
    if Readable(m, at.first) {
      SecondsWithin(at.first + TimeLeft(m, at.first) - at.second, s.policy.maxSessionDurationSeconds);
    }
  }

  /** The deadline of a Session is within the allowed skew of its contract's instant. */
  predicate Dated(session: Session) {
    && session.contract.expiresAt.instant.Some?
    && -30_000 <= session.expiresAt - session.contract.expiresAt.instant.value <= 30_000
  }

  ghost predicate AllDated(s: State) {
    forall id | id in s.sessions :: Dated(s.sessions[id])
  }

  lemma OpenIsDated(s: State, m: OpenMessage, at: Readings)
    requires m.sessionId !in s.sessions && m.sessionId in OpenSession(s, m, at).sessions
    ensures Dated(OpenSession(s, m, at).sessions[m.sessionId])
  {
    hide OpenSession;
    OpenedExactly(s, m, at);
  }

  lemma StepKeepsDates(s: State, step: Step)
    requires Enabled(s, step) && AllDated(s)
    ensures AllDated(Apply(s, step))
  {
    hide Dated, OpenSession, Admission;
    if step.ReceiveOpen? {
      OpenTurn(s, step.open, step.at);
      if step.open.sessionId !in s.sessions && step.open.sessionId in OpenSession(s, step.open, step.at).sessions {
        OpenIsDated(s, step.open, step.at);
      }
    } else if !step.ReceiveStart? {
      hide Apply, Enabled;
      StepShrinks(s, step);
      forall id | id in Apply(s, step).sessions
        ensures Dated(Apply(s, step).sessions[id])
      {
        DateIgnoresClosing(s.sessions[id], Apply(s, step).sessions[id]);
      }
    }
  }

  lemma DateIgnoresClosing(before: Session, after: Session)
    requires Dated(before) && after == before.(closing := after.closing)
    ensures Dated(after)
  {
  }

  lemma {:induction false} RunKeepsDates(s: State, steps: seq<Step>)
    requires IsRun(s, steps) && AllDated(s)
    ensures AllDated(After(s, steps))
    decreases |steps|
  {
    hide Enabled, Apply, AllDated;
    if steps != [] {
      StepKeepsDates(s, steps[0]);
      RunKeepsDates(Apply(s, steps[0]), steps[1..]);
    }
  }

  /** In every reachable state the deadline of every Session held is within 30 seconds of the
      instant its contract names. */
  lemma DeadlinesFollowContracts(s: State, id: SessionId)
    requires Reachable(s) && id in s.sessions
    ensures s.sessions[id].contract.expiresAt.instant.Some?
    ensures -30_000 <= s.sessions[id].expiresAt - s.sessions[id].contract.expiresAt.instant.value <= 30_000
  {
    hide IsRun, After;
    var policy, profileId, steps :|
      IsRun(InitialState(policy, profileId), steps) && After(InitialState(policy, profileId), steps) == s;
    RunKeepsDates(InitialState(policy, profileId), steps);
  }

  // ---------- Starting ----------

  /** The Session is held, not closing, and not over at any of the three readings. */
  predicate Usable(s: State, id: SessionId, at: Readings) {
    && id in s.sessions && !s.sessions[id].closing
    && at.first < s.sessions[id].expiresAt && at.second < s.sessions[id].expiresAt && at.third < s.sessions[id].expiresAt
  }

  /** The Command is new, its Session usable and below its number of Commands, and the timeout
      and the output asked for are within Local Policy. */
  predicate Startable(s: State, m: StartMessage, at: Readings) {
    && m.commandId !in s.rows && Usable(s, m.sessionId, at)
    && |CommandsOf(s, m.sessionId)| < s.sessions[m.sessionId].contract.maxConcurrentCommands
    && 0 < m.timeoutSeconds <= s.policy.maxCommandTimeoutSeconds
    && m.maxOutputBytes > 0 && s.policy.maxCommandOutputBytes > 0
  }

  /** A start is admitted exactly when it is startable; the Command is then killed when its
      timeout or its Session is over, whichever comes first. */
  lemma AdmittedExactly(s: State, m: StartMessage, at: Readings)
    requires m.commandId !in s.commands
    ensures var v := StartCommand(s, m, at);
            && (m.commandId in v.commands <==> Startable(s, m, at))
            && (m.commandId in v.commands ==>
                  var expiresAt := s.sessions[m.sessionId].expiresAt;
                  && v.commands == s.commands[m.commandId := |s.controls|]
                  && v.controls == s.controls + [
                       Control(m.commandId, m.sessionId, expiresAt, at.second,
                               Min(at.second + m.timeoutSeconds * 1_000, expiresAt), false, Unsettled, NotAsked, false)])
            && (m.commandId !in v.commands ==> v == s.(rows := s.rows + {m.commandId}))
  {
    hide CommandsOf, CommandTimeout;
    CommandsSame(s, s.(rows := s.rows + {m.commandId}), m.sessionId);
    if m.sessionId in s.sessions {
      var expiresAt := s.sessions[m.sessionId].expiresAt;
      TimeoutWithinAuthority(m.timeoutSeconds, s.policy.maxCommandTimeoutSeconds, expiresAt, at.second);
    }
    assert m.commandId in s.rows ==> s.rows + {m.commandId} == s.rows;
  }

  // ---------- Closing ----------

  /** The PendingCommands of a Session. */
  lemma PendingAre(s: State, id: SessionId)
    requires AuthorityBounds.Invariant(s)
    ensures forall c :: c in CommandsOf(s, id) <==> c in s.commands && s.controls[s.commands[c]].sessionId == id
    ensures forall k :: k in TargetsOf(s, id) <==> exists c | c in s.commands :: s.commands[c] == k && s.controls[k].sessionId == id
  {
    hide WithinPolicy;
    assert forall c | c in s.commands :: s.commands[c] < |s.controls|;
  }

  /** A close that begins remembers its Session as closed, lets nobody use it any more and
      asks every PendingCommand of it, and no other one, to cancel. */
  lemma CloseBegins(s: State, id: SessionId, byTimer: bool)
    requires AuthorityBounds.Invariant(s) && id !in s.closings
    ensures var v := BeginClose(s, id, byTimer);
            && id in v.closed && id in v.closings && v.closings == s.closings[id := v.closings[id]]
            && v.closings[id].byTimer == byTimer && v.closings[id].phase == Cancelling
            && v.sessions.Keys == s.sessions.Keys && v.commands == s.commands && |v.controls| == |s.controls|
            && (id in s.sessions ==> v.sessions[id].closing && v.closings[id].session == Some(s.sessions[id].serial))
            && (forall c | c in s.commands ::
                  var (before, after) := (s.controls[s.commands[c]], v.controls[s.commands[c]]);
                  if before.sessionId == id
                  then s.commands[c] in v.closings[id].targets && after.cancelRequested && after.cancellation != NotAsked
                  else after == before)
  {
    hide WithinPolicy, Guarded, Timed, Judged;
    ClosedIsBounded(s);
    RememberKeepsLast(s.closed, id);
  }

  lemma ClosedIsBounded(s: State)
    requires AuthorityBounds.Invariant(s)
    ensures |s.closed| <= REMEMBERED_CLOSED_SESSIONS
  {
  }

  lemma RememberKeepsLast(closed: seq<SessionId>, id: SessionId)
    requires |closed| <= REMEMBERED_CLOSED_SESSIONS
    ensures id in Remember(closed, id)
  {
    assert (closed + [id])[|closed|] == id;
    assert |closed| > 0 && id !in closed ==> (closed + [id])[1..][|closed| - 1] == id;
  }

  /** A close is judged by its cancellations alone, and one of which all were confirmed is
      reported, once, when its Commands have finished. */
  lemma CloseIsReported(s: State, id: SessionId)
    requires id in s.closings
    ensures var judged := JudgeCancellations(s, id);
            judged.closings[id].phase ==
              if forall k | k in s.closings[id].targets :: k < |s.controls| && s.controls[k].cancellation == Confirmed
              then Waiting else Unproved
    ensures DeliverClosed(s, id).replies == s.replies + [Closed(id)] && DeliverClosed(s, id).closings[id].phase == Delivered
    ensures Enabled(s, CloseDelivers(id)) <==>
              && s.closings[id].phase == Waiting
              && forall k | k in s.closings[id].targets :: k < |s.controls| && s.controls[k].finished
  {
  }

  // ---------- Cancelling ----------

  /** A cancellation asks the PendingCommand to cancel and holds the queue until that has
      settled; of a Command that is not pending only the row is remembered. */
  lemma CancelAsks(s: State, id: CommandId)
    requires AuthorityBounds.Invariant(s)
    ensures var v := CancelCommand(s, id);
            if id in s.commands then
              var k := s.commands[id];
              && v == s.(controls := v.controls, task := AwaitCancel(k)) && |v.controls| == |s.controls|
              && (forall j | 0 <= j < |s.controls| && j != k :: v.controls[j] == s.controls[j])
              && v.controls[k].cancelRequested && v.controls[k].cancellation != NotAsked
              && (s.controls[k].cancellation != NotAsked ==> v.controls[k].cancellation == s.controls[k].cancellation)
            else v == s.(rows := s.rows + {id})
  {
    hide WithinPolicy, Guarded, Timed, Judged, Covered;
  }

  /** A Command that times out is asked to cancel; the queue does not wait for it. */
  lemma TimeoutAsks(s: State, id: CommandId)
    requires Enabled(s, CommandTimesOut(id))
    ensures var (v, k) := (Apply(s, CommandTimesOut(id)), s.commands[id]);
            && v == s.(controls := v.controls) && |v.controls| == |s.controls|
            && (forall j | 0 <= j < |s.controls| && j != k :: v.controls[j] == s.controls[j])
            && v.controls[k].cancelRequested && v.controls[k].cancellation != NotAsked
            && (s.controls[k].cancellation != NotAsked ==> v.controls[k].cancellation == s.controls[k].cancellation)
  {
  }

  /** A cancellation is settled once, as its process says; that of a Command that never started
      is always confirmed. */
  lemma CancellationSettles(s: State, k: nat, confirmed: bool)
    requires Enabled(s, CancelSettles(k, confirmed))
    ensures s.controls[k].cancellation == Asked && (s.controls[k].ready == NotStarted ==> confirmed)
    ensures Apply(s, CancelSettles(k, confirmed)) ==
              s.(controls := s.controls[k := s.controls[k].(cancellation := if confirmed then Confirmed else Refused)])
    ensures !Enabled(Apply(s, CancelSettles(k, confirmed)), CancelSettles(k, true))
  {
  }

  /** An acknowledgement forgets the row of a Command that is not pending, and nothing else. */
  lemma AcknowledgementForgets(s: State, id: CommandId)
    requires Enabled(s, ReceiveAcknowledged(id))
    ensures Apply(s, ReceiveAcknowledged(id)) == s.(rows := if id in s.commands then s.rows else s.rows - {id})
  {
  }

  /** A Command that ends is pending no more and finished; one whose cancellation was refused
      stops the Client. */
  lemma EndedCommandIsGone(s: State, id: CommandId)
    requires Enabled(s, CommandEnds(id))
    ensures var (v, k) := (Apply(s, CommandEnds(id)), s.commands[id]);
            && v == s.(commands := s.commands - {id}, controls := v.controls, stopped := v.stopped)
            && |v.controls| == |s.controls| && v.controls[k].finished
            && (forall j | 0 <= j < |s.controls| && j != k :: v.controls[j] == s.controls[j])
            && (v.stopped <==> s.stopped || s.controls[k].cancellation == Refused)
  {
  }

  /** Dropping the authority of a stopped Client lets go of every Session at once and asks
      every PendingCommand to cancel. */
  lemma DropAsksAll(s: State)
    requires AuthorityBounds.Invariant(s) && Enabled(s, DropBegins)
    ensures var v := Apply(s, DropBegins);
            && v.sessions == map[] && v.commands == s.commands && |v.controls| == |s.controls|
            && (forall c | c in s.commands ::
                  v.controls[s.commands[c]].cancelRequested && v.controls[s.commands[c]].cancellation != NotAsked)
            && v.drop.Some? && (forall c | c in s.commands :: s.commands[c] in v.drop.value.targets)
            && v.drop.value.sessions == s.sessions.Keys
  {
    hide WithinPolicy, Guarded, Timed, Judged, Covered;
  }

  /** Once all of these have settled the timers of the dropped Sessions are cleared, and once
      the Commands have finished none is pending. */
  lemma DropForgets(s: State, step: Step)
    requires Enabled(s, step) && (step.DropSettles? || step.DropEnds?)
    ensures s.drop.Some?
    ensures step.DropSettles? ==>
              && (forall k | k in s.drop.value.targets :: k < |s.controls| && s.controls[k].cancellation in {Confirmed, Refused})
              && Apply(s, step).timers == s.timers - s.drop.value.sessions && Apply(s, step).commands == s.commands
    ensures step.DropEnds? ==>
              && (forall k | k in s.drop.value.targets :: k < |s.controls| && s.controls[k].finished)
              && Apply(s, step).commands == map[] && Apply(s, step).timers == s.timers
  {
  }
}
