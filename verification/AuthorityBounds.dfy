/** What holds of a Client's authority in every reachable state: the ceilings of Local
    Policy, fixed deadlines, and the order of closing. */
module AuthorityBounds {
  import opened Wire
  import opened Authority

  // ---------- Turns ----------

  /** A PendingCommand keeps its identity, its times, its verdict and that it has finished. */
  predicate Evolves(before: Control, after: Control) {
    && after.sessionId == before.sessionId
    && after.commandId == before.commandId
    && after.killAt == before.killAt
    && after.admittedAt == before.admittedAt
    && after.sessionExpiresAt == before.sessionExpiresAt
    && (Settled(before) ==> after.cancellation == before.cancellation)
    && (before.finished ==> after.finished)
  }

  ghost predicate Later(before: seq<Control>, after: seq<Control>) {
    && |before| <= |after|
    && (forall k | 0 <= k < |before| :: Evolves(before[k], after[k]))
  }

  /** The steps that only concern one PendingCommand. */
  predicate ControlStep(step: Step) {
    step.CommandTimesOut? || step.ProcessStarts? || step.StartAbandoned? || step.CancelSettles?
  }

  lemma ControlTurn(s: State, step: Step)
    requires Enabled(s, step) && ControlStep(step)
    ensures var v := Apply(s, step);
            && v == s.(controls := v.controls)
            && |v.controls| == |s.controls|
            && (forall k | 0 <= k < |s.controls| ::
                  Evolves(s.controls[k], v.controls[k]) && v.controls[k].finished == s.controls[k].finished)
  {
  }

  /** The steps of a close in progress. */
  predicate CloseStep(step: Step) {
    step.CloseSettles? || step.CloseJudges? || step.CloseDelivers? || step.CloseEnds?
  }

  lemma CloseTurn(s: State, step: Step)
    requires Enabled(s, step) && CloseStep(step)
    ensures var v := Apply(s, step);
            var id := step.sessionId;
            && v == s.(closings := v.closings, sessions := v.sessions, timers := v.timers, task := v.task,
                       stopped := v.stopped, replies := v.replies)
            && id in s.closings
            && (if step.CloseEnds? then
                  && v.closings == s.closings - {id} && v.timers == s.timers
                  && s.closings[id].phase != Cancelling
                  && (v.sessions == s.sessions || (s.closings[id].session.Some? && v.sessions == s.sessions - {id}))
                  && (v.task == s.task || s.task == AwaitClose(id)) && (s.stopped ==> v.stopped)
                else
                  && v.closings == s.closings[id := s.closings[id].(phase := v.closings[id].phase)]
                  && v.sessions == s.sessions && v.task == s.task && v.stopped == s.stopped
                  && v.timers == (if step.CloseSettles? && s.closings[id].session.Some? then s.timers - {id} else s.timers)
                  && (step.CloseSettles? ==> v.closings[id].phase == TimerCleared && s.closings[id].phase == Cancelling && AllSettled(s, s.closings[id].targets))
                  && (step.CloseJudges? ==>
                        && s.closings[id].phase == TimerCleared
                        && (v.closings[id].phase == Unproved || (v.closings[id].phase == Waiting && AllConfirmed(s, s.closings[id].targets))))
                  && (step.CloseDelivers? ==> s.closings[id].phase == Waiting && v.closings[id].phase == Delivered && AllFinished(s, s.closings[id].targets)))
  {
    hide AllSettled, AllConfirmed, AllFinished;
  }

  lemma BeginTurn(s: State, id: SessionId, byTimer: bool)
    ensures var v := BeginClose(s, id, byTimer);
            && v == s.(closed := v.closed, sessions := v.sessions, controls := v.controls, closings := v.closings)
            && (v.closed == s.closed || v.closed == Remember(s.closed, id))
            && id in v.closings && v.closings == s.closings[id := v.closings[id]]
            && |v.controls| == |s.controls|
            && (forall k | 0 <= k < |s.controls| ::
                  Evolves(s.controls[k], v.controls[k]) && v.controls[k].finished == s.controls[k].finished)
            && (if id in s.closings then
                  v.sessions == s.sessions && v.controls == s.controls
                  && v.closings[id].(byTimer := s.closings[id].byTimer) == s.closings[id]
                else
                  && v.sessions == (if id in s.sessions then s.sessions[id := s.sessions[id].(closing := true)] else s.sessions)
                  && v.closings[id].targets == TargetsOf(s, id) && v.closings[id].phase == Cancelling
                  && (v.closings[id].session.Some? ==> id in s.sessions))
  {
    hide Remember, TargetsOf;
  }

  lemma OpenTurn(s: State, m: OpenMessage, at: Readings)
    ensures var v := OpenSession(s, m, at);
            && v == s.(sessions := v.sessions, serials := v.serials, timers := v.timers, replies := v.replies)
            && (|| (v.sessions == s.sessions && v.serials == s.serials && v.timers == s.timers)
                || (&& m.sessionId !in s.sessions && m.sessionId in v.sessions
                    && v.sessions == s.sessions[m.sessionId := v.sessions[m.sessionId]]
                    && v.sessions[m.sessionId].serial == s.serials && v.serials == s.serials + 1
                    && v.timers == s.timers + {m.sessionId}))
  {
    hide AdjustedDeadline, Seconds, LocalSessionDecision;
  }

  lemma StartTurn(s: State, m: StartMessage, at: Readings)
    ensures var v := StartCommand(s, m, at);
            && v == s.(rows := v.rows, controls := v.controls, commands := v.commands)
            && m.commandId in v.rows
            && (|| (v.controls == s.controls && v.commands == s.commands && s.rows <= v.rows)
                || (&& m.commandId !in s.rows && v.rows == s.rows + {m.commandId}
                    && m.sessionId in s.sessions && !s.sessions[m.sessionId].closing
                    && |v.controls| == |s.controls| + 1 && v.controls[..|s.controls|] == s.controls
                    && v.controls[|s.controls|].commandId == m.commandId
                    && v.controls[|s.controls|].sessionId == m.sessionId
                    && !v.controls[|s.controls|].finished
                    && v.commands == s.commands[m.commandId := |s.controls|]))
  {
    hide CommandTimeout, CommandsOf;
  }

  // ---------- Closing ----------

  /** `commands` refers to live PendingCommands, and a running Command has a journal row. */
  ghost predicate Linked(s: State) {
    forall c | c in s.commands ::
      && s.commands[c] < |s.controls|
      && s.controls[s.commands[c]].commandId == c
      && !s.controls[s.commands[c]].finished
      && c in s.rows
  }

  /** A Session that is being closed cannot be opened or used. */
  ghost predicate Guarded(s: State) {
    && (forall id | id in s.closings && id in s.sessions :: s.sessions[id].closing)
    && (forall id | id in s.closings && id !in s.sessions :: s.task == AwaitClose(id) || s.stopped)
    && (s.drop.Some? ==> s.stopped)
  }

  /** An armed timer has its Session. */
  ghost predicate Timed(s: State) {
    && (forall id | id in s.timers :: id in s.sessions || s.stopped)
    && (forall id | id in s.closings && s.closings[id].phase != Cancelling && s.closings[id].session.Some? ::
          id !in s.timers || s.stopped)
  }

  /** A close cancels every pending Command of its Session. */
  ghost predicate Covered(s: State) {
    && (forall id, c | id in s.closings && c in s.commands && s.commands[c] < |s.controls| ::
          s.controls[s.commands[c]].sessionId == id ==> s.commands[c] in s.closings[id].targets)
    && (s.drop.Some? ==> forall c | c in s.commands :: s.commands[c] in s.drop.value.targets)
  }

  /** Past its judgement a close has every cancellation confirmed. */
  ghost predicate Judged(s: State) {
    && (forall id | id in s.closings && s.closings[id].phase == TimerCleared :: AllSettled(s, s.closings[id].targets))
    && (forall id | id in s.closings && (s.closings[id].phase == Waiting || s.closings[id].phase == Delivered) ::
          AllConfirmed(s, s.closings[id].targets))
    && (forall id | id in s.closings && s.closings[id].phase == Delivered :: AllFinished(s, s.closings[id].targets))
    && (s.drop.Some? && s.drop.value.phase != Cancelling ==> AllSettled(s, s.drop.value.targets))
  }

  ghost predicate Closes(s: State) {
    Linked(s) && Guarded(s) && Timed(s) && Covered(s) && Judged(s)
  }

  lemma StepLinked(s: State, step: Step)
    requires Enabled(s, step) && Closes(s)
    ensures Linked(Apply(s, step))
  {
    hide OpenSession, StartCommand, BeginClose, Remember, AllSettled, AllConfirmed, AllFinished, Guarded, Timed, Covered, Judged;
    if ControlStep(step) {
      hide Apply, Enabled;
      ControlTurn(s, step);
    } else if CloseStep(step) {
      hide Apply, Enabled;
      CloseTurn(s, step);
    } else if step.ReceiveClose? {
      BeginTurn(s, step.sessionId, false);
    } else if step.TimerFires? {
      BeginTurn(s.(timers := s.timers - {step.sessionId}), step.sessionId, true);
    } else if step.ReceiveOpen? {
      OpenTurn(s, step.open, step.at);
    } else if step.ReceiveStart? {
      StartTurn(s, step.start, step.at);
    }
  }

  lemma StepGuarded(s: State, step: Step)
    requires Enabled(s, step) && Closes(s)
    ensures Guarded(Apply(s, step))
  {
    hide OpenSession, StartCommand, BeginClose, Remember, AllSettled, AllConfirmed, AllFinished, Covered, Judged, Linked;
    if ControlStep(step) {
      hide Apply, Enabled;
      ControlTurn(s, step);
    } else if CloseStep(step) {
      hide Apply, Enabled;
      CloseTurn(s, step);
    } else if step.ReceiveClose? {
      BeginTurn(s, step.sessionId, false);
    } else if step.TimerFires? {
      BeginTurn(s.(timers := s.timers - {step.sessionId}), step.sessionId, true);
    } else if step.ReceiveOpen? {
      OpenTurn(s, step.open, step.at);
    } else if step.ReceiveStart? {
      StartTurn(s, step.start, step.at);
    }
  }

  lemma StepTimed(s: State, step: Step)
    requires Enabled(s, step) && Closes(s)
    ensures Timed(Apply(s, step))
  {
    hide OpenSession, StartCommand, BeginClose, Remember, AllSettled, AllConfirmed, AllFinished, Covered, Judged, Linked;
    if ControlStep(step) {
      hide Apply, Enabled;
      ControlTurn(s, step);
    } else if CloseStep(step) {
      hide Apply, Enabled;
      CloseTurn(s, step);
    } else if step.ReceiveClose? {
      BeginTurn(s, step.sessionId, false);
    } else if step.TimerFires? {
      BeginTurn(s.(timers := s.timers - {step.sessionId}), step.sessionId, true);
    } else if step.ReceiveOpen? {
      OpenTurn(s, step.open, step.at);
    } else if step.ReceiveStart? {
      StartTurn(s, step.start, step.at);
    }
  }

  lemma StepControls(s: State, step: Step)
    requires Enabled(s, step)
    ensures Later(s.controls, Apply(s, step).controls)
  {
    hide OpenSession, StartCommand, BeginClose, Remember, AllSettled, AllConfirmed, AllFinished;
    if ControlStep(step) {
      hide Apply, Enabled;
      ControlTurn(s, step);
    } else if CloseStep(step) {
      hide Apply, Enabled;
      CloseTurn(s, step);
    } else if step.ReceiveClose? {
      BeginTurn(s, step.sessionId, false);
    } else if step.TimerFires? {
      BeginTurn(s.(timers := s.timers - {step.sessionId}), step.sessionId, true);
    } else if step.ReceiveOpen? {
      OpenTurn(s, step.open, step.at);
    } else if step.ReceiveStart? {
      StartTurn(s, step.start, step.at);
    }
  }

  lemma VerdictsStay(s: State, v: State, targets: set<nat>)
    requires Later(s.controls, v.controls)
    ensures AllSettled(s, targets) ==> AllSettled(v, targets)
    ensures AllConfirmed(s, targets) ==> AllConfirmed(v, targets)
    ensures AllFinished(s, targets) ==> AllFinished(v, targets)
  {
  }

  /** What a step may do to the closes and to the Commands they cover. */
  lemma StepPending(s: State, step: Step)
    requires Enabled(s, step) && Closes(s)
    ensures var v := Apply(s, step);
            && (forall id | id in s.closings && id in v.closings :: v.closings[id].targets == s.closings[id].targets)
            && (forall id | id !in s.closings && id in v.closings :: v.closings[id].targets == TargetsOf(s, id))
            && (forall c | c in v.commands && c in s.commands :: v.commands[c] == s.commands[c])
            && (forall c | c in v.commands && c !in s.commands :: step.ReceiveStart? && c == step.start.commandId)
  {
    hide OpenSession, StartCommand, BeginClose, Remember, AllSettled, AllConfirmed, AllFinished, Timed, Judged, Covered;
    if ControlStep(step) {
      hide Apply, Enabled;
      ControlTurn(s, step);
    } else if CloseStep(step) {
      hide Apply, Enabled;
      CloseTurn(s, step);
    } else if step.ReceiveClose? {
      BeginTurn(s, step.sessionId, false);
    } else if step.TimerFires? {
      BeginTurn(s.(timers := s.timers - {step.sessionId}), step.sessionId, true);
    } else if step.ReceiveOpen? {
      OpenTurn(s, step.open, step.at);
    } else if step.ReceiveStart? {
      StartTurn(s, step.start, step.at);
    }
  }

  /** A Command that is admitted belongs to a Session nobody is closing. */
  lemma AdmittedIsOpen(s: State, m: StartMessage, at: Readings)
    requires Guarded(s) && Admission(s, m, at).Some?
    ensures m.sessionId !in s.closings && m.sessionId in s.sessions
  {
  }

  lemma StepCovered(s: State, step: Step)
    requires Enabled(s, step) && Closes(s)
    ensures Covered(Apply(s, step))
  {
    hide Timed, Judged, Linked, Guarded, Apply, Enabled, Admission;
    var v := Apply(s, step);
    StepPending(s, step);
    StepControls(s, step);
    assert Linked(s);
    forall id, c | id in v.closings && c in v.commands && v.commands[c] < |v.controls| && v.controls[v.commands[c]].sessionId == id
      ensures v.commands[c] in v.closings[id].targets
    {
      if c in s.commands {
        CommandLinked(s, c);
      } else {
        StartedIsOpen(s, step, c);
      }
    }
    DropCovers(s, step);
  }

  lemma CommandLinked(s: State, c: CommandId)
    requires Linked(s) && c in s.commands
    ensures s.commands[c] < |s.controls|
  {
  }

  lemma StartedIsOpen(s: State, step: Step, c: CommandId)
    requires Enabled(s, step) && Closes(s) && step.ReceiveStart?
    requires c in Apply(s, step).commands && c !in s.commands
    ensures var v := Apply(s, step);
            v.commands[c] < |v.controls| && v.controls[v.commands[c]].sessionId !in v.closings
  {
    hide Covered, Judged, Timed, Admission;
    if Admission(s.(rows := s.rows + {step.start.commandId}), step.start, step.at).Some? {
      AdmittedIsOpen(s.(rows := s.rows + {step.start.commandId}), step.start, step.at);
    }
  }

  lemma DropCovers(s: State, step: Step)
    requires Enabled(s, step) && Closes(s)
    ensures var v := Apply(s, step);
            v.drop.Some? ==> forall c | c in v.commands :: v.commands[c] in v.drop.value.targets
  {
    hide OpenSession, StartCommand, BeginClose, Remember, AllSettled, AllConfirmed, AllFinished, Timed, Judged;
    if ControlStep(step) {
      hide Apply, Enabled;
      ControlTurn(s, step);
    } else if CloseStep(step) {
      hide Apply, Enabled;
      CloseTurn(s, step);
    } else if step.ReceiveClose? {
      BeginTurn(s, step.sessionId, false);
    } else if step.TimerFires? {
      BeginTurn(s.(timers := s.timers - {step.sessionId}), step.sessionId, true);
    } else if step.ReceiveOpen? {
      OpenTurn(s, step.open, step.at);
    } else if step.ReceiveStart? {
      StartTurn(s, step.start, step.at);
    }
  }

  lemma StepJudged(s: State, step: Step)
    requires Enabled(s, step) && Closes(s)
    ensures Judged(Apply(s, step))
  {
    hide Timed, Covered, Linked, Guarded, Apply, AllSettled, AllConfirmed, AllFinished;
    var v := Apply(s, step);
    StepControls(s, step);
    StepPhases(s, step);
    forall id | id in v.closings && id in s.closings
      ensures v.closings[id].phase == TimerCleared ==> AllSettled(v, v.closings[id].targets)
      ensures v.closings[id].phase == Waiting || v.closings[id].phase == Delivered ==> AllConfirmed(v, v.closings[id].targets)
      ensures v.closings[id].phase == Delivered ==> AllFinished(v, v.closings[id].targets)
    {
      VerdictsStay(s, v, s.closings[id].targets);
    }
    if s.drop.Some? {
      VerdictsStay(s, v, s.drop.value.targets);
    }
  }

  /** How a close and a drop move from phase to phase. */
  lemma StepPhases(s: State, step: Step)
    requires Enabled(s, step)
    ensures var v := Apply(s, step);
            && (forall id | id in v.closings && id !in s.closings :: v.closings[id].phase == Cancelling)
            && (forall id | id in v.closings && id in s.closings ::
                  var (before, after) := (s.closings[id], v.closings[id]);
                  && after.targets == before.targets
                  && (after.phase == before.phase
                      || (before.phase == Cancelling && after.phase == TimerCleared && AllSettled(s, before.targets))
                      || (before.phase == TimerCleared && after.phase == Waiting && AllConfirmed(s, before.targets))
                      || (before.phase == TimerCleared && after.phase == Unproved)
                      || (before.phase == Waiting && after.phase == Delivered && AllFinished(s, before.targets))))
            && (v.drop.Some? ==>
                  || (s.drop.None? && v.drop.value.phase == Cancelling)
                  || (s.drop.Some? && v.drop.value.targets == s.drop.value.targets
                      && (v.drop.value.phase == s.drop.value.phase || s.drop.value.phase != Cancelling || AllSettled(s, s.drop.value.targets))))
  {
    hide OpenSession, StartCommand, BeginClose, Remember, AllSettled, AllConfirmed, AllFinished;
    if ControlStep(step) {
      hide Apply, Enabled;
      ControlTurn(s, step);
    } else if CloseStep(step) {
      hide Apply, Enabled;
      CloseTurn(s, step);
    } else if step.ReceiveClose? {
      BeginTurn(s, step.sessionId, false);
    } else if step.TimerFires? {
      BeginTurn(s.(timers := s.timers - {step.sessionId}), step.sessionId, true);
    } else if step.ReceiveOpen? {
      OpenTurn(s, step.open, step.at);
    } else if step.ReceiveStart? {
      StartTurn(s, step.start, step.at);
    }
  }

  // ---------- Ceilings ----------

  ghost predicate SessionsWithin(s: State) {
    && |s.sessions| <= s.policy.maxConcurrentSessions
    && (forall id | id in s.sessions :: SessionWithin(s.policy, s.sessions[id]) && s.sessions[id].serial < s.serials)
  }

  ghost predicate CommandsWithin(s: State) {
    && (forall id: SessionId :: |CommandsOf(s, id)| <= s.policy.maxConcurrentCommands)
    && (forall k | 0 <= k < |s.controls| :: ControlWithin(s.policy, s.controls[k]))
  }

  ghost predicate WithinPolicy(s: State) {
    SessionsWithin(s) && CommandsWithin(s) && |s.closed| <= REMEMBERED_CLOSED_SESSIONS
  }

  /** A Session ends within the policy's duration of its opening and admits no more
      Commands than the policy. */
  predicate SessionWithin(policy: Policy, session: Session) {
    && session.openedAt < session.expiresAt <= session.openedAt + policy.maxSessionDurationSeconds * 1_000
    && session.contract.maxConcurrentCommands <= policy.maxConcurrentCommands
    && session.contract.organizationId == policy.organizationId
  }

  /** A Command is killed by the end of its Session and within the policy's timeout. */
  predicate ControlWithin(policy: Policy, control: Control) {
    && control.admittedAt < control.killAt <= control.sessionExpiresAt
    && control.killAt <= control.admittedAt + policy.maxCommandTimeoutSeconds * 1_000
  }

  lemma SecondsBound(milliseconds: int, maximum: nat)
    ensures Seconds(milliseconds) <= maximum ==> milliseconds <= maximum * 1_000
    ensures Seconds(milliseconds) > 0 <==> milliseconds > 0
  {
  }

  lemma CommandsSame(s: State, v: State, id: SessionId)
    requires v.commands == s.commands && v.controls == s.controls
    ensures CommandsOf(v, id) == CommandsOf(s, id)
  {
  }

  /** A Session that is admitted is within Local Policy. */
  lemma OpenedWithin(s: State, m: OpenMessage, at: Readings)
    requires m.sessionId !in s.sessions && m.sessionId in OpenSession(s, m, at).sessions
    ensures var session := OpenSession(s, m, at).sessions[m.sessionId];
            && OpenSession(s, m, at).sessions == s.sessions[m.sessionId := session]
            && SessionWithin(s.policy, session) && session.serial == s.serials
            && OpenSession(s, m, at).serials == s.serials + 1
            && |s.sessions| < s.policy.maxConcurrentSessions
  {
    hide AdjustedDeadline, Seconds;
    SecondsBound(OpenSession(s, m, at).sessions[m.sessionId].expiresAt - at.second, s.policy.maxSessionDurationSeconds);
  }

  lemma CommandsWithinFrame(s: State, v: State)
    requires CommandsWithin(s) && v.commands == s.commands && v.controls == s.controls && v.policy == s.policy
    ensures CommandsWithin(v)
  {
    hide CommandsOf;
    forall id: SessionId
      ensures CommandsOf(v, id) == CommandsOf(s, id)
    {
      CommandsSame(s, v, id);
    }
  }

  lemma SessionsAdd(s: State, v: State, id: SessionId, session: Session)
    requires SessionsWithin(s) && v.policy == s.policy && id !in s.sessions && v.sessions == s.sessions[id := session]
    requires SessionWithin(s.policy, session) && s.serials <= session.serial < v.serials && |s.sessions| < s.policy.maxConcurrentSessions
    ensures SessionsWithin(v)
  {
    assert v.sessions.Keys == s.sessions.Keys + {id};
  }

  lemma OpenWithin(s: State, m: OpenMessage, at: Readings)
    requires WithinPolicy(s)
    ensures WithinPolicy(OpenSession(s, m, at))
  {
    hide OpenSession, SessionsWithin, CommandsWithin, SessionWithin;
    var v := OpenSession(s, m, at);
    OpenTurn(s, m, at);
    CommandsWithinFrame(s, v);
    if v.sessions == s.sessions && v.serials == s.serials {
      SessionsSame(s, v);
    } else {
      OpenedWithin(s, m, at);
      SessionsAdd(s, v, m.sessionId, v.sessions[m.sessionId]);
    }
  }

  lemma SessionsSame(s: State, v: State)
    requires SessionsWithin(s) && v.sessions == s.sessions && v.serials == s.serials && v.policy == s.policy
    ensures SessionsWithin(v)
  {
  }

  lemma StartWithin(s: State, m: StartMessage, at: Readings)
    requires WithinPolicy(s) && Linked(s)
    ensures WithinPolicy(StartCommand(s, m, at))
  {
    hide CommandsOf, SessionWithin, CommandTimeout;
    var v := StartCommand(s, m, at);
    var s1 := s.(rows := s.rows + {m.commandId});
    var timeout := Admission(s1, m, at);
    CommandsSame(s, s1, m.sessionId);
    if m.commandId !in s.rows && timeout.Some? {
      TimeoutWithinAuthority(m.timeoutSeconds, s.policy.maxCommandTimeoutSeconds, s.sessions[m.sessionId].expiresAt, at.second);
      assert SessionWithin(s.policy, s.sessions[m.sessionId]);
      AdmitsWithinContract(s, m.sessionId);
    }
    forall id: SessionId
      ensures |CommandsOf(v, id)| <= s.policy.maxConcurrentCommands
    {
      if v.commands == s.commands {
        CommandsSame(s, v, id);
      } else {
        CommandsAdd(s, v, m.commandId, v.controls[|s.controls|], id);
      }
    }
  }

  lemma AdmitsWithinContract(s: State, id: SessionId)
    requires id in s.sessions && SessionWithin(s.policy, s.sessions[id])
    ensures s.sessions[id].contract.maxConcurrentCommands <= s.policy.maxConcurrentCommands
  {
  }

  lemma CommandsAdd(s: State, v: State, c: CommandId, control: Control, id: SessionId)
    requires Linked(s) && c !in s.commands
    requires v.controls == s.controls + [control] && v.commands == s.commands[c := |s.controls|]
    ensures CommandsOf(v, id) == CommandsOf(s, id) + if id == control.sessionId then {c} else {}
  {
  }

  /** What the other steps leave: no new Session, Command or limit. */
  lemma StepShrinks(s: State, step: Step)
    requires Enabled(s, step) && !step.ReceiveOpen? && !step.ReceiveStart?
    ensures var v := Apply(s, step);
            && v.policy == s.policy && v.serials == s.serials && v.sessions.Keys <= s.sessions.Keys
            && (forall id | id in v.sessions :: v.sessions[id] == s.sessions[id].(closing := v.sessions[id].closing))
            && (forall c | c in v.commands :: c in s.commands && v.commands[c] == s.commands[c])
            && |v.controls| == |s.controls|
            && (forall k | 0 <= k < |s.controls| ::
                  && v.controls[k].sessionId == s.controls[k].sessionId
                  && v.controls[k].killAt == s.controls[k].killAt
                  && v.controls[k].admittedAt == s.controls[k].admittedAt
                  && v.controls[k].sessionExpiresAt == s.controls[k].sessionExpiresAt)
            && (v.closed == s.closed || v.closed == Remember(s.closed, step.sessionId))
  {
    hide OpenSession, StartCommand, BeginClose, Remember, AllSettled, AllConfirmed, AllFinished;
    if ControlStep(step) {
      hide Apply, Enabled;
      ControlTurn(s, step);
    } else if CloseStep(step) {
      hide Apply, Enabled;
      CloseTurn(s, step);
    } else if step.ReceiveClose? {
      BeginTurn(s, step.sessionId, false);
    } else if step.TimerFires? {
      BeginTurn(s.(timers := s.timers - {step.sessionId}), step.sessionId, true);
    }
  }

  lemma StepWithin(s: State, step: Step)
    requires Enabled(s, step) && Linked(s) && WithinPolicy(s)
    ensures WithinPolicy(Apply(s, step))
  {
    hide Enabled, Linked, SessionWithin, ControlWithin, CommandsOf;
    if step.ReceiveOpen? {
      OpenWithin(s, step.open, step.at);
    } else if step.ReceiveStart? {
      StartWithin(s, step.start, step.at);
    } else {
      hide Apply;
      var v := Apply(s, step);
      StepShrinks(s, step);
      SubsetSize(v.sessions.Keys, s.sessions.Keys);
      forall id | id in v.sessions
        ensures SessionWithin(s.policy, v.sessions[id])
      {
        WithinIgnoresClosing(s.policy, s.sessions[id], v.sessions[id]);
      }
      forall k | 0 <= k < |v.controls|
        ensures ControlWithin(s.policy, v.controls[k])
      {
        WithinIgnoresProgress(s.policy, s.controls[k], v.controls[k]);
      }
      forall id: SessionId
        ensures |CommandsOf(v, id)| <= s.policy.maxConcurrentCommands
      {
        CommandsShrink(s, v, id);
        SubsetSize(CommandsOf(v, id), CommandsOf(s, id));
      }
    }
  }

  lemma WithinIgnoresClosing(policy: Policy, before: Session, after: Session)
    requires SessionWithin(policy, before) && after == before.(closing := after.closing)
    ensures SessionWithin(policy, after)
  {
  }

  lemma WithinIgnoresProgress(policy: Policy, before: Control, after: Control)
    requires ControlWithin(policy, before)
    requires after.killAt == before.killAt && after.admittedAt == before.admittedAt && after.sessionExpiresAt == before.sessionExpiresAt
    ensures ControlWithin(policy, after)
  {
  }

  lemma CommandsShrink(s: State, v: State, id: SessionId)
    requires forall c | c in v.commands :: c in s.commands && v.commands[c] == s.commands[c]
    requires |v.controls| == |s.controls|
    requires forall k | 0 <= k < |s.controls| :: v.controls[k].sessionId == s.controls[k].sessionId
    ensures CommandsOf(v, id) <= CommandsOf(s, id)
  {
  }

  // ---------- Fixed deadlines ----------

  /** A Session of `after` that is not newer than `before` is one of its Sessions, with the
      same contract and the same deadline. */
  ghost predicate DeadlinesKept(before: State, after: State) {
    && before.serials <= after.serials
    && (forall id | id in after.sessions && after.sessions[id].serial < before.serials ::
          && id in before.sessions
          && after.sessions[id] == before.sessions[id].(closing := after.sessions[id].closing)
          && (before.sessions[id].closing ==> after.sessions[id].closing))
  }

  lemma StepKeepsDeadlines(s: State, step: Step)
    requires Enabled(s, step)
    ensures DeadlinesKept(s, Apply(s, step))
  {
    hide OpenSession, StartCommand, BeginClose, Remember, AllSettled, AllConfirmed, AllFinished;
    if ControlStep(step) {
      hide Apply, Enabled;
      ControlTurn(s, step);
    } else if CloseStep(step) {
      hide Apply, Enabled;
      CloseTurn(s, step);
    } else if step.ReceiveClose? {
      BeginTurn(s, step.sessionId, false);
    } else if step.TimerFires? {
      BeginTurn(s.(timers := s.timers - {step.sessionId}), step.sessionId, true);
    } else if step.ReceiveOpen? {
      OpenTurn(s, step.open, step.at);
    } else if step.ReceiveStart? {
      StartTurn(s, step.start, step.at);
    }
  }

  // ---------- Runs ----------

  ghost predicate Invariant(s: State) {
    Closes(s) && WithinPolicy(s)
  }

  lemma StepKeepsInvariant(s: State, step: Step)
    requires Enabled(s, step) && Invariant(s)
    ensures Invariant(Apply(s, step))
  {
    hide Linked, Guarded, Timed, Covered, Judged, Apply, Enabled, WithinPolicy;
    StepLinked(s, step);
    StepGuarded(s, step);
    StepTimed(s, step);
    StepCovered(s, step);
    StepJudged(s, step);
    StepWithin(s, step);
  }

  lemma InitialInvariant(policy: Policy, profileId: string)
    ensures Invariant(InitialState(policy, profileId))
  {
    assert forall id :: CommandsOf(InitialState(policy, profileId), id) == {};
  }

  lemma {:induction false} RunKeepsInvariant(s: State, steps: seq<Step>)
    requires Invariant(s) && IsRun(s, steps)
    ensures Invariant(After(s, steps))
    decreases |steps|
  {
    hide Invariant, Enabled, Apply;
    if steps != [] {
      StepKeepsInvariant(s, steps[0]);
      RunKeepsInvariant(Apply(s, steps[0]), steps[1..]);
    }
  }

  lemma ReachableInvariant(s: State)
    requires Reachable(s)
    ensures Invariant(s)
  {
    hide Invariant;
    var policy, profileId, steps :|
      IsRun(InitialState(policy, profileId), steps) && After(InitialState(policy, profileId), steps) == s;
    InitialInvariant(policy, profileId);
    RunKeepsInvariant(InitialState(policy, profileId), steps);
  }

  // ---------- The theorems ----------

  /** In every reachable state the open Sessions, the pending Commands of each Session,
      each deadline and each kill time are within Local Policy. */
  lemma PolicyCeilings(s: State, id: SessionId, c: CommandId)
    requires Reachable(s)
    ensures |s.sessions| <= s.policy.maxConcurrentSessions
    ensures |CommandsOf(s, id)| <= s.policy.maxConcurrentCommands
    ensures id in s.sessions ==> SessionWithin(s.policy, s.sessions[id])
    ensures c in s.commands ==> s.commands[c] < |s.controls| && ControlWithin(s.policy, s.controls[s.commands[c]])
  {
    ReachableInvariant(s);
  }

  /** An open is confirmed exactly when the Client then holds the Session as asked for and
      is not closing it, and called closed exactly when the Client remembers the close. */
  lemma OpenRepliesTellTruth(s: State, m: OpenMessage, at: Readings) returns (reply: Reply)
    ensures var v := OpenSession(s, m, at);
            var (id, ours) := (m.sessionId, s.profileId == m.contract.clientProfileId);
            && v.replies == s.replies + [reply] && reply.sessionId == id && !reply.Closed?
            && (reply.Opened? <==> ours && id !in s.closed && id in v.sessions && !v.sessions[id].closing && v.sessions[id].contract == m.contract)
            && (reply.AlreadyClosed? <==> ours && id in s.closed)
  {
    hide AdjustedDeadline, Seconds, LocalSessionDecision;
    var id := m.sessionId;
    if s.profileId != m.contract.clientProfileId {
      reply := OpenFailed(id);
    } else if id in s.closed {
      reply := AlreadyClosed(id);
    } else if id in s.sessions {
      reply := if s.sessions[id].closing || s.sessions[id].contract != m.contract then OpenFailed(id) else Opened(id);
    } else {
      reply := if id in OpenSession(s, m, at).sessions then Opened(id) else OpenFailed(id);
    }
  }

  /** Over every run a Session object keeps its contract and its deadline, whatever
      messages and retries arrive. */
  lemma {:induction false} DeadlineNeverMoves(s: State, steps: seq<Step>)
    requires IsRun(s, steps)
    ensures DeadlinesKept(s, After(s, steps))
    decreases |steps|
  {
    hide Enabled, Apply;
    if steps != [] {
      StepKeepsDeadlines(s, steps[0]);
      DeadlineNeverMoves(Apply(s, steps[0]), steps[1..]);
    }
  }

  /** When a close reports `session.closed`, every cancellation it issued is confirmed and
      no Command of the Session is pending. */
  lemma ClosedMeansTerminated(s: State, id: SessionId)
    requires Reachable(s) && Enabled(s, CloseDelivers(id))
    ensures AllConfirmed(s, s.closings[id].targets) && AllFinished(s, s.closings[id].targets)
    ensures CommandsOf(s, id) == {}
  {
    ReachableInvariant(s);
    forall c | c in CommandsOf(s, id)
      ensures false
    {
      assert false;
    }
  }

  /** While a Session is being closed no message starts a Command of it or opens it again. */
  lemma NothingStartsWhileClosing(s: State, step: Step, id: SessionId)
    requires Reachable(s) && Enabled(s, step) && id in s.closings
    ensures CommandsOf(Apply(s, step), id) <= CommandsOf(s, id)
    ensures id in Apply(s, step).sessions ==> id in s.sessions && Apply(s, step).sessions[id].closing
  {
    hide WithinPolicy, Covered, Timed, Judged, CommandsOf, Admission;
    ReachableInvariant(s);
    if step.ReceiveStart? {
      StartsElsewhere(s, step.start, step.at, id);
    } else if step.ReceiveOpen? {
      OpensElsewhere(s, step.open, step.at, id);
    } else {
      hide Apply;
      var v := Apply(s, step);
      StepShrinks(s, step);
      CommandsShrink(s, v, id);
      StepKeepsDeadlines(s, step);
      SessionIsKnown(s, v, id);
    }
  }

  lemma SessionIsKnown(s: State, v: State, id: SessionId)
    requires WithinPolicy(s) && Guarded(s) && id in s.closings && DeadlinesKept(s, v)
    requires v.sessions.Keys <= s.sessions.Keys
    requires forall x | x in v.sessions :: v.sessions[x] == s.sessions[x].(closing := v.sessions[x].closing)
    ensures id in v.sessions ==> id in s.sessions && v.sessions[id].closing
  {
  }

  lemma StartsElsewhere(s: State, m: StartMessage, at: Readings, id: SessionId)
    requires Guarded(s) && Linked(s) && id in s.closings
    ensures StartCommand(s, m, at).sessions == s.sessions
    ensures CommandsOf(StartCommand(s, m, at), id) == CommandsOf(s, id)
    ensures id in s.sessions ==> s.sessions[id].closing
  {
    hide CommandsOf, Admission;
    var v := StartCommand(s, m, at);
    var s1 := s.(rows := s.rows + {m.commandId});
    if m.commandId !in s.rows && Admission(s1, m, at).Some? {
      AdmittedIsOpen(s1, m, at);
      CommandsAdd(s, v, m.commandId, v.controls[|s.controls|], id);
    } else {
      CommandsSame(s, v, id);
    }
  }

  lemma OpensElsewhere(s: State, m: OpenMessage, at: Readings, id: SessionId)
    requires Guarded(s) && id in s.closings && !s.stopped && s.task == Idle
    ensures CommandsOf(OpenSession(s, m, at), id) == CommandsOf(s, id)
    ensures id in s.sessions && s.sessions[id].closing
    ensures id in OpenSession(s, m, at).sessions && OpenSession(s, m, at).sessions[id] == s.sessions[id]
  {
    hide CommandsOf;
    CommandsSame(s, OpenSession(s, m, at), id);
  }

  /** When `dropLocalAuthority` ends nothing is pending any more, and each of its
      cancellations has settled. */
  lemma DropTerminates(s: State)
    requires Reachable(s) && Enabled(s, DropEnds)
    ensures s.commands == map[] && s.stopped
    ensures AllSettled(s, s.drop.value.targets)
  {
    ReachableInvariant(s);
    forall c | c in s.commands
      ensures false
    {
      assert false;
    }
  }
}
