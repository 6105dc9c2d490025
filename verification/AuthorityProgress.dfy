/** What brings a close to its end: which closes under way still can end without stopping
    the Client, and a run that ends them. */
module AuthorityProgress {
  import opened Wire
  import opened Authority
  import opened AuthorityBounds

  // ---------- Building runs ----------

  lemma {:induction false} RunConcat(s: State, a: seq<Step>, b: seq<Step>)
    requires IsRun(s, a) && IsRun(After(s, a), b)
    ensures IsRun(s, a + b) && After(s, a + b) == After(After(s, a), b)
    decreases |a|
  {
    hide Enabled, Apply;
    if a == [] {
      assert a + b == b;
    } else {
      assert (a + b)[1..] == a[1..] + b;
      RunConcat(Apply(s, a[0]), a[1..], b);
    }
  }

  lemma RunOne(s: State, step: Step)
    requires Enabled(s, step)
    ensures IsRun(s, [step]) && After(s, [step]) == Apply(s, step)
  {
    hide Enabled, Apply;
    assert IsRun(Apply(s, step), []) && After(Apply(s, step), []) == Apply(s, step);
    assert [step][1..] == [];
  }

  lemma RunNone(s: State)
    ensures IsRun(s, []) && After(s, []) == s
  {
  }

  lemma RunPush(s: State, steps: seq<Step>, step: Step)
    requires IsRun(s, steps) && Enabled(After(s, steps), step)
    ensures IsRun(s, steps + [step]) && After(s, steps + [step]) == Apply(After(s, steps), step)
  {
    hide IsRun, After, Enabled, Apply;
    RunOne(After(s, steps), step);
    RunConcat(s, steps, [step]);
  }

  lemma ReachableRun(s: State, steps: seq<Step>)
    requires Reachable(s) && IsRun(s, steps)
    ensures Reachable(After(s, steps))
  {
    hide IsRun, After;
    var policy, profileId, before :|
      IsRun(InitialState(policy, profileId), before) && After(InitialState(policy, profileId), before) == s;
    RunConcat(InitialState(policy, profileId), before, steps);
  }

  lemma InitialReachable(policy: Policy, profileId: string)
    ensures Reachable(InitialState(policy, profileId))
  {
    RunNone(InitialState(policy, profileId));
  }

  // ---------- What the end of a close needs ----------

  /** A close knows the Session object that is still held under its identifier. */
  ghost predicate Matched(s: State) {
    forall id | id in s.closings && id in s.sessions :: s.closings[id].session == Some(s.sessions[id].serial)
  }

  predicate IsAsked(c: Control) {
    c.cancelRequested && c.cancellation != NotAsked
  }

  /** A close has asked each of its PendingCommands to cancel. */
  ghost predicate Asking(s: State) {
    forall id | id in s.closings :: AskedAll(s, s.closings[id].targets)
  }

  ghost predicate AskedAll(s: State, targets: set<nat>) {
    forall k | k in targets :: k < |s.controls| && IsAsked(s.controls[k])
  }

  /** An unfinished PendingCommand is the one registered for its Command. */
  ghost predicate RegisteredAt(s: State, k: nat)
    requires k < |s.controls|
  {
    var c := s.controls[k];
    !c.finished ==> c.commandId in s.commands && s.commands[c.commandId] == k
  }

  ghost predicate Registered(s: State) {
    s.stopped || forall k | 0 <= k < |s.controls| :: RegisteredAt(s, k)
  }

  ghost predicate NoRepeats(ids: seq<SessionId>) {
    forall i, j | 0 <= i < j < |ids| :: ids[i] != ids[j]
  }

  ghost predicate Attended(s: State) {
    && Invariant(s) && Matched(s) && Asking(s) && Registered(s) && NoRepeats(s.closed)
  }

  lemma StepMatched(s: State, step: Step)
    requires Enabled(s, step) && Closes(s) && Matched(s)
    ensures Matched(Apply(s, step))
  {
    hide OpenSession, StartCommand, BeginClose, Remember, AllSettled, AllConfirmed, AllFinished, Covered, Judged, Linked, Timed, TargetsOf, CancelAll;
    if ControlStep(step) {
      hide Apply, Enabled;
      ControlTurn(s, step);
    } else if CloseStep(step) {
      hide Apply, Enabled;
      CloseTurn(s, step);
    } else if step.ReceiveClose? {
      BegunMatched(s, step.sessionId, false);
    } else if step.TimerFires? {
      BegunMatched(s.(timers := s.timers - {step.sessionId}), step.sessionId, true);
    } else if step.ReceiveOpen? {
      OpenTurn(s, step.open, step.at);
    } else if step.ReceiveStart? {
      StartTurn(s, step.start, step.at);
    }
  }

  lemma BegunMatched(s: State, id: SessionId, byTimer: bool)
    requires Matched(s)
    ensures Matched(BeginClose(s, id, byTimer))
  {
    hide Remember, TargetsOf, CancelAll;
  }

  /** Nothing that was asked of a PendingCommand is taken back. */
  ghost predicate StillAsked(before: seq<Control>, after: seq<Control>) {
    && |before| <= |after|
    && (forall k | 0 <= k < |before| && IsAsked(before[k]) :: IsAsked(after[k]))
  }

  lemma StepStillAsked(s: State, step: Step)
    requires Enabled(s, step)
    ensures StillAsked(s.controls, Apply(s, step).controls)
  {
    hide OpenSession, StartCommand, Remember, AllSettled, AllConfirmed, AllFinished, TargetsOf;
    if step.ReceiveOpen? {
      OpenTurn(s, step.open, step.at);
    } else if step.ReceiveStart? {
      StartTurn(s, step.start, step.at);
    }
  }

  lemma StepAsking(s: State, step: Step)
    requires Enabled(s, step) && Closes(s) && Asking(s)
    ensures Asking(Apply(s, step))
  {
    hide Closes, Apply, Enabled, TargetsOf, IsAsked;
    var v := Apply(s, step);
    StepStillAsked(s, step);
    StepPending(s, step);
    forall id | id in v.closings
      ensures AskedAll(v, v.closings[id].targets)
    {
      if id !in s.closings {
        BegunAsks(s, step, id);
      } else {
        assert AskedAll(s, s.closings[id].targets);
      }
    }
  }

  lemma BegunAsks(s: State, step: Step, id: SessionId)
    requires Enabled(s, step) && id !in s.closings && id in Apply(s, step).closings
    ensures AskedAll(Apply(s, step), Apply(s, step).closings[id].targets)
  {
    hide OpenSession, StartCommand, Remember, AllSettled, AllConfirmed, AllFinished;
    if step.ReceiveOpen? {
      OpenTurn(s, step.open, step.at);
    } else if step.ReceiveStart? {
      StartTurn(s, step.start, step.at);
    }
  }

  lemma StepRegistered(s: State, step: Step)
    requires Enabled(s, step) && Closes(s) && Registered(s)
    ensures Registered(Apply(s, step))
  {
    hide OpenSession, StartCommand, BeginClose, Remember, AllSettled, AllConfirmed, AllFinished, Covered, Judged, Timed, TargetsOf, Evolves;
    if ControlStep(step) {
      hide Apply, Enabled;
      ControlTurn(s, step);
      EvolvesRegistered(s, Apply(s, step));
    } else if CloseStep(step) {
      hide Apply, Enabled;
      CloseTurn(s, step);
      EvolvesNothing(s.controls);
      EvolvesRegistered(s, Apply(s, step));
    } else if step.ReceiveClose? {
      BeginTurn(s, step.sessionId, false);
      EvolvesRegistered(s, Apply(s, step));
    } else if step.TimerFires? {
      BeginTurn(s.(timers := s.timers - {step.sessionId}), step.sessionId, true);
      EvolvesRegistered(s, Apply(s, step));
    } else if step.ReceiveOpen? {
      OpenTurn(s, step.open, step.at);
      EvolvesNothing(s.controls);
      EvolvesRegistered(s, Apply(s, step));
    } else if step.ReceiveStart? {
      StartRegistered(s, step.start, step.at);
    } else if step.CommandEnds? {
      EndRegistered(s, step.commandId);
    } else if step.ReceiveCancel? {
      CancelRegistered(s, step.commandId);
    } else if !s.stopped {
      EvolvesNothing(s.controls);
      EvolvesRegistered(s, Apply(s, step));
    }
  }

  lemma CancelRegistered(s: State, id: CommandId)
    requires Registered(s)
    ensures Registered(CancelCommand(s, id))
  {
    EvolvesNothing(s.controls);
    EvolvesRegistered(s, CancelCommand(s, id));
  }

  lemma EvolvesNothing(controls: seq<Control>)
    ensures forall k | 0 <= k < |controls| :: Evolves(controls[k], controls[k])
  {
  }

  /** PendingCommands that keep their identity and do not finish stay registered. */
  lemma EvolvesRegistered(s: State, v: State)
    requires Registered(s) && v.commands == s.commands && (s.stopped ==> v.stopped) && |v.controls| == |s.controls|
    requires forall k | 0 <= k < |s.controls| ::
               Evolves(s.controls[k], v.controls[k]) && v.controls[k].finished == s.controls[k].finished
    ensures Registered(v)
  {
    if !s.stopped {
      forall k | 0 <= k < |v.controls|
        ensures RegisteredAt(v, k)
      {
        assert RegisteredAt(s, k) && Evolves(s.controls[k], v.controls[k]);
      }
    }
  }

  lemma StartRegistered(s: State, m: StartMessage, at: Readings)
    requires Registered(s) && Linked(s) && !s.stopped
    ensures Registered(StartCommand(s, m, at))
  {
    hide Admission;
    var v := StartCommand(s, m, at);
    forall k | 0 <= k < |v.controls|
      ensures RegisteredAt(v, k)
    {
      if k < |s.controls| {
        assert RegisteredAt(s, k);
      }
    }
  }

  lemma EndRegistered(s: State, id: CommandId)
    requires Registered(s) && id in s.commands && s.commands[id] < |s.controls|
    ensures Registered(EndCommand(s, id))
  {
    var v := EndCommand(s, id);
    if !v.stopped {
      forall k | 0 <= k < |v.controls|
        ensures RegisteredAt(v, k)
      {
        assert RegisteredAt(s, k);
      }
    }
  }

  lemma RememberRepeatsNothing(closed: seq<SessionId>, id: SessionId)
    requires NoRepeats(closed)
    ensures NoRepeats(Remember(closed, id))
  {
    var longer := if id in closed then closed else closed + [id];
    assert NoRepeats(longer);
    assert longer != [] ==> forall i | 0 <= i < |longer[1..]| :: longer[1..][i] == longer[i + 1];
  }

  lemma StepNoRepeats(s: State, step: Step)
    requires Enabled(s, step) && NoRepeats(s.closed)
    ensures NoRepeats(Apply(s, step).closed)
  {
    hide OpenSession, StartCommand, AllSettled, AllConfirmed, AllFinished, TargetsOf, CancelAll, Remember, NoRepeats;
    if step.ReceiveClose? || step.TimerFires? {
      RememberRepeatsNothing(s.closed, step.sessionId);
    } else if step.ReceiveOpen? {
      OpenTurn(s, step.open, step.at);
    } else if step.ReceiveStart? {
      StartTurn(s, step.start, step.at);
    }
  }

  lemma StepKeepsAttended(s: State, step: Step)
    requires Enabled(s, step) && Attended(s)
    ensures Attended(Apply(s, step))
  {
    hide Closes, WithinPolicy, Apply, Enabled, Matched, Asking, Registered, NoRepeats;
    AuthorityBounds.StepKeepsInvariant(s, step);
    StepMatched(s, step);
    StepAsking(s, step);
    StepRegistered(s, step);
    StepNoRepeats(s, step);
  }

  lemma {:induction false} RunKeepsAttended(s: State, steps: seq<Step>)
    requires Attended(s) && IsRun(s, steps)
    ensures Attended(After(s, steps))
    decreases |steps|
  {
    hide Attended, Enabled, Apply;
    if steps != [] {
      StepKeepsAttended(s, steps[0]);
      RunKeepsAttended(Apply(s, steps[0]), steps[1..]);
    }
  }

  lemma ReachableAttended(s: State)
    requires Reachable(s)
    ensures Attended(s)
  {
    hide IsRun, After, Invariant;
    var policy, profileId, steps :|
      IsRun(InitialState(policy, profileId), steps) && After(InitialState(policy, profileId), steps) == s;
    AuthorityBounds.InitialInvariant(policy, profileId);
    RunKeepsAttended(InitialState(policy, profileId), steps);
  }

  // ---------- Steps that settle ----------

  /** The steps that bring closes and Commands under way to their end. */
  predicate Settles(step: Step) {
    || step.CommandTimesOut? || step.ProcessStarts? || step.StartAbandoned? || step.CancelSettles? || step.CancelReturns?
    || step.CommandEnds? || step.CloseSettles? || step.CloseJudges? || step.CloseDelivers? || step.CloseEnds?
  }

  predicate AllSettle(steps: seq<Step>) {
    forall i | 0 <= i < |steps| :: Settles(steps[i])
  }

  /** The close was begun or joined by a timer and can no longer prove termination: its end
      stops the Client. */
  predicate Doomed(s: State, id: SessionId) {
    && id in s.closings && s.closings[id].byTimer
    && (|| s.closings[id].phase == Unproved
        || ((s.closings[id].phase == Cancelling || s.closings[id].phase == TimerCleared) && AnyRefused(s, s.closings[id].targets)))
  }

  predicate AnyRefused(s: State, targets: set<nat>) {
    exists k | k in targets :: k < |s.controls| && s.controls[k].cancellation == Refused
  }

  /** PendingCommands moved on, and no cancellation was refused. */
  ghost predicate Moves(before: seq<Control>, after: seq<Control>) {
    && |after| == |before|
    && StillAsked(before, after)
    && (forall k | 0 <= k < |before| ::
          Evolves(before[k], after[k]) && (after[k].cancellation == Refused ==> before[k].cancellation == Refused))
  }

  lemma MovesTrans(a: seq<Control>, b: seq<Control>, c: seq<Control>)
    requires Moves(a, b) && Moves(b, c)
    ensures Moves(a, c)
  {
    assert forall k | 0 <= k < |a| :: Evolves(a[k], b[k]) && Evolves(b[k], c[k]);
  }

  lemma MovesNothing(controls: seq<Control>)
    ensures Moves(controls, controls)
  {
  }

  /** Only PendingCommands moved on. */
  ghost predicate Aside(s: State, v: State) {
    v == s.(controls := v.controls, commands := v.commands) && Moves(s.controls, v.controls)
  }

  lemma AsideTrans(a: State, b: State, c: State)
    requires Aside(a, b) && Aside(b, c)
    ensures Aside(a, c)
  {
    MovesTrans(a.controls, b.controls, c.controls);
  }

  lemma RefusedStays(s: State, v: State, targets: set<nat>)
    requires Moves(s.controls, v.controls)
    ensures AnyRefused(v, targets) <==> AnyRefused(s, targets)
  {
    assert forall k | 0 <= k < |s.controls| :: Evolves(s.controls[k], v.controls[k]);
  }

  /** A run of settling steps, one after the other. */
  lemma SettlePush(s: State, steps: seq<Step>, step: Step)
    requires IsRun(s, steps) && AllSettle(steps) && Enabled(After(s, steps), step) && Settles(step)
    ensures IsRun(s, steps + [step]) && After(s, steps + [step]) == Apply(After(s, steps), step) && AllSettle(steps + [step])
  {
    hide IsRun, After, Enabled, Apply, Settles;
    RunPush(s, steps, step);
  }

  lemma SettleConcat(s: State, a: seq<Step>, b: seq<Step>)
    requires IsRun(s, a) && IsRun(After(s, a), b) && AllSettle(a) && AllSettle(b)
    ensures IsRun(s, a + b) && After(s, a + b) == After(After(s, a), b) && AllSettle(a + b)
  {
    hide IsRun, After, Settles;
    RunConcat(s, a, b);
  }

  /** A cancellation that was asked for can be settled, and confirmed unless it was refused. */
  lemma SettleTarget(s: State, k: nat) returns (steps: seq<Step>)
    requires k < |s.controls| && IsAsked(s.controls[k])
    ensures IsRun(s, steps) && AllSettle(steps)
    ensures Aside(s, After(s, steps)) && IsSettledAt(After(s, steps), k)
  {
    hide IsRun, After;
    steps := [];
    RunNone(s);
    MovesNothing(s.controls);
    var v := s;
    if !Settled(s.controls[k]) {
      if s.controls[k].ready == Unsettled {
        SettlePush(s, steps, StartAbandoned(k));
        steps := [StartAbandoned(k)];
        v := Apply(s, StartAbandoned(k));
        assert [] + steps == steps;
      }
      SettlePush(s, steps, CancelSettles(k, true));
      steps := steps + [CancelSettles(k, true)];
    }
  }

  predicate IsSettledAt(s: State, k: nat) {
    k < |s.controls| && Settled(s.controls[k])
  }

  lemma {:induction false} SettleTargets(s: State, targets: set<nat>) returns (steps: seq<Step>)
    requires forall k | k in targets :: k < |s.controls| && IsAsked(s.controls[k])
    ensures IsRun(s, steps) && AllSettle(steps)
    ensures Aside(s, After(s, steps)) && AllSettled(After(s, steps), targets)
    decreases |targets|
  {
    hide IsRun, After, Settled, IsAsked, Evolves;
    if targets == {} {
      steps := [];
      RunNone(s);
      MovesNothing(s.controls);
    } else {
      var k :| k in targets;
      var a := SettleTarget(s, k);
      var v := After(s, a);
      var b := SettleTargets(v, targets - {k});
      steps := a + b;
      SettleConcat(s, a, b);
      AsideTrans(s, v, After(v, b));
      SettledStays(v, After(v, b), k);
    }
  }

  lemma SettledStays(s: State, v: State, k: nat)
    requires IsSettledAt(s, k) && Aside(s, v)
    ensures IsSettledAt(v, k)
  {
    assert Evolves(s.controls[k], v.controls[k]);
  }

  /** A PendingCommand whose cancellation is confirmed can finish. */
  lemma FinishTarget(s: State, k: nat) returns (steps: seq<Step>)
    requires Attended(s) && !s.stopped && k < |s.controls| && s.controls[k].cancellation == Confirmed
    ensures IsRun(s, steps) && AllSettle(steps)
    ensures Aside(s, After(s, steps)) && After(s, steps).controls[k].finished
  {
    hide IsRun, After, Invariant, Matched, Asking, NoRepeats;
    steps := [];
    RunNone(s);
    MovesNothing(s.controls);
    if !s.controls[k].finished {
      var c := s.controls[k].commandId;
      assert RegisteredAt(s, k);
      SettlePush(s, steps, CommandEnds(c));
      steps := [CommandEnds(c)];
      assert [] + steps == steps;
    }
  }

  lemma {:induction false} FinishTargets(s: State, targets: set<nat>) returns (steps: seq<Step>)
    requires Attended(s) && !s.stopped && AllConfirmed(s, targets)
    ensures IsRun(s, steps) && AllSettle(steps)
    ensures Aside(s, After(s, steps)) && AllFinished(After(s, steps), targets)
    decreases |targets|
  {
    hide IsRun, After, Evolves, Attended;
    if targets == {} {
      steps := [];
      RunNone(s);
      MovesNothing(s.controls);
    } else {
      var k :| k in targets;
      var a := FinishTarget(s, k);
      var v := After(s, a);
      RunKeepsAttended(s, a);
      ConfirmedStays(s, v, targets);
      var b := FinishTargets(v, targets - {k});
      steps := a + b;
      SettleConcat(s, a, b);
      AsideTrans(s, v, After(v, b));
      FinishedStays(v, After(v, b), k);
    }
  }

  lemma ConfirmedStays(s: State, v: State, targets: set<nat>)
    requires AllConfirmed(s, targets) && Aside(s, v)
    ensures AllConfirmed(v, targets)
  {
    assert forall k | 0 <= k < |s.controls| :: Evolves(s.controls[k], v.controls[k]);
  }

  lemma FinishedStays(s: State, v: State, k: nat)
    requires k < |s.controls| && s.controls[k].finished && Aside(s, v)
    ensures v.controls[k].finished
  {
    assert Evolves(s.controls[k], v.controls[k]);
  }

  // ---------- The end of a close ----------

  /** The close is over, with the Session it found; nothing else has ended. */
  ghost predicate Over(s: State, v: State, id: SessionId) {
    && v == s.(controls := v.controls, commands := v.commands, closings := s.closings - {id}, sessions := s.sessions - {id},
               timers := v.timers, replies := v.replies, task := if s.task == AwaitClose(id) then Idle else s.task)
    && Moves(s.controls, v.controls)
  }

  /** The close moved on to another phase. */
  ghost predicate Nearer(s: State, v: State, id: SessionId, phase: Phase)
    requires id in s.closings
  {
    && v == s.(controls := v.controls, commands := v.commands, closings := s.closings[id := s.closings[id].(phase := phase)],
               timers := v.timers, replies := v.replies)
    && Moves(s.controls, v.controls)
  }

  lemma NearerTrans(a: State, b: State, c: State, id: SessionId, p: Phase, q: Phase)
    requires id in a.closings && Nearer(a, b, id, p) && Nearer(b, c, id, q)
    ensures Nearer(a, c, id, q)
  {
    MovesTrans(a.controls, b.controls, c.controls);
    assert a.closings[id := a.closings[id].(phase := p)][id := a.closings[id].(phase := q)] == a.closings[id := a.closings[id].(phase := q)];
  }

  lemma AsideIsNearer(s: State, v: State, id: SessionId)
    requires Aside(s, v) && id in s.closings
    ensures Nearer(s, v, id, s.closings[id].phase)
  {
    assert s.closings[id := s.closings[id]] == s.closings;
  }

  lemma CloseTurnIsNearer(s: State, step: Step)
    requires Enabled(s, step) && CloseStep(step) && !step.CloseEnds?
    ensures step.sessionId in s.closings && step.sessionId in Apply(s, step).closings
    ensures Nearer(s, Apply(s, step), step.sessionId, Apply(s, step).closings[step.sessionId].phase)
  {
    hide Apply, Enabled, AllSettled, AllConfirmed, AllFinished;
    CloseTurn(s, step);
    MovesNothing(s.controls);
  }

  /** One more step of the close after a run. */
  lemma NearerPush(s: State, steps: seq<Step>, step: Step, id: SessionId, phase: Phase)
    requires id in s.closings && IsRun(s, steps) && AllSettle(steps) && Nearer(s, After(s, steps), id, phase)
    requires Enabled(After(s, steps), step) && CloseStep(step) && !step.CloseEnds? && step.sessionId == id
    ensures IsRun(s, steps + [step]) && AllSettle(steps + [step])
    ensures var v := After(s, steps + [step]);
            v == Apply(After(s, steps), step) && id in v.closings && Nearer(s, v, id, v.closings[id].phase)
  {
    hide IsRun, After, Apply, Enabled, Nearer;
    var u := After(s, steps);
    SettlePush(s, steps, step);
    CloseTurnIsNearer(u, step);
    NearerTrans(s, u, Apply(u, step), id, phase, Apply(u, step).closings[id].phase);
  }

  /** Settled cancellations are all confirmed unless one was refused. */
  lemma JudgedBy(s: State, v: State, targets: set<nat>)
    requires AllSettled(v, targets) && Moves(s.controls, v.controls) && forall k | k in targets :: k < |s.controls|
    ensures AllConfirmed(v, targets) <==> !AnyRefused(s, targets)
  {
    RefusedStays(s, v, targets);
  }

  lemma ClearedIsSettled(s: State, id: SessionId)
    requires Invariant(s) && InPhase(s, id, TimerCleared)
    ensures AllSettled(s, s.closings[id].targets)
  {
  }

  /** The cancellations of the close settle, and it is judged. */
  lemma JudgeClose(s: State, id: SessionId) returns (steps: seq<Step>)
    requires Attended(s) && id in s.closings && (s.closings[id].phase == Cancelling || s.closings[id].phase == TimerCleared)
    ensures IsRun(s, steps) && AllSettle(steps)
    ensures Nearer(s, After(s, steps), id, if AnyRefused(s, s.closings[id].targets) then Unproved else Waiting)
  {
    hide IsRun, After, Invariant, Matched, Registered, NoRepeats, IsAsked, Moves, AllConfirmed, AnyRefused, Settled;
    steps := [];
    RunNone(s);
    MovesNothing(s.controls);
    AsideIsNearer(s, s, id);
    var targets := s.closings[id].targets;
    assert AskedAll(s, targets);
    if s.closings[id].phase == Cancelling {
      steps := SettleTargets(s, targets);
      var v := After(s, steps);
      AsideIsNearer(s, v, id);
      NearerPush(s, steps, CloseSettles(id), id, Cancelling);
      steps := steps + [CloseSettles(id)];
    } else {
      ClearedIsSettled(s, id);
    }
    var v := After(s, steps);
    assert AllSettled(v, targets) && Moves(s.controls, v.controls) && id in v.closings && v.closings[id].targets == targets;
    JudgedBy(s, v, targets);
    NearerPush(s, steps, CloseJudges(id), id, TimerCleared);
    steps := steps + [CloseJudges(id)];
  }

  /** A judged close with every cancellation confirmed is reported. */
  lemma ReportClose(s: State, id: SessionId) returns (steps: seq<Step>)
    requires Attended(s) && !s.stopped && InPhase(s, id, Waiting)
    ensures IsRun(s, steps) && AllSettle(steps)
    ensures Nearer(s, After(s, steps), id, Delivered)
  {
    hide IsRun, After, Matched, Registered, Asking, NoRepeats, Moves, AllConfirmed, AllFinished, AllSettled;
    var targets := s.closings[id].targets;
    steps := FinishTargets(s, targets);
    AsideIsNearer(s, After(s, steps), id);
    NearerPush(s, steps, CloseDelivers(id), id, Waiting);
    steps := steps + [CloseDelivers(id)];
  }

  /** The `finally` block of a close that does not stop the Client. */
  lemma FinallyClose(s: State, id: SessionId)
    requires Matched(s) && !s.stopped && (InPhase(s, id, Delivered) || (InPhase(s, id, Unproved) && !s.closings[id].byTimer))
    ensures Enabled(s, CloseEnds(id)) && Over(s, Apply(s, CloseEnds(id)), id)
  {
    MovesNothing(s.controls);
    assert id !in s.sessions ==> s.sessions - {id} == s.sessions;
  }

  lemma NearerOver(a: State, b: State, c: State, id: SessionId, phase: Phase)
    requires id in a.closings && Nearer(a, b, id, phase) && Over(b, c, id)
    ensures Over(a, c, id)
  {
    hide Moves;
    MovesTrans(a.controls, b.controls, c.controls);
    assert a.closings[id := a.closings[id].(phase := phase)] - {id} == a.closings - {id};
  }

  /** A close that is not doomed can end, and with it the Session it found. */
  lemma EndsClose(s: State, id: SessionId) returns (steps: seq<Step>)
    requires Attended(s) && !s.stopped && id in s.closings && !Doomed(s, id)
    ensures IsRun(s, steps) && AllSettle(steps)
    ensures Over(s, After(s, steps), id)
  {
    hide IsRun, After, Attended, Over, Nearer, AnyRefused, Moves;
    var phase := s.closings[id].phase;
    steps := [];
    RunNone(s);
    SelfNearer(s, id);
    if phase == Cancelling || phase == TimerCleared {
      steps := JudgeClose(s, id);
      phase := if AnyRefused(s, s.closings[id].targets) then Unproved else Waiting;
      PhaseOf(s, After(s, steps), id, phase);
    }
    var v := After(s, steps);
    RunKeepsAttended(s, steps);
    if phase == Waiting {
      var more := ReportClose(v, id);
      SettleConcat(s, steps, more);
      NearerTrans(s, v, After(v, more), id, Waiting, Delivered);
      steps, v, phase := steps + more, After(v, more), Delivered;
      RunKeepsAttended(s, steps);
    }
    PhaseOf(s, v, id, phase);
    assert Matched(v) by { AttendedMatches(v); }
    FinallyClose(v, id);
    SettlePush(s, steps, CloseEnds(id));
    NearerOver(s, v, Apply(v, CloseEnds(id)), id, phase);
    steps := steps + [CloseEnds(id)];
  }

  lemma SelfNearer(s: State, id: SessionId)
    requires id in s.closings
    ensures Nearer(s, s, id, s.closings[id].phase)
  {
    MovesNothing(s.controls);
    AsideIsNearer(s, s, id);
  }

  lemma AttendedMatches(s: State)
    requires Attended(s)
    ensures Matched(s)
  {
  }

  lemma PhaseOf(s: State, v: State, id: SessionId, phase: Phase)
    requires id in s.closings && Nearer(s, v, id, phase)
    ensures InPhase(v, id, phase) && v.stopped == s.stopped && v.closings[id].byTimer == s.closings[id].byTimer
  {
  }

  // ---------- All closes that can end ----------

  /** Every close in `ids` is over, and no other one. */
  ghost predicate AllOver(s: State, v: State, ids: set<SessionId>) {
    && v == s.(controls := v.controls, commands := v.commands, closings := s.closings - ids, sessions := s.sessions - ids,
               timers := v.timers, replies := v.replies)
    && Moves(s.controls, v.controls)
  }

  lemma DoomIsKept(s: State, v: State, id: SessionId)
    requires Moves(s.controls, v.controls) && id in s.closings && id in v.closings && v.closings[id] == s.closings[id]
    ensures Doomed(v, id) <==> Doomed(s, id)
  {
    hide AnyRefused, Moves;
    RefusedStays(s, v, s.closings[id].targets);
  }

  lemma {:induction false} EndsAll(s: State, ids: set<SessionId>) returns (steps: seq<Step>)
    requires Attended(s) && !s.stopped && s.task == Idle
    requires forall id | id in ids :: id in s.closings && !Doomed(s, id)
    ensures IsRun(s, steps) && AllSettle(steps)
    ensures AllOver(s, After(s, steps), ids)
    decreases |ids|
  {
    hide IsRun, After, Attended, Doomed, Moves;
    if ids == {} {
      steps := [];
      RunNone(s);
      MovesNothing(s.controls);
      assert s.closings - {} == s.closings && s.sessions - {} == s.sessions;
    } else {
      var id :| id in ids;
      var a := EndsClose(s, id);
      var v := After(s, a);
      RunKeepsAttended(s, a);
      forall x | x in ids - {id}
        ensures x in v.closings && !Doomed(v, x)
      {
        DoomIsKept(s, v, x);
      }
      var b := EndsAll(v, ids - {id});
      steps := a + b;
      SettleConcat(s, a, b);
      MovesTrans(s.controls, v.controls, After(v, b).controls);
      assert s.closings - {id} - (ids - {id}) == s.closings - ids;
      assert s.sessions - {id} - (ids - {id}) == s.sessions - ids;
    }
  }
}
