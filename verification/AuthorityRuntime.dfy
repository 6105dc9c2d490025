/** The objects that hold a Client's authority (apps/client/src/index.ts,
    apps/client/src/command-control.ts), proved against the functions of Authority. */
module AuthorityRuntime {
  import opened Wire
  import A = Authority
  import B = AuthorityBounds
  import T = AuthorityTurns

  /** One Command between its admission and its end. */
  class PendingCommand {
    const commandId: CommandId
    const sessionId: SessionId
    const sessionExpiresAt: int
    const admittedAt: int
    const killAt: int
    var cancelRequested: bool
    var ready: A.Ready
    var cancellation: A.Cancellation
    var finished: bool

    constructor (commandId: CommandId, sessionId: SessionId, sessionExpiresAt: int, admittedAt: int, killAt: int)
      ensures Control() == A.Control(commandId, sessionId, sessionExpiresAt, admittedAt, killAt, false, A.Unsettled, A.NotAsked, false)
    {
      this.commandId, this.sessionId, this.sessionExpiresAt := commandId, sessionId, sessionExpiresAt;
      this.admittedAt, this.killAt := admittedAt, killAt;
      cancelRequested, ready, cancellation, finished := false, A.Unsettled, A.NotAsked, false;
    }

    function Control(): A.Control
      reads this
    {
      A.Control(commandId, sessionId, sessionExpiresAt, admittedAt, killAt, cancelRequested, ready, cancellation, finished)
    }

    /** Fails, for an error, when the start was already settled. */
    method Attach() returns (attached: bool)
      modifies this`ready
      ensures attached == (old(ready) == A.Unsettled)
      ensures Control() == if attached then A.Attach(old(Control())) else old(Control())
    {
      attached := ready == A.Unsettled;
      if attached {
        ready := A.Started;
      }
    }

    /** Afterwards no process can be registered any more; one that already is stays so. */
    method FailStart()
      modifies this`ready
      ensures Control() == A.FailStart(old(Control())) && B.Evolves(old(Control()), Control())
      ensures ready != A.Unsettled && (old(ready) == A.Started <==> ready == A.Started)
      ensures A.FailStart(Control()) == Control()
    {
      if ready != A.Unsettled {
        return;
      }
      ready := A.NotStarted;
    }

    /** Asks for the cancellation; a later call shares the first one's outcome, also one that
        has already settled. */
    method Cancel()
      modifies this`cancelRequested, this`cancellation
      ensures Control() == A.AskCancel(old(Control())) && B.Evolves(old(Control()), Control())
      ensures cancelRequested && cancellation != A.NotAsked
      ensures old(cancellation) != A.NotAsked ==> cancellation == old(cancellation)
      ensures A.AskCancel(Control()) == Control()
    {
      cancelRequested := true;
      if cancellation == A.NotAsked {
        cancellation := A.Asked;
      }
    }

    /** The end of the Command: nothing can be registered any more, a cancellation still under
        way can settle, and its verdict is not touched. */
    method MarkFinished()
      modifies this`ready, this`finished
      ensures Control() == A.MarkFinished(old(Control())) && B.Evolves(old(Control()), Control())
      ensures finished && ready != A.Unsettled && cancellation == old(cancellation)
      ensures A.MarkFinished(Control()) == Control()
    {
      FailStart();
      finished := true;
    }
  }

  class LocalAuthority {
    const policy: A.Policy
    const profileId: string
    var sessions: map<SessionId, A.Session>
    var serials: nat
    var closedSessions: seq<SessionId>
    var closingSessions: map<SessionId, A.Close>
    var controls: seq<A.Control>
    var commands: map<CommandId, nat>
    var rows: set<CommandId>
    var timers: set<SessionId>
    var task: A.Task
    var stopped: bool
    var drop: Option<A.Drop>
    var replies: seq<A.Reply>

    constructor (policy: A.Policy, profileId: string)
      ensures Valid() && State() == A.InitialState(policy, profileId)
    {
      B.InitialInvariant(policy, profileId);
      this.policy, this.profileId := policy, profileId;
      sessions, serials, closedSessions, closingSessions := map[], 0, [], map[];
      controls, commands, rows, timers := [], map[], {}, {};
      task, stopped, drop, replies := A.Idle, false, None, [];
    }

    function State(): A.State
      reads this
    {
      A.State(policy, profileId, sessions, serials, closedSessions, closingSessions, controls, commands, rows,
              timers, task, stopped, drop, replies)
    }

    method Deliver(reply: A.Reply)
      modifies this`replies
      ensures State() == A.Answer(old(State()), reply)
    {
      replies := replies + [reply];
    }

    /** Sessions, Commands, deadlines and closes are in order. */
    ghost predicate Valid()
      reads this
    {
      B.Invariant(State())
    }

    /** The checks of an open and, when they pass, the Session; returns the reply to send. */
    method TryOpen(m: A.OpenMessage, at: A.Readings) returns (reply: A.Reply)
      modifies this`sessions, this`serials, this`timers
      ensures A.Answer(State(), reply) == A.OpenSession(old(State()), m, at)
      ensures m.sessionId !in old(sessions) ==> (m.sessionId in sessions <==> T.Openable(old(State()), m, at))
      ensures m.sessionId !in old(sessions) && m.sessionId in sessions ==>
                && sessions[m.sessionId].contract == m.contract
                && sessions[m.sessionId].expiresAt == at.first + T.TimeLeft(m, at.first)
    {
      hide A.AdjustedDeadline, A.Seconds, T.Openable, T.TimeLeft, T.Readable;
      if m.sessionId !in sessions {
        T.OpenedExactly(State(), m, at);
      }
      var id := m.sessionId;
      if profileId != m.contract.clientProfileId {
        return A.OpenFailed(id);
      }
      if id in closedSessions {
        return A.AlreadyClosed(id);
      }
      if id in sessions {
        var existing := sessions[id];
        if existing.closing || existing.contract != m.contract {
          return A.OpenFailed(id);
        }
        return A.Opened(id);
      }
      var deadline := A.AdjustedDeadline(m.contract.expiresAt, m.serverTime, at.first);
      if deadline.None? {
        return A.OpenFailed(id);
      }
      var duration := A.Seconds(deadline.value - at.second);
      var decision := A.LocalSessionDecision(policy, m.contract.organizationId, duration, |sessions|,
                                             m.contract.maxConcurrentCommands);
      if decision != A.Allowed || duration <= 0 {
        return A.OpenFailed(id);
      }
      timers := timers + {id};
      sessions := sessions[id := A.Session(m.contract, deadline.value, at.second, false, serials)];
      serials := serials + 1;
      reply := A.Opened(id);
    }

    /** Handled while no other message is.  The reply says whether the Session is held as asked
        for or remembered as closed; a Session that is already held keeps its deadline; any
        other one is opened exactly when it is openable, for the time its contract leaves. */
    method OpenSession(m: A.OpenMessage, at: A.Readings)
      requires Valid() && !stopped && task == A.Idle
      modifies this
      ensures Valid() && State() == A.OpenSession(old(State()), m, at)
      ensures sessions - {m.sessionId} == old(sessions) - {m.sessionId}
      ensures m.sessionId in old(sessions) ==> sessions == old(sessions)
      ensures |sessions| <= policy.maxConcurrentSessions
      ensures m.sessionId in sessions ==> B.SessionWithin(policy, sessions[m.sessionId])
      ensures m.sessionId !in old(sessions) ==> (m.sessionId in sessions <==> T.Openable(old(State()), m, at))
      ensures m.sessionId !in old(sessions) && m.sessionId in sessions ==>
                sessions[m.sessionId].expiresAt == at.first + T.TimeLeft(m, at.first)
      ensures |replies| == |old(replies)| + 1 && old(replies) <= replies
      ensures var (id, ours, reply) := (m.sessionId, profileId == m.contract.clientProfileId, replies[|old(replies)|]);
              && reply.sessionId == id && !reply.Closed?
              && (reply.Opened? <==>
                    ours && id !in closedSessions && id in sessions && !sessions[id].closing && sessions[id].contract == m.contract)
              && (reply.AlreadyClosed? <==> ours && id in closedSessions)
    {
      hide B.Invariant, B.SessionWithin, A.OpenSession, T.Openable, T.TimeLeft;
      OpenKeeps(State(), m, at);
      ghost var answer := B.OpenRepliesTellTruth(State(), m, at);
      var reply := TryOpen(m, at);
      Deliver(reply);
    }

    /** Remembers the close of one more Session and forgets at most the oldest one, only
        when there is no more room. */
    method Remember(id: SessionId)
      requires |closedSessions| <= A.REMEMBERED_CLOSED_SESSIONS
      modifies this`closedSessions
      ensures closedSessions == A.Remember(old(closedSessions), id)
      ensures id in closedSessions && |closedSessions| <= 1_000
      ensures forall x | x in closedSessions :: x == id || x in old(closedSessions)
      ensures forall i | 0 <= i < |old(closedSessions)| ::
                || old(closedSessions)[i] in closedSessions
                || (i == 0 && |old(closedSessions)| == 1_000 && id !in old(closedSessions))
    {
      ghost var before := closedSessions;
      assert (before + [id])[|before|] == id;
      assert forall i | 0 < i < |before| :: before[i] == (before + [id])[1..][i - 1];
      if id !in closedSessions {
        closedSessions := closedSessions + [id];
      }
      if |closedSessions| > A.REMEMBERED_CLOSED_SESSIONS {
        closedSessions := closedSessions[1..];
      }
    }

    /** Asks every PendingCommand of `targets` to cancel. */
    method CancelAll(targets: set<nat>)
      requires forall k | k in targets :: k < |controls|
      modifies this`controls
      ensures controls == A.CancelAll(old(controls), targets)
    {
      var remaining := targets;
      while remaining != {}
        invariant remaining <= targets && |controls| == |old(controls)|
        invariant forall k | 0 <= k < |controls| ::
            controls[k] == if k in targets && k !in remaining then A.AskCancel(old(controls)[k]) else old(controls)[k]
        decreases remaining
      {
        var k :| k in remaining;
        controls := controls[k := A.AskCancel(controls[k])];
        remaining := remaining - {k};
      }
    }

    /** The first turn of a close. */
    method CloseSession(id: SessionId, byTimer: bool)
      requires |closedSessions| <= A.REMEMBERED_CLOSED_SESSIONS
      modifies this
      ensures State() == A.BeginClose(old(State()), id, byTimer)
      ensures id in old(closingSessions) ==>
                && sessions == old(sessions) && controls == old(controls) && closedSessions == old(closedSessions)
                && closingSessions - {id} == old(closingSessions) - {id}
                && closingSessions[id].phase == old(closingSessions)[id].phase
                && (closingSessions[id].byTimer <==> byTimer || old(closingSessions)[id].byTimer)
    {
      hide A.Remember, A.TargetsOf, A.CancelAll;
      if id in closingSessions {
        closingSessions := closingSessions[id := closingSessions[id].(byTimer := closingSessions[id].byTimer || byTimer)];
        return;
      }
      var targets := A.TargetsOf(State(), id);
      Remember(id);
      var session := if id in sessions then Some(sessions[id].serial) else None;
      if id in sessions {
        sessions := sessions[id := sessions[id].(closing := true)];
      }
      CancelAll(targets);
      closingSessions := closingSessions[id := A.Close(session, targets, byTimer, A.Cancelling)];
    }

    /** `session.close`: the queue waits for the close, and until then no message can start a
        Command of the Session or open it again.  A close that begins here asks every pending
        Command of the Session to cancel. */
    method HandleClose(id: SessionId)
      requires Valid() && !stopped && task == A.Idle
      modifies this
      ensures Valid() && State() == A.Apply(old(State()), A.ReceiveClose(id))
      ensures task == A.AwaitClose(id) && id in closingSessions
      ensures id in sessions ==> sessions[id].closing
      ensures id !in old(closingSessions) ==> id in closedSessions
      ensures id !in old(closingSessions) ==>
                forall c | c in A.CommandsOf(State(), id) ::
                  commands[c] in closingSessions[id].targets && controls[commands[c]].cancelRequested
    {
      hide B.Invariant, A.Remember, A.BeginClose;
      CloseKeeps(State(), id);
      CloseSession(id, false);
      task := A.AwaitClose(id);
    }

    /** The `finally` block of a close.  The queue goes on; a close that was reported leaves no
        Command of the Session pending; a timer's close that could not prove termination stops
        the Client. */
    method EndClose(id: SessionId)
      requires Valid() && A.Enabled(State(), A.CloseEnds(id))
      modifies this
      ensures Valid() && State() == A.EndClose(old(State()), id)
      ensures id !in closingSessions && closingSessions == old(closingSessions) - {id}
      ensures sessions - {id} == old(sessions) - {id} && sessions.Keys <= old(sessions.Keys)
      ensures id in sessions ==> Some(sessions[id].serial) != old(closingSessions)[id].session
      ensures old(task) == A.AwaitClose(id) ==> task == A.Idle
      ensures old(closingSessions)[id].phase == A.Delivered ==> A.CommandsOf(State(), id) == {}
      ensures stopped <==> old(stopped) || (old(closingSessions)[id].byTimer && old(closingSessions)[id].phase == A.Unproved)
    {
      hide B.Invariant, A.CommandsOf;
      EndKeeps(State(), id);
      var closing := closingSessions[id];
      if id in sessions && closing.session == Some(sessions[id].serial) {
        sessions := sessions - {id};
      }
      closingSessions := closingSessions - {id};
      if task == A.AwaitClose(id) {
        task := A.Idle;
      }
      if closing.byTimer && closing.phase == A.Unproved {
        stopped := true;
      }
    }

    /** The checks of a Command's start and, when it is admitted, its PendingCommand.  Handled
        while no other message is.  A known Command changes nothing; an admitted one is killed
        by the end of its Session and within Local Policy, and its Session is not closing.  A
        Command that is not pending is admitted exactly when it is startable. */
    method StartCommand(m: A.StartMessage, at: A.Readings)
      requires Valid() && !stopped && task == A.Idle
      modifies this
      ensures Valid() && State() == A.StartCommand(old(State()), m, at)
      ensures m.commandId in rows && sessions == old(sessions)
      ensures m.commandId in old(rows) ==> State() == old(State())
      ensures forall c | c in commands && c !in old(commands) ::
                && c == m.commandId && commands[c] < |controls|
                && m.sessionId in sessions && m.sessionId !in closingSessions
                && controls[commands[c]].sessionId == m.sessionId
                && controls[commands[c]].sessionExpiresAt == sessions[m.sessionId].expiresAt
                && B.ControlWithin(policy, controls[commands[c]])
      ensures |A.CommandsOf(State(), m.sessionId)| <= policy.maxConcurrentCommands
      ensures m.commandId !in old(commands) ==> (m.commandId in commands <==> T.Startable(old(State()), m, at))
      ensures m.commandId !in old(commands) && m.commandId in commands ==>
                controls[commands[m.commandId]].killAt == Min(at.second + m.timeoutSeconds * 1_000, sessions[m.sessionId].expiresAt)
    {
      hide B.Invariant, A.CommandsOf, B.ControlWithin, A.CommandTimeout, T.Startable;
      StartKeeps(State(), m, at);
      if m.commandId !in commands {
        T.AdmittedExactly(State(), m, at);
      }
      if m.commandId in rows {
        return;
      }
      rows := rows + {m.commandId};
      if m.sessionId !in sessions || sessions[m.sessionId].closing || sessions[m.sessionId].expiresAt <= at.first {
        return;
      }
      var session := sessions[m.sessionId];
      if |A.CommandsOf(State(), m.sessionId)| >= session.contract.maxConcurrentCommands {
        return;
      }
      var maximumOutputBytes := Min(m.maxOutputBytes, policy.maxCommandOutputBytes);
      var timeout := A.CommandTimeout(m.timeoutSeconds, policy.maxCommandTimeoutSeconds, session.expiresAt, at.second);
      if maximumOutputBytes < 1 || timeout <= 0 || session.expiresAt <= at.third {
        return;
      }
      var control := A.Control(m.commandId, m.sessionId, session.expiresAt, at.second, at.second + timeout,
                               false, A.Unsettled, A.NotAsked, false);
      commands := commands[m.commandId := |controls|];
      controls := controls + [control];
    }
  }

  lemma OpenKeeps(s: A.State, m: A.OpenMessage, at: A.Readings)
    requires B.Invariant(s) && !s.stopped && s.task == A.Idle
    ensures var v := A.OpenSession(s, m, at);
            && B.Invariant(v) && |v.sessions| <= s.policy.maxConcurrentSessions
            && (m.sessionId in v.sessions ==> B.SessionWithin(s.policy, v.sessions[m.sessionId]))
            && v.sessions - {m.sessionId} == s.sessions - {m.sessionId} && v.closed == s.closed
            && (m.sessionId in s.sessions ==> v.sessions == s.sessions)
  {
    hide B.Linked, B.Guarded, B.Timed, B.Covered, B.Judged, B.CommandsWithin, B.SessionWithin, A.OpenSession;
    B.StepKeepsInvariant(s, A.ReceiveOpen(m, at));
    B.OpenTurn(s, m, at);
  }

  lemma CloseKeeps(s: A.State, id: SessionId)
    requires B.Invariant(s) && !s.stopped && s.task == A.Idle
    ensures |s.closed| <= A.REMEMBERED_CLOSED_SESSIONS
    ensures var v := A.Apply(s, A.ReceiveClose(id));
            && B.Invariant(v) && id in v.closings && (id !in s.closings ==> id in v.closed)
            && (id in v.sessions ==> v.sessions[id].closing)
            && (id !in s.closings ==>
                  forall c | c in A.CommandsOf(v, id) ::
                    v.commands[c] in v.closings[id].targets && v.controls[v.commands[c]].cancelRequested)
  {
    hide B.Timed, B.Covered, B.Judged, B.SessionsWithin, B.CommandsWithin;
    B.StepKeepsInvariant(s, A.ReceiveClose(id));
    assert (s.closed + [id])[|s.closed|] == id;
  }

  lemma EndKeeps(s: A.State, id: SessionId)
    requires B.Invariant(s) && A.Enabled(s, A.CloseEnds(id))
    ensures B.Invariant(A.EndClose(s, id))
    ensures s.closings[id].phase == A.Delivered ==> A.CommandsOf(A.EndClose(s, id), id) == {}
  {
    hide B.WithinPolicy;
    B.StepKeepsInvariant(s, A.CloseEnds(id));
    if s.closings[id].phase == A.Delivered {
      forall c | c in A.CommandsOf(s, id)
        ensures false
      {
        assert false;
      }
    }
  }

  lemma StartKeeps(s: A.State, m: A.StartMessage, at: A.Readings)
    requires B.Invariant(s) && !s.stopped && s.task == A.Idle
    ensures var v := A.StartCommand(s, m, at);
            && B.Invariant(v)
            && |A.CommandsOf(v, m.sessionId)| <= s.policy.maxConcurrentCommands
            && (forall c | c in v.commands && c !in s.commands ::
                  && c == m.commandId && v.commands[c] < |v.controls|
                  && m.sessionId in s.sessions && m.sessionId !in s.closings
                  && v.controls[v.commands[c]].sessionId == m.sessionId
                  && v.controls[v.commands[c]].sessionExpiresAt == s.sessions[m.sessionId].expiresAt
                  && B.ControlWithin(s.policy, v.controls[v.commands[c]]))
  {
    hide B.Timed, B.Covered, B.Judged, A.CommandsOf, A.CommandTimeout, B.SessionWithin;
    B.StepKeepsInvariant(s, A.ReceiveStart(m, at));
    var s1 := s.(rows := s.rows + {m.commandId});
    if m.commandId !in s.rows && A.Admission(s1, m, at).Some? {
      B.AdmittedIsOpen(s1, m, at);
    }
  }
}
