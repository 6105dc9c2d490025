/** The Server's Session rows, the Command rows that belong to them, and the transactions
    that change both (apps/server/src/session-database.ts).  Each transaction is one
    atomic function of the tables. */
module SessionDatabase {
  import opened Wire
  import S = ServerCommands

  datatype SessionStatus =
    | PendingApproval
    | Opening
    | Active
    | CancellationRequested
    | Completed
    | Cancelled
    | Revoked
    | Expired
    | Failed

  datatype SessionRow = SessionRow(
    organizationId: string,
    agentId: string,
    machineId: string,
    clientProfileId: string,
    operatingSystemUser: string,
    status: SessionStatus,
    createdAt: int,
    readyAt: Option<int>,
    expiresAt: int,
    finishedAt: Option<int>)

  datatype Tables = Tables(sessions: map<SessionId, SessionRow>, commands: map<CommandId, S.CommandRow>)

  predicate Terminal(status: SessionStatus) {
    status in {Completed, SessionStatus.Cancelled, Revoked, Expired, SessionStatus.Failed}
  }

  /** The statuses that count against a Machine and that a revocation ends. */
  predicate ActiveSession(status: SessionStatus) {
    status == PendingApproval || status == Opening || status == Active
  }

  function Rank(status: SessionStatus): nat {
    match status
    case PendingApproval => 0
    case Opening => 1
    case Active => 2
    case CancellationRequested => 3
    case _ => 4
  }

  // ---------- Transactions on one Session ----------

  datatype Verdict = NotFound | Conflict | Approved(changed: bool) | Denied

  function Decide(t: Tables, organizationId: string, id: SessionId, approve: bool, at: int): (r: (Tables, Verdict)) {
    if id !in t.sessions || t.sessions[id].organizationId != organizationId then (t, NotFound)
    else
      var row := t.sessions[id];
      if approve && (row.status == Opening || row.status == Active) then (t, Approved(false))
      else if row.status != PendingApproval then (t, Conflict)
      else if row.expiresAt <= at then
        (t.(sessions := t.sessions[id := row.(status := Expired, finishedAt := Some(at))]), Conflict)
      else if approve then
        (t.(sessions := t.sessions[id := row.(status := Opening, expiresAt := at + row.expiresAt - row.createdAt)]), Approved(true))
      else
        (t.(sessions := t.sessions[id := row.(status := SessionStatus.Cancelled, finishedAt := Some(at))]), Denied)
  }

  /** The active Commands of some Sessions. */
  function ActiveCommands(t: Tables, ids: set<SessionId>): set<CommandId> {
    set c | c in t.commands && t.commands[c].sessionId in ids && S.Active(t.commands[c])
  }

  function CancelCommands(t: Tables, ids: set<SessionId>): Tables {
    t.(commands := map c | c in t.commands ::
         if t.commands[c].sessionId in ids then S.RequestCancellation(t.commands[c]) else t.commands[c])
  }

  datatype FinishResult = SessionNotFound | CommandsActive | Finished(commandIds: set<CommandId>)

  function Finish(t: Tables, organizationId: string, agentId: string, id: SessionId, complete: bool, at: int): (r: (Tables, FinishResult)) {
    if id !in t.sessions || t.sessions[id].organizationId != organizationId || t.sessions[id].agentId != agentId then
      (t, SessionNotFound)
    else
      var row := t.sessions[id];
      var active := ActiveCommands(t, {id});
      if Terminal(row.status) then (t, Finished({}))
      else if complete && active != {} then (t, CommandsActive)
      else
        var t1 := if complete then t else CancelCommands(t, {id});
        (t1.(sessions := t.sessions[id := if complete then row.(status := Completed, finishedAt := Some(at))
                                          else row.(status := CancellationRequested)]),
         Finished(active))
  }

  function MarkOpened(t: Tables, id: SessionId, organizationId: string, machineId: string, clientProfileId: string,
                      operatingSystemUser: string, at: int): Tables {
    if id in t.sessions && t.sessions[id].organizationId == organizationId && t.sessions[id].machineId == machineId
       && t.sessions[id].clientProfileId == clientProfileId && t.sessions[id].operatingSystemUser == operatingSystemUser
       && t.sessions[id].status == Opening
    then t.(sessions := t.sessions[id := t.sessions[id].(status := Active, readyAt := Some(at))])
    else t
  }

  function MarkFailed(t: Tables, id: SessionId, organizationId: string, machineId: string, at: int): Tables {
    if id in t.sessions && t.sessions[id].organizationId == organizationId && t.sessions[id].machineId == machineId
       && t.sessions[id].status == Opening
    then t.(sessions := t.sessions[id := t.sessions[id].(status := SessionStatus.Failed, finishedAt := Some(at))])
    else t
  }

  function MarkClosed(t: Tables, id: SessionId, organizationId: string, machineId: string, reason: string, at: int): Tables {
    if id in t.sessions && t.sessions[id].organizationId == organizationId && t.sessions[id].machineId == machineId
       && t.sessions[id].status in {Opening, Active, CancellationRequested}
    then t.(sessions := t.sessions[id := t.sessions[id].(status := if reason == "expired" then Expired else SessionStatus.Cancelled,
                                                         finishedAt := Some(at))])
    else t
  }

  // ---------- Transactions on many Sessions ----------

  /** The opening and active Sessions whose time is up. */
  function Overdue(t: Tables, now: int): set<SessionId> {
    set id | id in t.sessions && t.sessions[id].status in {Opening, Active} && t.sessions[id].expiresAt <= now
  }

  function ExpireRow(row: SessionRow, now: int): SessionRow {
    if row.expiresAt > now then row
    else if row.status == PendingApproval then row.(status := Expired, finishedAt := Some(now))
    else if row.status == Opening || row.status == Active then row.(status := CancellationRequested)
    else row
  }

  function Expire(t: Tables, now: int): Tables {
    CancelCommands(t, Overdue(t, now)).(sessions := map id | id in t.sessions :: ExpireRow(t.sessions[id], now))
  }

  predicate InScope(row: SessionRow, organizationId: string, agentId: Option<string>, machineId: Option<string>) {
    && row.organizationId == organizationId
    && ActiveSession(row.status)
    && (agentId.Some? ==> row.agentId == agentId.value)
    && (machineId.Some? ==> row.machineId == machineId.value)
  }

  function Scope(t: Tables, organizationId: string, agentId: Option<string>, machineId: Option<string>): set<SessionId> {
    set id | id in t.sessions && InScope(t.sessions[id], organizationId, agentId, machineId)
  }

  function RevokeAll(t: Tables, ids: set<SessionId>, now: int): Tables {
    CancelCommands(t, ids).(sessions := map id | id in t.sessions ::
      if id in ids then t.sessions[id].(status := Revoked, finishedAt := Some(now)) else t.sessions[id])
  }

  /** Needs an Agent or a Machine; None stands for the error without one. */
  function Revoke(t: Tables, organizationId: string, agentId: Option<string>, machineId: Option<string>, now: int): Option<Tables> {
    if agentId.None? && machineId.None? then None
    else Some(RevokeAll(t, Scope(t, organizationId, agentId, machineId), now))
  }

  // ---------- Every step ----------

  datatype Step =
    | CreateSession(id: SessionId, row: SessionRow)
    | CreateCommand(commandId: CommandId, sessionId: SessionId)
    | DecideS(id: SessionId, organizationId: string, approve: bool, at: int)
    | FinishS(id: SessionId, organizationId: string, agentId: string, complete: bool, at: int)
    | OpenedS(id: SessionId, organizationId: string, machineId: string, clientProfileId: string, operatingSystemUser: string, at: int)
    | FailedS(id: SessionId, organizationId: string, machineId: string, at: int)
    | ClosedS(id: SessionId, organizationId: string, machineId: string, reason: string, at: int)
    | CommandS(commandId: CommandId, step: S.CommandStep)
    | ExpireS(at: int)
    | RevokeS(organizationId: string, agent: Option<string>, machine: Option<string>, at: int)

  /** A row as `requestSession` inserts it. */
  predicate Fresh(row: SessionRow) {
    (row.status == PendingApproval || row.status == Opening) && row.finishedAt.None? && row.readyAt.None?
  }

  predicate Enabled(t: Tables, s: Step) {
    && (s.CreateSession? ==> s.id !in t.sessions && Fresh(s.row))
    && (s.CreateCommand? ==> s.commandId !in t.commands)
  }

  function Apply(t: Tables, s: Step): Tables
    requires Enabled(t, s)
  {
    match s
    case CreateSession(id, row) => t.(sessions := t.sessions[id := row])
    case CreateCommand(c, sessionId) => t.(commands := t.commands[c := S.NewCommand(sessionId)])
    case DecideS(id, organizationId, approve, at) => Decide(t, organizationId, id, approve, at).0
    case FinishS(id, organizationId, agentId, complete, at) => Finish(t, organizationId, agentId, id, complete, at).0
    case OpenedS(id, organizationId, machineId, clientProfileId, user, at) =>
      MarkOpened(t, id, organizationId, machineId, clientProfileId, user, at)
    case FailedS(id, organizationId, machineId, at) => MarkFailed(t, id, organizationId, machineId, at)
    case ClosedS(id, organizationId, machineId, reason, at) => MarkClosed(t, id, organizationId, machineId, reason, at)
    case CommandS(c, step) =>
      if c in t.commands then t.(commands := t.commands[c := S.Advance(t.commands[c], step)]) else t
    case ExpireS(at) => Expire(t, at)
    case RevokeS(organizationId, agentId, machineId, at) => Revoke(t, organizationId, agentId, machineId, at).GetOr(t)
  }

  ghost predicate IsRun(t: Tables, steps: seq<Step>)
    decreases |steps|
  {
    steps == [] || (Enabled(t, steps[0]) && IsRun(Apply(t, steps[0]), steps[1..]))
  }

  function After(t: Tables, steps: seq<Step>): Tables
    requires IsRun(t, steps)
    decreases |steps|
  {
    if steps == [] then t else After(Apply(t, steps[0]), steps[1..])
  }

  // ---------- Progress ----------

  predicate SessionTimed(row: SessionRow) {
    row.finishedAt.Some? <==> Terminal(row.status)
  }

  predicate CommandTimed(row: S.CommandRow) {
    row.finishedAt.Some? <==> row.status.Terminal?
  }

  /** `finishedAt` is set exactly on terminal rows. */
  ghost predicate Timed(t: Tables) {
    && (forall id | id in t.sessions :: SessionTimed(t.sessions[id]))
    && (forall c | c in t.commands :: CommandTimed(t.commands[c]))
  }

  /** A row keeps its status or moves up in rank, a terminal row does not change at all, and
      only leaving the approval moves the expiry.  Whose Session it is never changes. */
  predicate SessionAdvances(before: SessionRow, after: SessionRow) {
    && (after.status == before.status || Rank(before.status) < Rank(after.status))
    && (Terminal(before.status) ==> after == before)
    && (after.expiresAt != before.expiresAt ==> before.status == PendingApproval && after.status != PendingApproval)
    && after.createdAt == before.createdAt
    && after.organizationId == before.organizationId && after.agentId == before.agentId && after.machineId == before.machineId
    && after.clientProfileId == before.clientProfileId && after.operatingSystemUser == before.operatingSystemUser
    && (after.readyAt != before.readyAt ==> Rank(before.status) <= Rank(Opening) && Rank(Active) <= Rank(after.status))
  }

  predicate CommandAdvances(before: S.CommandRow, after: S.CommandRow) {
    && (after.status == before.status || S.Rank(before.status) < S.Rank(after.status))
    && (before.status.Terminal? ==> after == before)
    && after.sessionId == before.sessionId
  }

  ghost predicate Advances(before: Tables, after: Tables) {
    && (forall id | id in before.sessions :: id in after.sessions && SessionAdvances(before.sessions[id], after.sessions[id]))
    && (forall c | c in before.commands :: c in after.commands && CommandAdvances(before.commands[c], after.commands[c]))
  }

  lemma SessionStep(t: Tables, s: Step, id: SessionId)
    requires Enabled(t, s) && id in Apply(t, s).sessions && (id in t.sessions ==> SessionTimed(t.sessions[id]))
    ensures SessionTimed(Apply(t, s).sessions[id])
    ensures id in t.sessions ==> SessionAdvances(t.sessions[id], Apply(t, s).sessions[id])
  {
    hide CancelCommands, ActiveCommands, S.Advance;
  }

  lemma CommandStep(t: Tables, s: Step, c: CommandId)
    requires Enabled(t, s) && c in t.commands && CommandTimed(t.commands[c])
    ensures c in Apply(t, s).commands && CommandAdvances(t.commands[c], Apply(t, s).commands[c])
    ensures CommandTimed(Apply(t, s).commands[c])
  {
    hide S.Advance, ExpireRow, Overdue, Scope, ActiveCommands;
    if s.CommandS? && s.commandId == c {
      CommandStepAdvances(t.commands[c], s.step);
    }
  }

  lemma RowsStay(t: Tables, s: Step)
    requires Enabled(t, s)
    ensures t.sessions.Keys <= Apply(t, s).sessions.Keys
    ensures forall c | c in Apply(t, s).commands && c !in t.commands :: CommandTimed(Apply(t, s).commands[c])
  {
    hide S.Advance, ExpireRow, Overdue, Scope, ActiveCommands;
  }

  lemma StepAdvances(t: Tables, s: Step)
    requires Enabled(t, s) && Timed(t)
    ensures Advances(t, Apply(t, s)) && Timed(Apply(t, s))
  {
    hide Apply, Enabled, SessionTimed, CommandTimed, SessionAdvances, CommandAdvances;
    var u := Apply(t, s);
    RowsStay(t, s);
    forall id | id in u.sessions
      ensures SessionTimed(u.sessions[id])
      ensures id in t.sessions ==> SessionAdvances(t.sessions[id], u.sessions[id])
    {
      SessionStep(t, s, id);
    }
    forall c | c in t.commands
      ensures c in u.commands && CommandAdvances(t.commands[c], u.commands[c]) && CommandTimed(u.commands[c])
    {
      CommandStep(t, s, c);
    }
  }

  lemma CommandStepAdvances(row: S.CommandRow, step: S.CommandStep)
    requires CommandTimed(row)
    ensures CommandAdvances(row, S.Advance(row, step)) && CommandTimed(S.Advance(row, step))
  {
  }

  lemma AdvancesTrans(a: Tables, b: Tables, c: Tables)
    requires Advances(a, b) && Advances(b, c)
    ensures Advances(a, c)
  {
  }

  /** Over every run of transactions, Session and Command rows only move up, terminal rows
      never change, and `finishedAt` is set exactly on them. */
  lemma {:induction false} LifecycleProgress(t: Tables, steps: seq<Step>)
    requires IsRun(t, steps) && Timed(t)
    ensures Advances(t, After(t, steps)) && Timed(After(t, steps))
    decreases |steps|
  {
    hide Enabled, Apply, Timed;
    if steps != [] {
      var u := Apply(t, steps[0]);
      StepAdvances(t, steps[0]);
      LifecycleProgress(u, steps[1..]);
      AdvancesTrans(t, u, After(t, steps));
    }
  }

  // ---------- What the sweeping transactions leave ----------

  /** After an expiry sweep no Session past its time is waiting, opening or active: one that
      waited has expired, one that was opening or active is being closed.  Every Command of
      one that is being closed is being cancelled, and everything else is as before. */
  lemma SweepLeavesNothingOverdue(t: Tables, now: int)
    ensures var u := Expire(t, now);
            && u.sessions.Keys == t.sessions.Keys && u.commands.Keys == t.commands.Keys
            && (forall id | id in u.sessions && ActiveSession(u.sessions[id].status) :: u.sessions[id].expiresAt > now)
            && (forall id | id in t.sessions && t.sessions[id].expiresAt > now :: u.sessions[id] == t.sessions[id])
            && (forall id | id in t.sessions && t.sessions[id].expiresAt <= now :: SweptRow(t.sessions[id], u.sessions[id], now))
            && (forall id :: id in Overdue(t, now) <==>
                  id in t.sessions && t.sessions[id].expiresAt <= now && (t.sessions[id].status == Opening || t.sessions[id].status == Active))
            && (forall c | c in t.commands :: SweptCommand(t, u, c, now))
  {
  }

  /** What a sweep makes of a Session past its time. */
  predicate SweptRow(before: SessionRow, after: SessionRow, now: int) {
    match before.status
    case PendingApproval => after.status == Expired && after.finishedAt == Some(now)
    case Opening => after.status == CancellationRequested && after.finishedAt == before.finishedAt
    case Active => after.status == CancellationRequested && after.finishedAt == before.finishedAt
    case _ => after == before
  }

  /** A Command is told to stop exactly if it has not ended and its Session is past its time
      and was opening or active. */
  predicate SweptCommand(t: Tables, u: Tables, c: CommandId, now: int)
    requires c in t.commands && c in u.commands
  {
    var id := t.commands[c].sessionId;
    if !t.commands[c].status.Terminal? && id in t.sessions && t.sessions[id].expiresAt <= now
       && (t.sessions[id].status == Opening || t.sessions[id].status == Active)
    then u.commands[c] == t.commands[c].(status := S.CancellationRequested)
    else u.commands[c] == t.commands[c]
  }

  /** A revocation ends exactly the waiting, opening and active Sessions of the Organization
      that are of the given Agent and Machine, as far as these are given; afterwards there are
      none, the active Commands of the revoked ones are being cancelled, and everything else is
      as before. */
  lemma RevocationEndsScope(t: Tables, organizationId: string, agentId: Option<string>, machineId: Option<string>, now: int)
    requires agentId.Some? || machineId.Some?
    ensures var (u, ids) := (Revoke(t, organizationId, agentId, machineId, now).value, Scope(t, organizationId, agentId, machineId));
            && Scope(u, organizationId, agentId, machineId) == {}
            && (forall id | id in t.sessions :: id in u.sessions && (id !in ids ==> u.sessions[id] == t.sessions[id]))
            && (forall id | id in ids :: u.sessions[id].status == Revoked && u.sessions[id].finishedAt == Some(now))
            && (forall id :: id in ids <==>
                  && id in t.sessions && t.sessions[id].organizationId == organizationId
                  && t.sessions[id].status in {PendingApproval, Opening, Active}
                  && (agentId == None || agentId == Some(t.sessions[id].agentId))
                  && (machineId == None || machineId == Some(t.sessions[id].machineId)))
            && (forall c | c in t.commands ::
                  u.commands[c] == if t.commands[c].sessionId in ids && !t.commands[c].status.Terminal?
                                   then t.commands[c].(status := S.CancellationRequested) else t.commands[c])
  {
  }

  /** Only the Session's own Organization and Agent find it.  A Session that has ended stays
      as it is.  Completing succeeds when no Command of the Session is active, and changes
      nothing otherwise; cancelling always succeeds, tells every active Command to stop and
      leaves the Session to be closed. */
  lemma FinishAccountsForCommands(t: Tables, organizationId: string, agentId: string, id: SessionId, complete: bool, at: int)
    ensures var (u, result) := Finish(t, organizationId, agentId, id, complete, at);
            var owned := id in t.sessions && t.sessions[id].organizationId == organizationId && t.sessions[id].agentId == agentId;
            && (result.SessionNotFound? <==> !owned)
            && (result.CommandsActive? <==>
                  owned && !Terminal(t.sessions[id].status) && complete
                  && exists c | c in t.commands :: t.commands[c].sessionId == id && !t.commands[c].status.Terminal?)
            && (!owned || result.CommandsActive? || Terminal(t.sessions[id].status) ==> u == t)
            && (owned && Terminal(t.sessions[id].status) ==> result == Finished({}))
            && u.sessions.Keys == t.sessions.Keys && u.commands.Keys == t.commands.Keys
            && (forall x | x in t.sessions && x != id :: u.sessions[x] == t.sessions[x])
            && (result.Finished? && !Terminal(t.sessions[id].status) ==>
                  && (forall c :: c in result.commandIds <==>
                        c in t.commands && t.commands[c].sessionId == id && !t.commands[c].status.Terminal?)
                  && (complete ==> result.commandIds == {})
                  && u.sessions[id] == if complete then t.sessions[id].(status := Completed, finishedAt := Some(at))
                                       else t.sessions[id].(status := CancellationRequested))
            && (forall c | c in t.commands ::
                  u.commands[c] == if result.Finished? && c in result.commandIds
                                   then t.commands[c].(status := S.CancellationRequested) else t.commands[c])
  {
    var active := ActiveCommands(t, {id});
    assert forall c :: c in active <==> c in t.commands && t.commands[c].sessionId == id && !t.commands[c].status.Terminal?;
    if active != {} {
      var c :| c in active;
    }
  }

  predicate IsReport(s: Step) {
    s.OpenedS? || s.FailedS? || s.ClosedS?
  }

  /** A Client's report moves a Session exactly when it comes from the Session's Machine,
      the Session is in a status the report can end, and, for an opening, profile and user
      are the expected ones; it then gives the reported status and touches nothing else. */
  lemma ReportsMoveTheirOwnSession(t: Tables, s: Step)
    requires IsReport(s) && Enabled(t, s)
    ensures var u := Apply(t, s);
            && u.commands == t.commands && u.sessions.Keys == t.sessions.Keys
            && (forall x | x in t.sessions && x != s.id :: u.sessions[x] == t.sessions[x])
            && (s.id in t.sessions ==>
                  var (before, after) := (t.sessions[s.id], u.sessions[s.id]);
                  && (after.status != before.status <==>
                        && before.organizationId == s.organizationId && before.machineId == s.machineId
                        && (before.status == Opening || (s.ClosedS? && (before.status == Active || before.status == CancellationRequested)))
                        && (s.OpenedS? ==> before.clientProfileId == s.clientProfileId && before.operatingSystemUser == s.operatingSystemUser))
                  && (after.status == before.status ==> after == before)
                  && (after.status != before.status ==>
                        && (after.status == Active <==> s.OpenedS?)
                        && (after.status == SessionStatus.Failed <==> s.FailedS?)
                        && (after.status == Expired <==> s.ClosedS? && s.reason == "expired")
                        && (after.status == SessionStatus.Cancelled <==> s.ClosedS? && s.reason != "expired")
                        && (after.readyAt == Some(s.at) || !s.OpenedS?)
                        && (after.finishedAt == Some(s.at) || s.OpenedS?)))
  {
  }

  lemma DecideAdvances(t: Tables, organizationId: string, id: SessionId, approve: bool, at: int)
    requires Timed(t)
    ensures var u := Decide(t, organizationId, id, approve, at).0;
            Timed(u) && Advances(t, u)
  {
    hide Timed, Advances, Decide;
    StepAdvances(t, DecideS(id, organizationId, approve, at));
  }

  lemma FinishAdvances(t: Tables, organizationId: string, agentId: string, id: SessionId, complete: bool, at: int)
    requires Timed(t)
    ensures var u := Finish(t, organizationId, agentId, id, complete, at).0;
            Timed(u) && Advances(t, u)
  {
    hide Timed, Advances, Finish;
    StepAdvances(t, FinishS(id, organizationId, agentId, complete, at));
  }

  lemma ExpireAdvances(t: Tables, now: int)
    requires Timed(t)
    ensures Timed(Expire(t, now)) && Advances(t, Expire(t, now))
  {
    hide Timed, Advances, Expire;
    StepAdvances(t, ExpireS(now));
  }

  lemma RevokeAdvances(t: Tables, organizationId: string, agentId: Option<string>, machineId: Option<string>, now: int)
    requires Timed(t)
    ensures var u := Revoke(t, organizationId, agentId, machineId, now).GetOr(t);
            Timed(u) && Advances(t, u)
  {
    hide Timed, Advances, Revoke;
    StepAdvances(t, RevokeS(organizationId, agentId, machineId, now));
  }

  lemma TimedAt(t: Tables, id: SessionId)
    requires Timed(t)
    ensures id in t.sessions ==> SessionTimed(t.sessions[id])
  {
  }

  // ---------- The tables as the Server holds them ----------

  /** The database, with the loops of its sweeping transactions. */
  class SessionStore {
    var sessions: map<SessionId, SessionRow>
    var commands: map<CommandId, S.CommandRow>

    constructor ()
      ensures Valid() && State() == Tables(map[], map[])
    {
      sessions, commands := map[], map[];
    }

    function State(): Tables
      reads this
    {
      Tables(sessions, commands)
    }

    /** Every row has a finish time exactly when its status is terminal. */
    ghost predicate Valid()
      reads this
    {
      Timed(State())
    }

    /** Only a Session of the Organization that waits and is not overdue is decided, once: a
        repetition at the same time changes nothing, and the approval grants the duration
        that was asked for, counted from the decision. */
    method DecideSession(organizationId: string, id: SessionId, approve: bool, at: int) returns (verdict: Verdict)
      requires Valid()
      modifies this`sessions
      ensures Valid() && Advances(old(State()), State())
      ensures (State(), verdict) == Decide(old(State()), organizationId, id, approve, at)
      ensures sessions - {id} == old(sessions) - {id}
      ensures Decide(State(), organizationId, id, approve, at).0 == State()
      ensures verdict == Approved(true) || verdict == Denied <==>
                && id in old(sessions) && old(sessions)[id].organizationId == organizationId
                && old(sessions)[id].status == PendingApproval && old(sessions)[id].expiresAt > at
      ensures verdict == Approved(true) ==>
                && sessions[id].status == Opening
                && sessions[id].expiresAt - at == old(sessions)[id].expiresAt - old(sessions)[id].createdAt
      ensures verdict == Denied ==> sessions[id].status == SessionStatus.Cancelled && sessions[id].finishedAt == Some(at)
      ensures verdict.Approved? ==> approve
      ensures verdict == Denied ==> !approve
      ensures verdict == NotFound <==> id !in old(sessions) || old(sessions)[id].organizationId != organizationId
      ensures verdict == Approved(false) <==>
                && id in old(sessions) && old(sessions)[id].organizationId == organizationId && approve
                && (old(sessions)[id].status == Opening || old(sessions)[id].status == Active)
      ensures verdict == NotFound || verdict == Approved(false) ==> sessions == old(sessions)
      ensures verdict == Conflict ==>
                if old(sessions)[id].status == PendingApproval then
                  sessions == old(sessions)[id := old(sessions)[id].(status := Expired, finishedAt := Some(at))]
                else sessions == old(sessions)
    {
      hide Timed, Advances;
      DecideAdvances(State(), organizationId, id, approve, at);
      if id !in sessions || sessions[id].organizationId != organizationId {
        return NotFound;
      }
      var current := sessions[id];
      if approve && (current.status == Opening || current.status == Active) {
        return Approved(false);
      }
      if current.status != PendingApproval {
        return Conflict;
      }
      if current.expiresAt <= at {
        sessions := sessions[id := current.(status := Expired, finishedAt := Some(at))];
        return Conflict;
      }
      if approve {
        sessions := sessions[id := current.(status := Opening, expiresAt := at + current.expiresAt - current.createdAt)];
        return Approved(true);
      }
      sessions := sessions[id := current.(status := SessionStatus.Cancelled, finishedAt := Some(at))];
      verdict := Denied;
    }

    /** Cancels the active Commands of one Session and returns them. */
    method CancelCommandsOf(id: SessionId) returns (commandIds: set<CommandId>)
      modifies this`commands
      ensures State() == CancelCommands(old(State()), {id}) && commandIds == ActiveCommands(old(State()), {id})
    {
      commandIds := ActiveCommands(State(), {id});
      commands := map c | c in commands :: if c in commandIds then commands[c].(status := S.CancellationRequested) else commands[c];
    }

    method FinishSession(organizationId: string, agentId: string, id: SessionId, complete: bool, at: int) returns (result: FinishResult)
      requires Valid()
      modifies this
      ensures Valid() && Advances(old(State()), State())
      ensures (State(), result) == Finish(old(State()), organizationId, agentId, id, complete, at)
      ensures sessions - {id} == old(sessions) - {id}
      ensures result.SessionNotFound? <==>
                id !in old(sessions) || old(sessions)[id].organizationId != organizationId || old(sessions)[id].agentId != agentId
      ensures result.SessionNotFound? || result.CommandsActive? || Terminal(old(sessions)[id].status) ==> State() == old(State())
      ensures !result.SessionNotFound? && Terminal(old(sessions)[id].status) ==> result == Finished({})
      ensures result.CommandsActive? ==> complete
      ensures !result.SessionNotFound? && !Terminal(old(sessions)[id].status) && !result.CommandsActive? ==>
                && (if complete then sessions[id].status == Completed && sessions[id].finishedAt == Some(at)
                    else sessions[id].status == CancellationRequested && sessions[id].finishedAt == None)
                && forall c :: c in result.commandIds <==>
                                 && c in old(commands) && old(commands)[c].sessionId == id && !old(commands)[c].status.Terminal?
    {
      hide Timed, Advances;
      TimedAt(State(), id);
      FinishAdvances(State(), organizationId, agentId, id, complete, at);
      if id !in sessions || sessions[id].organizationId != organizationId || sessions[id].agentId != agentId {
        return SessionNotFound;
      }
      var current := sessions[id];
      if Terminal(current.status) {
        return Finished({});
      }
      var active := ActiveCommands(State(), {id});
      if complete && active != {} {
        return CommandsActive;
      }
      if !complete {
        active := CancelCommandsOf(id);
      }
      sessions := sessions[id := if complete then current.(status := Completed, finishedAt := Some(at))
                                 else current.(status := CancellationRequested)];
      result := Finished(active);
    }

    /** Returns the Sessions it stopped, each with the Commands to cancel. */
    method ExpireSessions(now: int) returns (stopped: map<SessionId, set<CommandId>>)
      requires Valid()
      modifies this
      ensures Valid() && Advances(old(State()), State())
      ensures State() == Expire(old(State()), now)
      ensures stopped.Keys == Overdue(old(State()), now)
      ensures forall id | id in stopped :: stopped[id] == ActiveCommands(old(State()), {id})
      ensures sessions.Keys == old(sessions.Keys)
      ensures forall id | id in sessions ::
                if old(sessions)[id].expiresAt > now then sessions[id] == old(sessions)[id]
                else SweptRow(old(sessions)[id], sessions[id], now)
    {
      hide Timed, Advances;
      ExpireAdvances(State(), now);
      var expired := Overdue(State(), now);
      sessions := map id | id in sessions :: ExpireRow(sessions[id], now);
      stopped := CancelEach(expired);
    }

    /** The loop over the Sessions of a sweep. */
    method CancelEach(ids: set<SessionId>) returns (cancelled: map<SessionId, set<CommandId>>)
      modifies this`commands
      ensures State() == CancelCommands(old(State()), ids)
      ensures cancelled.Keys == ids
      ensures forall id | id in ids :: cancelled[id] == ActiveCommands(old(State()), {id})
    {
      hide CancelCommands, ActiveCommands;
      ghost var before := State();
      cancelled := map[];
      var remaining := ids;
      CancelNone(before);
      assert ids - remaining == {};
      while remaining != {}
        invariant remaining <= ids && cancelled.Keys == ids - remaining
        invariant State() == CancelCommands(before, ids - remaining)
        invariant forall id | id in cancelled :: cancelled[id] == ActiveCommands(before, {id})
        decreases remaining
      {
        var id :| id in remaining;
        CancelOneMore(before, ids - remaining, id);
        assert ids - (remaining - {id}) == ids - remaining + {id};
        var commandIds := CancelCommandsOf(id);
        cancelled := cancelled[id := commandIds];
        remaining := remaining - {id};
      }
      assert ids - remaining == ids;
    }

    /** Returns the Sessions it revoked, each with the Commands to cancel; None for the
        error when neither an Agent nor a Machine is given. */
    method RevokeSessions(organizationId: string, agentId: Option<string>, machineId: Option<string>, now: int)
      returns (revoked: Option<map<SessionId, set<CommandId>>>)
      requires Valid()
      modifies this
      ensures Valid() && Advances(old(State()), State())
      ensures State() == Revoke(old(State()), organizationId, agentId, machineId, now).GetOr(old(State()))
      ensures revoked.Some? <==> agentId.Some? || machineId.Some?
      ensures revoked.Some? ==>
                && revoked.value.Keys == Scope(old(State()), organizationId, agentId, machineId)
                && forall id | id in revoked.value :: revoked.value[id] == ActiveCommands(old(State()), {id})
    {
      hide Timed, Advances;
      RevokeAdvances(State(), organizationId, agentId, machineId, now);
      if agentId.None? && machineId.None? {
        return None;
      }
      var scope := Scope(State(), organizationId, agentId, machineId);
      var cancelled := CancelEach(scope);
      sessions := map id | id in sessions ::
        if id in scope then sessions[id].(status := Revoked, finishedAt := Some(now)) else sessions[id];
      revoked := Some(cancelled);
    }
  }

  lemma CancelNone(t: Tables)
    ensures CancelCommands(t, {}) == t
  {
    assert CancelCommands(t, {}).commands == t.commands;
  }

  /** Cancelling the Commands of one more Session is not affected by the ones before. */
  lemma CancelOneMore(t: Tables, ids: set<SessionId>, id: SessionId)
    requires id !in ids
    ensures CancelCommands(CancelCommands(t, ids), {id}) == CancelCommands(t, ids + {id})
    ensures ActiveCommands(CancelCommands(t, ids), {id}) == ActiveCommands(t, {id})
  {
    assert CancelCommands(CancelCommands(t, ids), {id}).commands == CancelCommands(t, ids + {id}).commands;
  }
}
