/** Three runs on which delivering a replay a second time opens a Session that the first
    delivery did not. */
module ReplayReopens {
  import opened Wire
  import opened Reconnect
  import opened AuthorityProgress
  import opened ReplayChoices
  import opened ReplayDelivery
  import A = Authority
  import B = AuthorityBounds
  import D = SessionDatabase
  import I = ReplayInterleavings

  // ---------- A close with nothing to cancel ----------

  /** A Client on which no Command is pending. */
  predicate Free(s: A.State) {
    Quiet(s) && !s.stopped && s.commands == map[]
  }

  function CloseSteps(id: SessionId): seq<A.Step> {
    [A.ReceiveClose(id)] + [A.CloseSettles(id)] + [A.CloseJudges(id)] + [A.CloseDelivers(id)] + [A.CloseEnds(id)]
  }

  function AfterClose(s: A.State, id: SessionId): A.State {
    s.(closed := A.Remember(s.closed, id),
       sessions := s.sessions - {id},
       timers := if id in s.sessions then s.timers - {id} else s.timers,
       replies := s.replies + [A.Closed(id)])
  }

  /** The close in one of its phases. */
  function Closing(s: A.State, id: SessionId, phase: A.Phase): A.State {
    var session := if id in s.sessions then Some(s.sessions[id].serial) else None;
    s.(closed := A.Remember(s.closed, id),
       sessions := if id in s.sessions then s.sessions[id := s.sessions[id].(closing := true)] else s.sessions,
       closings := map[id := A.Close(session, {}, false, phase)],
       timers := if id in s.sessions && phase != A.Cancelling then s.timers - {id} else s.timers,
       task := A.AwaitClose(id),
       replies := if phase == A.Delivered then s.replies + [A.Closed(id)] else s.replies)
  }

  lemma CloseBegins(s: A.State, id: SessionId)
    requires Free(s)
    ensures A.Enabled(s, A.ReceiveClose(id)) && A.Apply(s, A.ReceiveClose(id)) == Closing(s, id, A.Cancelling)
  {
    hide A.Remember;
    assert A.TargetsOf(s, id) == {};
    assert A.CancelAll(s.controls, {}) == s.controls;
  }

  lemma CloseSettles(s: A.State, id: SessionId)
    requires Free(s)
    ensures var c := Closing(s, id, A.Cancelling);
            A.Enabled(c, A.CloseSettles(id)) && A.Apply(c, A.CloseSettles(id)) == Closing(s, id, A.TimerCleared)
  {
    hide A.Remember;
  }

  lemma CloseJudges(s: A.State, id: SessionId)
    requires Free(s)
    ensures var c := Closing(s, id, A.TimerCleared);
            A.Enabled(c, A.CloseJudges(id)) && A.Apply(c, A.CloseJudges(id)) == Closing(s, id, A.Waiting)
  {
    hide A.Remember;
  }

  lemma CloseReports(s: A.State, id: SessionId)
    requires Free(s)
    ensures var c := Closing(s, id, A.Waiting);
            A.Enabled(c, A.CloseDelivers(id)) && A.Apply(c, A.CloseDelivers(id)) == Closing(s, id, A.Delivered)
  {
    hide A.Remember;
  }

  lemma CloseIsOver(s: A.State, id: SessionId)
    requires Free(s)
    ensures var c := Closing(s, id, A.Delivered);
            A.Enabled(c, A.CloseEnds(id)) && A.Apply(c, A.CloseEnds(id)) == AfterClose(s, id)
  {
    hide A.Remember;
    var c := Closing(s, id, A.Delivered);
    assert c.closings - {id} == s.closings;
    assert c.sessions - {id} == s.sessions - {id};
    assert id !in s.sessions ==> s.sessions - {id} == s.sessions;
  }

  lemma CloseRuns(s: A.State, id: SessionId)
    requires Free(s)
    ensures A.IsRun(s, CloseSteps(id)) && A.After(s, CloseSteps(id)) == AfterClose(s, id)
  {
    hide A.IsRun, A.After, A.Apply, A.Enabled, AfterClose, Closing;
    CloseBegins(s, id);
    CloseSettles(s, id);
    CloseJudges(s, id);
    CloseReports(s, id);
    CloseIsOver(s, id);
    var c := [A.ReceiveClose(id)];
    RunOne(s, A.ReceiveClose(id));
    RunPush(s, c, A.CloseSettles(id));
    RunPush(s, c + [A.CloseSettles(id)], A.CloseJudges(id));
    RunPush(s, c + [A.CloseSettles(id)] + [A.CloseJudges(id)], A.CloseDelivers(id));
    RunPush(s, c + [A.CloseSettles(id)] + [A.CloseJudges(id)] + [A.CloseDelivers(id)], A.CloseEnds(id));
  }

  lemma CloseDelivers(id: SessionId, reason: string, at: int)
    ensures Delivers(CloseSteps(id), [Close(id, reason)], at)
  {
    hide Delivers;
    var c := [A.ReceiveClose(id)];
    DeliversOne(Close(id, reason), at);
    SettleOne(c, A.CloseSettles(id), [Close(id, reason)], at);
    c := c + [A.CloseSettles(id)];
    SettleOne(c, A.CloseJudges(id), [Close(id, reason)], at);
    c := c + [A.CloseJudges(id)];
    SettleOne(c, A.CloseDelivers(id), [Close(id, reason)], at);
    c := c + [A.CloseDelivers(id)];
    SettleOne(c, A.CloseEnds(id), [Close(id, reason)], at);
  }

  // ---------- One open and one close ----------

  /** The replay of one Session to be opened and one to be closed. */
  function Pair(x: SessionId, y: SessionId, contract: A.Contract, now: A.Timestamp): seq<Message> {
    Replay([Session(x, D.Opening, contract), Session(y, D.CancellationRequested, contract)], [], now)
  }

  function PairSteps(x: SessionId, y: SessionId, contract: A.Contract, now: A.Timestamp, at: int): seq<A.Step> {
    [StepOf(Open(x, contract, now), at)] + CloseSteps(y)
  }

  lemma PairMessages(x: SessionId, y: SessionId, contract: A.Contract, now: A.Timestamp)
    ensures exists reason :: Pair(x, y, contract, now) == [Open(x, contract, now), Close(y, reason)]
  {
    var (a, b) := (Session(x, D.Opening, contract), Session(y, D.CancellationRequested, contract));
    assert [a, b][..1] == [a] && [a][..0] == [];
    assert Opens([], now) == [] && Closes([], now) == [];
    assert Opens([a], now) == [OpenOf(a, now)];
    assert Closes([a], now) == [];
    assert Opens([a, b], now) == [OpenOf(a, now)];
    assert Closes([a, b], now) == [CloseOf(b, now)];
    assert Starts([a, b], []) == [] && Cancels([]) == [];
    assert Pair(x, y, contract, now) == [Open(x, contract, now), CloseOf(b, now)];
    var reason := if Past(contract, now) then "expired" else "cancelled";
    assert Pair(x, y, contract, now) == [Open(x, contract, now), Close(y, reason)];
  }

  lemma PairDelivers(x: SessionId, y: SessionId, contract: A.Contract, now: A.Timestamp, at: int)
    ensures Delivers(PairSteps(x, y, contract, now, at), Pair(x, y, contract, now), at)
  {
    hide Delivers, Pair;
    PairMessages(x, y, contract, now);
    var reason :| Pair(x, y, contract, now) == [Open(x, contract, now), Close(y, reason)];
    DeliversOne(Open(x, contract, now), at);
    CloseDelivers(y, reason, at);
    DeliversConcat([StepOf(Open(x, contract, now), at)], [Open(x, contract, now)], CloseSteps(y), [Close(y, reason)], at);
    assert [Open(x, contract, now)] + [Close(y, reason)] == [Open(x, contract, now), Close(y, reason)];
  }

  /** What the delivery of a pair does to a Client on which no Command is pending. */
  lemma PairRuns(s: A.State, x: SessionId, y: SessionId, contract: A.Contract, now: A.Timestamp, at: int)
    requires Free(s)
    ensures A.IsRun(s, PairSteps(x, y, contract, now, at))
    ensures var v := A.After(s, PairSteps(x, y, contract, now, at));
            var opens := MayOpen(s, OpenMessageOf(x, contract, now), at);
            && Free(v) && v.policy == s.policy && v.profileId == s.profileId
            && v.closed == A.Remember(s.closed, y)
            && v.sessions.Keys == s.sessions.Keys + (if opens then {x} else {}) - {y}
            && v.serials == s.serials + if opens then 1 else 0
  {
    hide A.IsRun, A.After, A.OpenSession, A.Remember, MayOpen, CloseSteps;
    var open := OpenMessageOf(x, contract, now);
    var step := StepOf(Open(x, contract, now), at);
    var s1 := A.OpenSession(s, open, A.Readings(at, at, at));
    B.OpenTurn(s, open, A.Readings(at, at, at));
    OpensExactly(s, open, at);
    RunOne(s, step);
    CloseRuns(s1, y);
    RunConcat(s, [step], CloseSteps(y));
  }

  // ---------- Runs on which nothing was under way ----------

  /** The second delivery opens a Session that the first one did not. */
  ghost predicate Reopens(s: A.State, x: SessionId, y: SessionId, contract: A.Contract, now: A.Timestamp, at: int,
                          first: seq<A.Step>, second: seq<A.Step>)
  {
    && A.Reachable(s) && Quiet(s)
    && A.IsRun(s, first) && Delivers(first, Pair(x, y, contract, now), at)
    && A.IsRun(A.After(s, first), second) && Delivers(second, Pair(x, y, contract, now), at)
    && x !in A.After(s, first).sessions && x in A.After(A.After(s, first), second).sessions
    && !Steady(s, Pair(x, y, contract, now), at)
  }

  lemma PairReopens(s: A.State, x: SessionId, y: SessionId, contract: A.Contract, now: A.Timestamp, at: int)
    requires A.Reachable(s) && Free(s) && x != y && x !in s.sessions
    requires !MayOpen(s, OpenMessageOf(x, contract, now), at)
    requires Admissible(s.policy, s.profileId, OpenMessageOf(x, contract, now), at)
    requires |s.sessions.Keys - {y}| < s.policy.maxConcurrentSessions && x !in A.Remember(s.closed, y)
    ensures Reopens(s, x, y, contract, now, at, PairSteps(x, y, contract, now, at), PairSteps(x, y, contract, now, at))
  {
    hide A.IsRun, A.After, A.Reachable, A.Remember, Admissible, PairSteps, Pair, Delivers, Steady;
    var steps := PairSteps(x, y, contract, now, at);
    PairDelivers(x, y, contract, now, at);
    PairRuns(s, x, y, contract, now, at);
    var v := A.After(s, steps);
    assert v.sessions.Keys == s.sessions.Keys - {y};
    PairRuns(v, x, y, contract, now, at);
    PairIsReplay(s, x, y, contract, now, at, steps);
  }

  lemma PairIsReplay(s: A.State, x: SessionId, y: SessionId, contract: A.Contract, now: A.Timestamp, at: int, steps: seq<A.Step>)
    requires x != y && Quiet(s) && A.IsRun(s, steps) && A.IsRun(A.After(s, steps), steps)
    requires Delivers(steps, Pair(x, y, contract, now), at)
    ensures A.After(A.After(s, steps), steps).serials == A.After(s, steps).serials <==> Steady(s, Pair(x, y, contract, now), at)
  {
    hide A.IsRun, A.After, Delivers, Steady, Replay;
    var sessions := [Session(x, D.Opening, contract), Session(y, D.CancellationRequested, contract)];
    assert sessions[0].id != sessions[1].id;
    QuietReplayTwice(s, sessions, [], now, at, steps, steps);
  }

  /** A contract the Client's policy allows. */
  predicate Fitting(policy: A.Policy, contract: A.Contract, now: A.Timestamp, at: int) {
    && now.instant == Some(at) && contract.expiresAt.instant == Some(at + 1_000)
    && contract.organizationId == policy.organizationId && contract.maxConcurrentCommands <= policy.maxConcurrentCommands
    && policy.maxSessionDurationSeconds >= 1
  }

  lemma FittingIsAdmissible(policy: A.Policy, contract: A.Contract, now: A.Timestamp, at: int, x: SessionId)
    requires Fitting(policy, contract, now, at)
    ensures Admissible(policy, contract.clientProfileId, OpenMessageOf(x, contract, now), at)
  {
    assert A.Seconds(1_000) == 1;
  }

  /** A Client that may hold one Session refuses an open for want of room, ends the Session
      it holds, and accepts the same open the second time. */
  lemma FreedRoomReopens(policy: A.Policy, contract: A.Contract, now: A.Timestamp, at: int)
    returns (s: A.State, first: seq<A.Step>, second: seq<A.Step>)
    requires policy.maxConcurrentSessions == 1 && Fitting(policy, contract, now, at)
    ensures Reopens(s, 0, 1, contract, now, at, first, second)
  {
    hide A.IsRun, A.After, A.Reachable, Admissible, Reopens;
    var s0 := A.InitialState(policy, contract.clientProfileId);
    var open := OpenMessageOf(1, contract, now);
    InitialReachable(policy, contract.clientProfileId);
    FittingIsAdmissible(policy, contract, now, at, 1);
    FittingIsAdmissible(policy, contract, now, at, 0);
    OpensExactly(s0, open, at);
    B.OpenTurn(s0, open, A.Readings(at, at, at));
    var step := A.ReceiveOpen(open, A.Readings(at, at, at));
    RunOne(s0, step);
    ReachableRun(s0, [step]);
    s := A.OpenSession(s0, open, A.Readings(at, at, at));
    assert s.sessions.Keys == {1} && s.sessions.Keys - {1} == {};
    first, second := PairSteps(0, 1, contract, now, at), PairSteps(0, 1, contract, now, at);
    PairReopens(s, 0, 1, contract, now, at);
  }

  /** A Client that has remembered as many closes as it can. */
  lemma {:induction false} ClosesMany(policy: A.Policy, profileId: string, n: nat) returns (s: A.State)
    requires n <= A.REMEMBERED_CLOSED_SESSIONS
    ensures A.Reachable(s) && Free(s) && s.policy == policy && s.profileId == profileId
    ensures s.sessions == map[] && |s.closed| == n && forall i | 0 <= i < n :: s.closed[i] == i
  {
    hide A.IsRun, A.After, A.Reachable, CloseSteps;
    if n == 0 {
      s := A.InitialState(policy, profileId);
      InitialReachable(policy, profileId);
    } else {
      var u := ClosesMany(policy, profileId, n - 1);
      CloseRuns(u, n - 1);
      ReachableRun(u, CloseSteps(n - 1));
      s := AfterClose(u, n - 1);
    }
  }

  /** The Client forgets the close of Session 0 over the close of Session 5000, and opens
      Session 0 the second time. */
  lemma ForgottenSessionReopens(policy: A.Policy, contract: A.Contract, now: A.Timestamp, at: int)
    returns (s: A.State, first: seq<A.Step>, second: seq<A.Step>)
    requires policy.maxConcurrentSessions >= 1 && Fitting(policy, contract, now, at)
    ensures Reopens(s, 0, 5_000, contract, now, at, first, second)
  {
    hide A.IsRun, A.After, A.Reachable, Admissible, Reopens;
    s := ClosesMany(policy, contract.clientProfileId, A.REMEMBERED_CLOSED_SESSIONS);
    FittingIsAdmissible(policy, contract, now, at, 0);
    assert s.closed[0] == 0;
    assert s.sessions.Keys - {5_000} == {};
    assert A.Remember(s.closed, 5_000) == (s.closed + [5_000])[1..];
    first, second := PairSteps(0, 5_000, contract, now, at), PairSteps(0, 5_000, contract, now, at);
    PairReopens(s, 0, 5_000, contract, now, at);
  }

  // ---------- A run on which a close was under way ----------

  /** The replay of one Session to be opened. */
  function Single(x: SessionId, contract: A.Contract, now: A.Timestamp): seq<Message> {
    Replay([Session(x, D.Opening, contract)], [], now)
  }

  lemma SingleMessage(x: SessionId, contract: A.Contract, now: A.Timestamp)
    ensures Single(x, contract, now) == [Open(x, contract, now)]
  {
    var a := Session(x, D.Opening, contract);
    assert [a][..0] == [] && Opens([], now) == [] && Closes([], now) == [];
    assert Opens([a], now) == [OpenOf(a, now)] && Closes([a], now) == [];
    assert Starts([a], []) == [] && Cancels([]) == [];
  }

  /** Session 1 is held, and its expiry timer has just begun its close. */
  lemma TimerBegins(policy: A.Policy, contract: A.Contract, now: A.Timestamp, at: int) returns (s: A.State)
    requires policy.maxConcurrentSessions == 1 && Fitting(policy, contract, now, at)
    ensures A.Reachable(s) && Ready(s) && s.policy == policy && s.profileId == contract.clientProfileId
    ensures s.sessions.Keys == {1} && s.closings.Keys == {1} && s.closed == [1] && !Doomed(s, 1)
  {
    hide A.IsRun, A.After, A.Reachable, Admissible;
    var s0 := A.InitialState(policy, contract.clientProfileId);
    var open := OpenMessageOf(1, contract, now);
    InitialReachable(policy, contract.clientProfileId);
    FittingIsAdmissible(policy, contract, now, at, 1);
    OpensExactly(s0, open, at);
    B.OpenTurn(s0, open, A.Readings(at, at, at));
    var step := A.ReceiveOpen(open, A.Readings(at, at, at));
    RunOne(s0, step);
    ReachableRun(s0, [step]);
    var s1 := A.OpenSession(s0, open, A.Readings(at, at, at));
    RunOne(s1, A.TimerFires(1));
    ReachableRun(s1, [A.TimerFires(1)]);
    s := A.Apply(s1, A.TimerFires(1));
    assert A.TargetsOf(s1, 1) == {};
  }

  /** While the close that a timer began is under way a Session is refused for want of room;
      the close ends between the two deliveries, and the second one opens the Session. */
  lemma TimerFreesRoom(policy: A.Policy, contract: A.Contract, now: A.Timestamp, at: int)
    returns (s: A.State, first: seq<A.Step>, second: seq<A.Step>)
    requires policy.maxConcurrentSessions == 1 && Fitting(policy, contract, now, at)
    ensures A.Reachable(s) && Ready(s) && s.closings.Keys == {1}
    ensures DeliveredTwice(s, Single(0, contract, now), at, first, second)
    ensures 0 !in A.After(s, first).sessions && 0 in A.After(A.After(s, first), second).sessions
    ensures !Steady(s, Single(0, contract, now), at)
  {
    hide A.IsRun, A.After, A.Reachable, Admissible, Delivers, Doomed, Attended, Single, Steady;
    s := TimerBegins(policy, contract, now, at);
    var (m, open) := (Open(0, contract, now), OpenMessageOf(0, contract, now));
    var step := StepOf(m, at);
    SingleMessage(0, contract, now);
    FittingIsAdmissible(policy, contract, now, at, 0);
    first := [step];
    RunOne(s, step);
    DeliversOne(m, at);
    OpenBooks(s, m, at);
    var v := A.After(s, first);
    ReachableAttended(s);
    RunKeepsAttended(s, first);
    assert !Doomed(v, 1) by { DoomIgnoresOpens(s, v, 1); }
    var settling := EndsClose(v, 1);
    var u := A.After(v, settling);
    assert u.sessions.Keys == v.sessions.Keys - {1} == {};
    SettlingDelivers(settling, at);
    RunOne(u, step);
    OpenBooks(u, m, at);
    DeliveryConcat(v, settling, [], first, [m], at);
    second := settling + first;
    assert [] + [m] == [m];
    SecondOpens(s, contract, now, at, first, second);
  }

  lemma DoomIgnoresOpens(s: A.State, v: A.State, id: SessionId)
    requires v.closings == s.closings && v.controls == s.controls
    ensures Doomed(v, id) <==> Doomed(s, id)
  {
  }

  lemma SecondOpens(s: A.State, contract: A.Contract, now: A.Timestamp, at: int, first: seq<A.Step>, second: seq<A.Step>)
    requires A.Reachable(s) && DeliveredTwice(s, Single(0, contract, now), at, first, second)
    requires A.After(A.After(s, first), second).serials != A.After(s, first).serials
    ensures !Steady(s, Single(0, contract, now), at)
  {
    hide A.IsRun, A.After, A.Reachable, Delivers, Steady, Replay;
    I.ReplayTwice(s, [Session(0, D.Opening, contract)], [], now, at, first, second);
  }
}
