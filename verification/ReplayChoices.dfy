/** Choosing how a delivery is interleaved with the closes under way: unless the Client is
    steady for a replay, some choice makes the second delivery open a Session. */
module ReplayChoices {
  import opened Wire
  import opened Reconnect
  import opened AuthorityProgress
  import opened ReplayDelivery
  import I = ReplayInterleavings
  import A = Authority
  import B = AuthorityBounds

  // ---------- Building deliveries ----------

  lemma {:induction false} DeliversConcat(a: seq<A.Step>, ms: seq<Message>, b: seq<A.Step>, ns: seq<Message>, at: int)
    requires Delivers(a, ms, at) && Delivers(b, ns, at)
    ensures Delivers(a + b, ms + ns, at)
    decreases |a|
  {
    if a == [] {
      assert a + b == b && ms + ns == ns;
    } else {
      assert (a + b)[0] == a[0] && (a + b)[1..] == a[1..] + b;
      if Settles(a[0]) {
        DeliversConcat(a[1..], ms, b, ns, at);
      } else {
        assert (ms + ns)[0] == ms[0] && (ms + ns)[1..] == ms[1..] + ns;
        DeliversConcat(a[1..], ms[1..], b, ns, at);
      }
    }
  }

  lemma DeliversOne(m: Message, at: int)
    ensures Delivers([StepOf(m, at)], [m], at)
  {
    assert Delivers([], [], at);
    assert [StepOf(m, at)][1..] == [] && [m][1..] == [];
  }

  lemma DeliversSettling(step: A.Step, at: int)
    requires Settles(step)
    ensures Delivers([step], [], at)
  {
    assert [step][1..] == [];
  }

  lemma SettleOne(steps: seq<A.Step>, step: A.Step, ms: seq<Message>, at: int)
    requires Delivers(steps, ms, at) && Settles(step)
    ensures Delivers(steps + [step], ms, at)
  {
    hide Delivers;
    DeliversSettling(step, at);
    DeliversConcat(steps, ms, [step], [], at);
    assert ms + [] == ms;
  }

  lemma {:induction false} SettlingDelivers(steps: seq<A.Step>, at: int)
    requires AllSettle(steps)
    ensures Delivers(steps, [], at)
    decreases |steps|
  {
    hide Settles;
    if steps != [] {
      assert Settles(steps[0]);
      SettlingDelivers(steps[1..], at);
    }
  }

  /** A run of a delivery, followed by another one. */
  lemma DeliveryConcat(s: A.State, a: seq<A.Step>, ms: seq<Message>, b: seq<A.Step>, ns: seq<Message>, at: int)
    requires A.IsRun(s, a) && Delivers(a, ms, at) && A.IsRun(A.After(s, a), b) && Delivers(b, ns, at)
    ensures A.IsRun(s, a + b) && A.After(s, a + b) == A.After(A.After(s, a), b) && Delivers(a + b, ms + ns, at)
  {
    hide A.IsRun, A.After, Delivers;
    RunConcat(s, a, b);
    DeliversConcat(a, ms, b, ns, at);
  }

  // ---------- Messages one after the other ----------

  /** The Client is up and handles no message. */
  predicate Ready(s: A.State) {
    !s.stopped && s.task == A.Idle
  }

  /** The opens of a list, received at once. */
  lemma {:induction false} DeliversOpens(s: A.State, o: seq<Message>, at: int) returns (steps: seq<A.Step>)
    requires Ready(s) && forall m | m in o :: m.Open?
    ensures A.IsRun(s, steps) && Delivers(steps, o, at)
    ensures var v := A.After(s, steps);
            && v == s.(sessions := v.sessions, serials := v.serials, timers := v.timers, replies := v.replies)
            && BooksOf(v) == BookAll(s.policy, s.profileId, BooksOf(s), o, at)
    decreases |o|
  {
    hide A.IsRun, A.After, Delivers, A.OpenSession, Admissible;
    if o == [] {
      steps := [];
      RunNone(s);
      assert Delivers([], [], at) by { SettlingDelivers([], at); }
    } else {
      var (m, rest) := (o[0], o[1..]);
      assert m in o;
      var step := StepOf(m, at);
      var u := A.Apply(s, step);
      RunOne(s, step);
      DeliversOne(m, at);
      OpenBooks(s, m, at);
      var more := DeliversOpens(u, rest, at);
      DeliveryConcat(s, [step], [m], more, rest, at);
      steps := [step] + more;
      assert [m] + rest == o;
    }
  }

  lemma OpenBooks(s: A.State, m: Message, at: int)
    requires Ready(s) && m.Open?
    ensures A.Enabled(s, StepOf(m, at))
    ensures var v := A.Apply(s, StepOf(m, at));
            && v == s.(sessions := v.sessions, serials := v.serials, timers := v.timers, replies := v.replies)
            && BooksOf(v) == Book(s.policy, s.profileId, BooksOf(s), m, at)
  {
    hide A.OpenSession, Admissible;
    var open := OpenMessageOf(m.sessionId, m.contract, m.serverTime);
    B.OpenTurn(s, open, A.Readings(at, at, at));
    OpensExactly(s, open, at);
  }

  /** What handling one message that opens nothing comes to. */
  ghost predicate Handled(s: A.State, v: A.State, m: Message) {
    && Ready(v) && v.policy == s.policy && v.profileId == s.profileId && v.serials == s.serials
    && v.closings.Keys == s.closings.Keys
    && v.sessions.Keys == s.sessions.Keys - (if m.Close? then {m.sessionId} else {})
    && v.closed == (if m.Close? then A.Remember(s.closed, m.sessionId) else s.closed)
  }

  lemma HandlesStart(s: A.State, m: Message, at: int) returns (steps: seq<A.Step>)
    requires Ready(s) && m.Start?
    ensures A.IsRun(s, steps) && Delivers(steps, [m], at) && Handled(s, A.After(s, steps), m)
  {
    hide A.IsRun, A.After, Delivers, A.StartCommand;
    steps := [StepOf(m, at)];
    B.StartTurn(s, A.StartMessage(m.commandId, m.sessionId, m.timeoutSeconds, m.maxOutputBytes), A.Readings(at, at, at));
    RunOne(s, StepOf(m, at));
    DeliversOne(m, at);
    assert s.sessions.Keys - {} == s.sessions.Keys;
  }

  lemma HandlesCancel(s: A.State, m: Message, at: int) returns (steps: seq<A.Step>)
    requires Attended(s) && Ready(s) && m.Cancel?
    ensures A.IsRun(s, steps) && Delivers(steps, [m], at) && Handled(s, A.After(s, steps), m)
  {
    hide A.IsRun, A.After, Delivers, Attended;
    var step := StepOf(m, at);
    var u := A.Apply(s, step);
    steps := [step];
    RunOne(s, step);
    DeliversOne(m, at);
    if u.task != A.Idle {
      var settling := SettleTarget(u, u.task.control);
      RunConcat(s, steps, settling);
      SettlingDelivers(settling, at);
      DeliversConcat(steps, [m], settling, [], at);
      steps := steps + settling;
      assert [m] + [] == [m];
      RunPush(s, steps, A.CancelReturns);
      SettleOne(steps, A.CancelReturns, [m], at);
      steps := steps + [A.CancelReturns];
    }
    assert s.sessions.Keys - {} == s.sessions.Keys;
  }

  lemma HandlesClose(s: A.State, m: Message, at: int) returns (steps: seq<A.Step>)
    requires Attended(s) && Ready(s) && m.Close? && m.sessionId !in s.closings
    ensures A.IsRun(s, steps) && Delivers(steps, [m], at) && Handled(s, A.After(s, steps), m)
  {
    hide A.IsRun, A.After, Delivers, Attended, A.BeginClose, A.Remember;
    var step := StepOf(m, at);
    var u := A.Apply(s, step);
    steps := [step];
    RunOne(s, step);
    DeliversOne(m, at);
    StepKeepsAttended(s, step);
    BegunClose(s, m.sessionId);
    var settling := EndsClose(u, m.sessionId);
    RunConcat(s, steps, settling);
    SettlingDelivers(settling, at);
    DeliversConcat(steps, [m], settling, [], at);
    steps := steps + settling;
    assert [m] + [] == [m];
    assert u.closings.Keys - {m.sessionId} == s.closings.Keys;
    assert (u.sessions - {m.sessionId}).Keys == u.sessions.Keys - {m.sessionId};
    assert (u.closings - {m.sessionId}).Keys == u.closings.Keys - {m.sessionId};
  }

  /** A close that a message begins is not doomed. */
  lemma BegunClose(s: A.State, id: SessionId)
    requires id !in s.closings
    ensures var v := A.BeginClose(s, id, false);
            && v.policy == s.policy && v.profileId == s.profileId && v.serials == s.serials && v.stopped == s.stopped
            && v.sessions.Keys == s.sessions.Keys && v.closings.Keys == s.closings.Keys + {id}
            && v.closed == A.Remember(s.closed, id) && !v.closings[id].byTimer
  {
    hide A.Remember, A.TargetsOf, A.CancelAll;
  }

  /** The messages of a list that open nothing, each handled to its end before the next. */
  lemma {:induction false} DeliversRest(s: A.State, r: seq<Message>, at: int) returns (steps: seq<A.Step>)
    requires Attended(s) && Ready(s) && (forall m | m in r :: !m.Open?) && Ended(r) !! s.closings.Keys
    ensures A.IsRun(s, steps) && Delivers(steps, r, at)
    ensures var v := A.After(s, steps);
            && Ready(v) && v.policy == s.policy && v.profileId == s.profileId && v.serials == s.serials
            && v.closings.Keys == s.closings.Keys
            && v.sessions.Keys == s.sessions.Keys - Ended(r) && v.closed == Remembered(s.closed, r)
    decreases |r|
  {
    hide A.IsRun, A.After, Delivers, Attended, Ended, A.Remember, Ready;
    if r == [] {
      steps := [];
      RunNone(s);
      SettlingDelivers([], at);
      NothingEnded();
      assert s.sessions.Keys - {} == s.sessions.Keys;
    } else {
      var (m, rest) := (r[0], r[1..]);
      assert m in r;
      EndedFirst(r);
      if m.Start? {
        steps := HandlesStart(s, m, at);
      } else if m.Cancel? {
        steps := HandlesCancel(s, m, at);
      } else {
        steps := HandlesClose(s, m, at);
      }
      var u := A.After(s, steps);
      RunKeepsAttended(s, steps);
      var more := DeliversRest(u, rest, at);
      DeliveryConcat(s, steps, [m], more, rest, at);
      steps := steps + more;
      assert [m] + rest == r;
      assert s.sessions.Keys - Ended(r) == u.sessions.Keys - Ended(rest);
    }
  }

  // ---------- The choice ----------

  /** The opens first, then the ends of the closes under way, then the rest. */
  lemma UnsettledOpens(s: A.State, o: seq<Message>, r: seq<Message>, at: int) returns (first: seq<A.Step>, second: seq<A.Step>)
    requires Attended(s) && Ready(s) && (forall m | m in o :: m.Open?) && (forall m | m in r :: !m.Open?)
    requires Admitted(s.policy, s.profileId, o, at) !! Ended(r) && (forall id | id in Ended(r) :: !Doomed(s, id))
    requires !Settled(s.policy, BooksOf(s), Ending(s), Admitted(s.policy, s.profileId, o, at), Ended(r), Remembered(s.closed, r))
    ensures A.IsRun(s, first) && Delivers(first, o + r, at)
    ensures A.IsRun(A.After(s, first), second) && Delivers(second, o + r, at)
    ensures A.After(A.After(s, first), second).serials != A.After(s, first).serials
  {
    hide A.IsRun, A.After, Delivers, Attended, Admitted, Ended, Remembered, Settled, BookAll, Takes, Doomed;
    var (ending, admitted) := (Ending(s), Admitted(s.policy, s.profileId, o, at));
    var opening := DeliversOpens(s, o, at);
    var s1 := A.After(s, opening);
    RunKeepsAttended(s, opening);
    EndingStays(s, s1);
    var settling := EndsAll(s1, ending);
    var s2 := A.After(s1, settling);
    RunKeepsAttended(s1, settling);
    SettlingDelivers(settling, at);
    DeliveryConcat(s, opening, o, settling, [], at);
    assert o + [] == o;
    OnlyDoomedLeft(s, s2, ending);
    var resting := DeliversRest(s2, r, at);
    var s3 := A.After(s2, resting);
    RunKeepsAttended(s2, resting);
    DeliveryConcat(s, opening + settling, o, resting, r, at);
    first := opening + settling + resting;
    var reopening := DeliversOpens(s3, o, at);
    var s4 := A.After(s3, reopening);
    RunKeepsAttended(s3, reopening);
    var again := DeliversRest(s4, r, at);
    DeliveryConcat(s3, reopening, o, again, r, at);
    second := reopening + again;
    OpensBook(s.policy, s.profileId, BooksOf(s), o, at);
    OpensBook(s.policy, s.profileId, BooksOf(s3), o, at);
    assert BooksOf(s3) == Books(BooksOf(s1).held - Ended(r) - ending, Remembered(s.closed, r), BooksOf(s1).serials);
    RememberedAre(s.closed, r);
    SettledBook(s.policy, BooksOf(s), BooksOf(s1), BooksOf(s4), ending, admitted, Ended(r), Remembered(s.closed, r));
  }

  lemma EndingStays(s: A.State, v: A.State)
    requires v.closings == s.closings && v.controls == s.controls
    ensures forall id | id in Ending(s) :: id in v.closings && !Doomed(v, id)
  {
  }

  /** While no message is handled every close under way is of a Session held. */
  lemma OnlyDoomedLeft(s: A.State, v: A.State, ending: set<SessionId>)
    requires Attended(s) && Ready(s) && ending == Ending(s) && v.closings.Keys == s.closings.Keys - ending
    ensures forall id | id in v.closings :: Doomed(s, id)
  {
  }

  /** Unless the Client is steady for a replay, there are two deliveries of it, the second of
      which opens a Session. */
  lemma UnsteadyOpens(s: A.State, sessions: seq<Session>, commands: seq<Command>, now: A.Timestamp, at: int)
    returns (first: seq<A.Step>, second: seq<A.Step>)
    requires A.Reachable(s) && Ready(s) && forall i, j | 0 <= i < j < |sessions| :: sessions[i].id != sessions[j].id
    requires !Steady(s, Replay(sessions, commands, now), at)
    ensures A.IsRun(s, first) && Delivers(first, Replay(sessions, commands, now), at)
    ensures A.IsRun(A.After(s, first), second) && Delivers(second, Replay(sessions, commands, now), at)
    ensures A.After(A.After(s, first), second).serials != A.After(s, first).serials
  {
    hide A.IsRun, A.After, A.Reachable, Attended, Admitted, Ended, Remembered, Settled, Replay, Delivers, Doomed;
    var (o, r) := (Opens(sessions, now), Starts(sessions, commands) + Cancels(commands) + Closes(sessions, now));
    ReachableAttended(s);
    ReplayParts(s.policy, s.profileId, sessions, commands, now, at);
    ListParts(s.policy, s.profileId, s.closed, o, r, at);
    first, second := UnsettledOpens(s, o, r, at);
  }

  /** Two deliveries of the list, in this order. */
  ghost predicate DeliveredTwice(s: A.State, ms: seq<Message>, at: int, first: seq<A.Step>, second: seq<A.Step>) {
    && A.IsRun(s, first) && Delivers(first, ms, at)
    && A.IsRun(A.After(s, first), second) && Delivers(second, ms, at)
  }

  /** In every reachable state in which the Client waits for a message it is steady for a
      replay if and only if no interleaving of two deliveries with what is under way opens a
      Session the second time. */
  lemma SteadyExactly(s: A.State, sessions: seq<Session>, commands: seq<Command>, now: A.Timestamp, at: int)
    requires A.Reachable(s) && Ready(s) && forall i, j | 0 <= i < j < |sessions| :: sessions[i].id != sessions[j].id
    ensures var ms := Replay(sessions, commands, now);
            Steady(s, ms, at) <==>
              forall first, second | DeliveredTwice(s, ms, at, first, second) ::
                A.After(A.After(s, first), second).serials == A.After(s, first).serials
  {
    hide A.IsRun, A.After, A.Reachable, Steady, Delivers, Replay;
    var ms := Replay(sessions, commands, now);
    if Steady(s, ms, at) {
      forall first, second | DeliveredTwice(s, ms, at, first, second)
        ensures A.After(A.After(s, first), second).serials == A.After(s, first).serials
      {
        I.ReplayTwice(s, sessions, commands, now, at, first, second);
      }
    } else {
      var first, second := UnsteadyOpens(s, sessions, commands, now, at);
      assert DeliveredTwice(s, ms, at, first, second);
    }
  }
}
