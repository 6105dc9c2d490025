/** What the Server replays when a Client reconnects (apps/server/src/session-reconciliation.ts). */
module Reconnect {
  import opened Wire
  import A = Authority
  import D = SessionDatabase
  import S = ServerCommands

  datatype Session = Session(id: SessionId, status: D.SessionStatus, contract: A.Contract)
  datatype Command = Command(id: CommandId, sessionId: SessionId, status: S.CommandStatus, timeoutSeconds: nat)

  datatype Message =
    | Open(sessionId: SessionId, contract: A.Contract, serverTime: A.Timestamp)
    | Start(commandId: CommandId, sessionId: SessionId, timeoutSeconds: nat, maxOutputBytes: nat)
    | Cancel(commandId: CommandId)
    | Close(sessionId: SessionId, reason: string)

  predicate Usable(session: Session) {
    session.status == D.Opening || session.status == D.Active
  }

  /** The entry of the map built from the list: the last Session with the identifier. */
  function Lookup(sessions: seq<Session>, id: SessionId): (r: Option<Session>)
    ensures r.Some? ==> r.value in sessions && r.value.id == id
    ensures r.None? ==> forall i | 0 <= i < |sessions| :: sessions[i].id != id
  {
    if sessions == [] then None
    else if sessions[|sessions| - 1].id == id then Some(sessions[|sessions| - 1])
    else Lookup(sessions[..|sessions| - 1], id)
  }

  predicate Restarts(sessions: seq<Session>, command: Command) {
    var session := Lookup(sessions, command.sessionId);
    session.Some? && Usable(session.value) && command.status != S.CancellationRequested
  }

  predicate Past(contract: A.Contract, now: A.Timestamp) {
    contract.expiresAt.instant.Some? && now.instant.Some? && contract.expiresAt.instant.value <= now.instant.value
  }

  function OpenOf(session: Session, now: A.Timestamp): Message {
    Open(session.id, session.contract, now)
  }

  function StartOf(command: Command): Message {
    Start(command.id, command.sessionId, command.timeoutSeconds, DEFAULT_COMMAND_OUTPUT_BYTES)
  }

  function CloseOf(session: Session, now: A.Timestamp): Message {
    Close(session.id, if Past(session.contract, now) then "expired" else "cancelled")
  }

  /** What the four loops have appended before each of their iterations. */
  function Opens(sessions: seq<Session>, now: A.Timestamp): seq<Message> {
    if sessions == [] then []
    else Opens(sessions[..|sessions| - 1], now)
         + (if Usable(sessions[|sessions| - 1]) then [OpenOf(sessions[|sessions| - 1], now)] else [])
  }

  function Starts(sessions: seq<Session>, commands: seq<Command>): seq<Message> {
    if commands == [] then []
    else Starts(sessions, commands[..|commands| - 1])
         + (if Restarts(sessions, commands[|commands| - 1]) then [StartOf(commands[|commands| - 1])] else [])
  }

  function Cancels(commands: seq<Command>): seq<Message> {
    if commands == [] then []
    else Cancels(commands[..|commands| - 1])
         + (if commands[|commands| - 1].status == S.CancellationRequested then [Cancel(commands[|commands| - 1].id)] else [])
  }

  function Closes(sessions: seq<Session>, now: A.Timestamp): seq<Message> {
    if sessions == [] then []
    else Closes(sessions[..|sessions| - 1], now)
         + (if sessions[|sessions| - 1].status == D.CancellationRequested then [CloseOf(sessions[|sessions| - 1], now)] else [])
  }

  method SessionReconnectMessages(sessions: seq<Session>, commands: seq<Command>, now: A.Timestamp)
    returns (messages: seq<Message>)
    ensures messages == Opens(sessions, now) + Starts(sessions, commands) + Cancels(commands) + Closes(sessions, now)
    ensures InOrder(messages) && StartsFollowOpens(messages)
  {
    hide InOrder, StartsFollowOpens, Lookup, Usable, Restarts;
    messages := [];
    for i := 0 to |sessions|
      invariant messages == Opens(sessions[..i], now)
    {
      assert sessions[..i + 1][..i] == sessions[..i];
      if Usable(sessions[i]) {
        messages := messages + [OpenOf(sessions[i], now)];
      }
    }
    assert sessions[..|sessions|] == sessions;
    ghost var before := messages;
    for i := 0 to |commands|
      invariant messages == before + Starts(sessions, commands[..i])
    {
      assert commands[..i + 1][..i] == commands[..i];
      if Restarts(sessions, commands[i]) {
        messages := messages + [StartOf(commands[i])];
      }
    }
    assert commands[..|commands|] == commands;
    before := messages;
    for i := 0 to |commands|
      invariant messages == before + Cancels(commands[..i])
    {
      assert commands[..i + 1][..i] == commands[..i];
      if commands[i].status == S.CancellationRequested {
        messages := messages + [Cancel(commands[i].id)];
      }
    }
    before := messages;
    for i := 0 to |sessions|
      invariant messages == before + Closes(sessions[..i], now)
    {
      assert sessions[..i + 1][..i] == sessions[..i];
      if sessions[i].status == D.CancellationRequested {
        messages := messages + [CloseOf(sessions[i], now)];
      }
    }
    ReplayOrder(sessions, commands, now);
  }

  // ---------- Order and content ----------

  function Kind(m: Message): nat {
    match m
    case Open(_, _, _) => 0
    case Start(_, _, _, _) => 1
    case Cancel(_) => 2
    case Close(_, _) => 3
  }

  ghost predicate InOrder(ms: seq<Message>) {
    forall i, j | 0 <= i < j < |ms| :: Kind(ms[i]) <= Kind(ms[j])
  }

  /** Every start comes after an open of its own Session. */
  ghost predicate StartsFollowOpens(ms: seq<Message>) {
    forall j | 0 <= j < |ms| && ms[j].Start? ::
      exists i | 0 <= i < j :: ms[i].Open? && ms[i].sessionId == ms[j].sessionId
  }

  lemma {:induction false} OpensAre(sessions: seq<Session>, now: A.Timestamp)
    ensures forall m | m in Opens(sessions, now) :: m.Open?
    ensures forall x | x in sessions && Usable(x) :: OpenOf(x, now) in Opens(sessions, now)
    ensures forall m | m in Opens(sessions, now) :: exists x :: x in sessions && Usable(x) && m == OpenOf(x, now)
  {
    if sessions != [] {
      var (front, last) := (sessions[..|sessions| - 1], sessions[|sessions| - 1]);
      OpensAre(front, now);
      assert forall x | x in sessions :: x in front || x == last;
    }
  }

  lemma {:induction false} StartsAre(sessions: seq<Session>, commands: seq<Command>)
    ensures forall m | m in Starts(sessions, commands) :: m.Start?
    ensures forall x | x in commands && Restarts(sessions, x) :: StartOf(x) in Starts(sessions, commands)
    ensures forall m | m in Starts(sessions, commands) :: exists x :: x in commands && Restarts(sessions, x) && m == StartOf(x)
  {
    if commands != [] {
      var (front, last) := (commands[..|commands| - 1], commands[|commands| - 1]);
      StartsAre(sessions, front);
      assert forall x | x in commands :: x in front || x == last;
    }
  }

  lemma {:induction false} CancelsAre(commands: seq<Command>)
    ensures forall m | m in Cancels(commands) :: m.Cancel?
    ensures forall x | x in commands && x.status == S.CancellationRequested :: Cancel(x.id) in Cancels(commands)
    ensures forall m | m in Cancels(commands) :: exists x :: x in commands && x.status == S.CancellationRequested && m == Cancel(x.id)
  {
    if commands != [] {
      var (front, last) := (commands[..|commands| - 1], commands[|commands| - 1]);
      CancelsAre(front);
      assert forall x | x in commands :: x in front || x == last;
    }
  }

  lemma {:induction false} ClosesAre(sessions: seq<Session>, now: A.Timestamp)
    ensures forall m | m in Closes(sessions, now) :: m.Close?
    ensures forall x | x in sessions && x.status == D.CancellationRequested :: CloseOf(x, now) in Closes(sessions, now)
    ensures forall m | m in Closes(sessions, now) :: exists x :: x in sessions && x.status == D.CancellationRequested && m == CloseOf(x, now)
  {
    if sessions != [] {
      var (front, last) := (sessions[..|sessions| - 1], sessions[|sessions| - 1]);
      ClosesAre(front, now);
      assert forall x | x in sessions :: x in front || x == last;
    }
  }

  function Replay(sessions: seq<Session>, commands: seq<Command>, now: A.Timestamp): seq<Message> {
    Opens(sessions, now) + Starts(sessions, commands) + Cancels(commands) + Closes(sessions, now)
  }

  lemma KindsInOrder(o: seq<Message>, s: seq<Message>, c: seq<Message>, x: seq<Message>)
    requires forall m | m in o :: m.Open?
    requires forall m | m in s :: m.Start?
    requires forall m | m in c :: m.Cancel?
    requires forall m | m in x :: m.Close?
    ensures InOrder(o + s + c + x)
  {
    var ms := o + s + c + x;
    forall i | 0 <= i < |ms|
      ensures Kind(ms[i]) == if i < |o| then 0 else if i < |o| + |s| then 1 else if i < |o| + |s| + |c| then 2 else 3
    {
      assert ms[i] in (if i < |o| then o else if i < |o| + |s| then s else if i < |o| + |s| + |c| then c else x);
    }
  }

  lemma OpenBefore(ms: seq<Message>, o: seq<Message>, rest: seq<Message>, j: nat, m: Message)
    requires ms == o + rest && |o| <= j < |ms| && m in o && m.Open? && ms[j].Start? && m.sessionId == ms[j].sessionId
    ensures exists i | 0 <= i < j :: ms[i].Open? && ms[i].sessionId == ms[j].sessionId
  {
    var i :| 0 <= i < |o| && o[i] == m;
    assert ms[i] == m;
  }

  /** The messages come as opens, starts, cancels, closes, and every start follows the open
      of its Session. */
  lemma ReplayOrder(sessions: seq<Session>, commands: seq<Command>, now: A.Timestamp)
    ensures InOrder(Replay(sessions, commands, now)) && StartsFollowOpens(Replay(sessions, commands, now))
  {
    hide Opens, Starts, Cancels, Closes, InOrder;
    var (o, s, c, x) := (Opens(sessions, now), Starts(sessions, commands), Cancels(commands), Closes(sessions, now));
    OpensAre(sessions, now);
    StartsAre(sessions, commands);
    CancelsAre(commands);
    ClosesAre(sessions, now);
    KindsInOrder(o, s, c, x);
    var ms := Replay(sessions, commands, now);
    forall j | 0 <= j < |ms| && ms[j].Start?
      ensures exists i | 0 <= i < j :: ms[i].Open? && ms[i].sessionId == ms[j].sessionId
    {
      assert ms[j] in (if j < |o| then o else if j < |o| + |s| then s else if j < |o| + |s| + |c| then c else x);
      var command: Command :| command in commands && Restarts(sessions, command) && ms[j] == StartOf(command);
      var session := Lookup(sessions, command.sessionId).value;
      assert ms == o + (s + c + x);
      OpenBefore(ms, o, s + c + x, j, OpenOf(session, now));
    }
  }

  lemma {:induction false} LookupFinds(sessions: seq<Session>, session: Session)
    requires forall i, j | 0 <= i < j < |sessions| :: sessions[i].id != sessions[j].id
    requires session in sessions
    ensures Lookup(sessions, session.id) == Some(session)
  {
    var n := |sessions| - 1;
    if session != sessions[n] {
      LookupFinds(sessions[..n], session);
    }
  }

  predicate Opening(ms: seq<Message>, id: SessionId) {
    exists m | m in ms :: m.Open? && m.sessionId == id
  }

  predicate Closing(ms: seq<Message>, id: SessionId) {
    exists m | m in ms :: m.Close? && m.sessionId == id
  }

  predicate Starting(ms: seq<Message>, id: CommandId) {
    exists m | m in ms :: m.Start? && m.commandId == id
  }

  predicate Cancelling(ms: seq<Message>, id: CommandId) {
    exists m | m in ms :: m.Cancel? && m.commandId == id
  }

  lemma ReplayMembers(sessions: seq<Session>, commands: seq<Command>, now: A.Timestamp, m: Message)
    ensures m.Open? ==> (m in Replay(sessions, commands, now) <==> m in Opens(sessions, now))
    ensures m.Close? ==> (m in Replay(sessions, commands, now) <==> m in Closes(sessions, now))
  {
    hide Opens, Starts, Cancels, Closes;
    OpensAre(sessions, now);
    StartsAre(sessions, commands);
    CancelsAre(commands);
    ClosesAre(sessions, now);
  }

  /** With distinct identifiers the replay opens exactly the opening and active Sessions,
      under their contract, and closes exactly the ones to be cancelled, as expired if their
      time is up and as cancelled otherwise. */
  lemma SessionContent(sessions: seq<Session>, commands: seq<Command>, now: A.Timestamp, session: Session)
    requires forall i, j | 0 <= i < j < |sessions| :: sessions[i].id != sessions[j].id
    requires session in sessions
    ensures var (ms, expiry) := (Replay(sessions, commands, now), session.contract.expiresAt.instant);
            var past := expiry.Some? && now.instant.Some? && expiry.value <= now.instant.value;
            && (Opening(ms, session.id) <==> session.status == D.Opening || session.status == D.Active)
            && (Opening(ms, session.id) <==> Open(session.id, session.contract, now) in ms)
            && (Closing(ms, session.id) <==> session.status == D.CancellationRequested)
            && (Close(session.id, "expired") in ms <==> session.status == D.CancellationRequested && past)
            && (Close(session.id, "cancelled") in ms <==> session.status == D.CancellationRequested && !past)
  {
    hide Opens, Closes, Replay;
    OpensAre(sessions, now);
    ClosesAre(sessions, now);
    var ms := Replay(sessions, commands, now);
    forall m: Message
      ensures m.Open? ==> (m in ms <==> m in Opens(sessions, now))
      ensures m.Close? ==> (m in ms <==> m in Closes(sessions, now))
    {
      ReplayMembers(sessions, commands, now, m);
    }
    assert Usable(session) ==> OpenOf(session, now) in ms;
    assert session.status == D.CancellationRequested ==> CloseOf(session, now) in ms;
  }

  /** With distinct identifiers the replay cancels exactly the Commands to be cancelled and
      restarts exactly the other Commands of the Sessions it opens. */
  lemma CommandContent(sessions: seq<Session>, commands: seq<Command>, now: A.Timestamp, command: Command)
    requires forall i, j | 0 <= i < j < |sessions| :: sessions[i].id != sessions[j].id
    requires forall i, j | 0 <= i < j < |commands| :: commands[i].id != commands[j].id
    requires command in commands
    ensures var ms := Replay(sessions, commands, now);
            && (Cancelling(ms, command.id) <==> command.status == S.CancellationRequested)
            && (Starting(ms, command.id) <==> command.status != S.CancellationRequested && Opening(ms, command.sessionId))
            && (Starting(ms, command.id) <==>
                  Start(command.id, command.sessionId, command.timeoutSeconds, DEFAULT_COMMAND_OUTPUT_BYTES) in ms)
  {
    hide Opens, Starts, Cancels, Closes;
    OpensAre(sessions, now);
    StartsAre(sessions, commands);
    CancelsAre(commands);
    ClosesAre(sessions, now);
    var ms := Replay(sessions, commands, now);
    assert command.status == S.CancellationRequested ==> Cancel(command.id) in ms;
    assert Restarts(sessions, command) ==> StartOf(command) in ms;
    var parent := Lookup(sessions, command.sessionId);
    if parent.Some? {
      LookupFinds(sessions, parent.value);
      SessionContent(sessions, commands, now, parent.value);
    } else {
      assert !Opening(ms, command.sessionId);
    }
  }

  // ---------- Once, and in list order ----------

  ghost predicate AllDistinct(ms: seq<Message>) {
    forall i, j | 0 <= i < j < |ms| :: ms[i] != ms[j]
  }

  ghost predicate Before(ms: seq<Message>, a: Message, b: Message) {
    exists p, q | 0 <= p < q < |ms| :: ms[p] == a && ms[q] == b
  }

  lemma BeforeWithin(pre: seq<Message>, ms: seq<Message>, post: seq<Message>, a: Message, b: Message)
    requires Before(ms, a, b)
    ensures Before(pre + ms + post, a, b)
  {
    var p, q :| 0 <= p < q < |ms| && ms[p] == a && ms[q] == b;
    var all := pre + ms + post;
    assert all[|pre| + p] == a && all[|pre| + q] == b;
  }

  lemma BeforeLast(ms: seq<Message>, a: Message, b: Message)
    requires a in ms
    ensures Before(ms + [b], a, b)
  {
    var p :| 0 <= p < |ms| && ms[p] == a;
    assert (ms + [b])[p] == a && (ms + [b])[|ms|] == b;
  }

  lemma BeforeStays(ms: seq<Message>, more: seq<Message>, a: Message, b: Message)
    requires Before(ms, a, b)
    ensures Before(ms + more, a, b)
  {
    BeforeWithin([], ms, more, a, b);
    assert [] + ms + more == ms + more;
  }

  lemma {:induction false} OpensInListOrder(sessions: seq<Session>, now: A.Timestamp, i: nat, j: nat)
    requires i < j < |sessions| && Usable(sessions[i]) && Usable(sessions[j])
    ensures Before(Opens(sessions, now), OpenOf(sessions[i], now), OpenOf(sessions[j], now))
  {
    hide Before, Usable;
    var (n, front) := (|sessions| - 1, sessions[..|sessions| - 1]);
    if j == n {
      OpensAre(front, now);
      assert front[i] in front;
      BeforeLast(Opens(front, now), OpenOf(sessions[i], now), OpenOf(sessions[j], now));
    } else {
      OpensInListOrder(front, now, i, j);
      BeforeStays(Opens(front, now), if Usable(sessions[n]) then [OpenOf(sessions[n], now)] else [],
                  OpenOf(sessions[i], now), OpenOf(sessions[j], now));
    }
  }

  lemma {:induction false} ClosesInListOrder(sessions: seq<Session>, now: A.Timestamp, i: nat, j: nat)
    requires i < j < |sessions| && sessions[i].status == sessions[j].status == D.CancellationRequested
    ensures Before(Closes(sessions, now), CloseOf(sessions[i], now), CloseOf(sessions[j], now))
  {
    hide Before;
    var (n, front) := (|sessions| - 1, sessions[..|sessions| - 1]);
    if j == n {
      ClosesAre(front, now);
      assert front[i] in front;
      BeforeLast(Closes(front, now), CloseOf(sessions[i], now), CloseOf(sessions[j], now));
    } else {
      ClosesInListOrder(front, now, i, j);
      BeforeStays(Closes(front, now), if sessions[n].status == D.CancellationRequested then [CloseOf(sessions[n], now)] else [],
                  CloseOf(sessions[i], now), CloseOf(sessions[j], now));
    }
  }

  lemma {:induction false} StartsInListOrder(sessions: seq<Session>, commands: seq<Command>, i: nat, j: nat)
    requires i < j < |commands| && Restarts(sessions, commands[i]) && Restarts(sessions, commands[j])
    ensures Before(Starts(sessions, commands), StartOf(commands[i]), StartOf(commands[j]))
  {
    hide Before, Restarts;
    var (n, front) := (|commands| - 1, commands[..|commands| - 1]);
    if j == n {
      StartsAre(sessions, front);
      assert front[i] in front;
      BeforeLast(Starts(sessions, front), StartOf(commands[i]), StartOf(commands[j]));
    } else {
      StartsInListOrder(sessions, front, i, j);
      BeforeStays(Starts(sessions, front), if Restarts(sessions, commands[n]) then [StartOf(commands[n])] else [],
                  StartOf(commands[i]), StartOf(commands[j]));
    }
  }

  lemma {:induction false} CancelsInListOrder(commands: seq<Command>, i: nat, j: nat)
    requires i < j < |commands| && commands[i].status == commands[j].status == S.CancellationRequested
    ensures Before(Cancels(commands), Cancel(commands[i].id), Cancel(commands[j].id))
  {
    hide Before;
    var (n, front) := (|commands| - 1, commands[..|commands| - 1]);
    if j == n {
      CancelsAre(front);
      assert front[i] in front;
      BeforeLast(Cancels(front), Cancel(commands[i].id), Cancel(commands[j].id));
    } else {
      CancelsInListOrder(front, i, j);
      BeforeStays(Cancels(front), if commands[n].status == S.CancellationRequested then [Cancel(commands[n].id)] else [],
                  Cancel(commands[i].id), Cancel(commands[j].id));
    }
  }

  /** Messages of one kind come in the order of the list they are made from. */
  lemma ReplayKeepsListOrder(sessions: seq<Session>, commands: seq<Command>, now: A.Timestamp, i: nat, j: nat)
    requires i < j
    ensures var ms := Replay(sessions, commands, now);
            && (j < |sessions| && Usable(sessions[i]) && Usable(sessions[j]) ==>
                  Before(ms, OpenOf(sessions[i], now), OpenOf(sessions[j], now)))
            && (j < |commands| && Restarts(sessions, commands[i]) && Restarts(sessions, commands[j]) ==>
                  Before(ms, StartOf(commands[i]), StartOf(commands[j])))
            && (j < |commands| && commands[i].status == commands[j].status == S.CancellationRequested ==>
                  Before(ms, Cancel(commands[i].id), Cancel(commands[j].id)))
            && (j < |sessions| && sessions[i].status == sessions[j].status == D.CancellationRequested ==>
                  Before(ms, CloseOf(sessions[i], now), CloseOf(sessions[j], now)))
  {
    hide Before, Usable, Restarts, Opens, Starts, Cancels, Closes, OpenOf, StartOf, CloseOf;
    var (o, s, c, x) := (Opens(sessions, now), Starts(sessions, commands), Cancels(commands), Closes(sessions, now));
    assert o + s + c + x == [] + o + (s + c + x) == o + s + (c + x) == (o + s) + c + x == (o + s + c) + x + [];
    if j < |sessions| && Usable(sessions[i]) && Usable(sessions[j]) {
      OpensInListOrder(sessions, now, i, j);
      BeforeWithin([], o, s + c + x, OpenOf(sessions[i], now), OpenOf(sessions[j], now));
    }
    if j < |commands| && Restarts(sessions, commands[i]) && Restarts(sessions, commands[j]) {
      StartsInListOrder(sessions, commands, i, j);
      BeforeWithin(o, s, c + x, StartOf(commands[i]), StartOf(commands[j]));
    }
    if j < |commands| && commands[i].status == commands[j].status == S.CancellationRequested {
      CancelsInListOrder(commands, i, j);
      BeforeWithin(o + s, c, x, Cancel(commands[i].id), Cancel(commands[j].id));
    }
    if j < |sessions| && sessions[i].status == sessions[j].status == D.CancellationRequested {
      ClosesInListOrder(sessions, now, i, j);
      BeforeWithin(o + s + c, x, [], CloseOf(sessions[i], now), CloseOf(sessions[j], now));
    }
  }

  lemma AllDistinctPush(ms: seq<Message>, m: Message)
    requires AllDistinct(ms) && m !in ms
    ensures AllDistinct(ms + [m])
  {
  }

  lemma {:induction false} SessionsOnce(sessions: seq<Session>, now: A.Timestamp)
    requires forall i, j | 0 <= i < j < |sessions| :: sessions[i].id != sessions[j].id
    ensures AllDistinct(Opens(sessions, now)) && AllDistinct(Closes(sessions, now))
  {
    hide AllDistinct;
    if sessions != [] {
      var (front, last) := (sessions[..|sessions| - 1], sessions[|sessions| - 1]);
      SessionsOnce(front, now);
      OpensAre(front, now);
      ClosesAre(front, now);
      assert forall x | x in front :: x.id != last.id;
      if Usable(last) {
        AllDistinctPush(Opens(front, now), OpenOf(last, now));
      } else {
        assert Opens(front, now) + [] == Opens(front, now);
      }
      if last.status == D.CancellationRequested {
        AllDistinctPush(Closes(front, now), CloseOf(last, now));
      } else {
        assert Closes(front, now) + [] == Closes(front, now);
      }
    } else {
      assert AllDistinct([]) by { NothingRepeats(); }
    }
  }

  lemma NothingRepeats()
    ensures AllDistinct([])
  {
  }

  lemma {:induction false} CommandsOnce(sessions: seq<Session>, commands: seq<Command>)
    requires forall i, j | 0 <= i < j < |commands| :: commands[i].id != commands[j].id
    ensures AllDistinct(Starts(sessions, commands)) && AllDistinct(Cancels(commands))
  {
    hide AllDistinct, Restarts;
    if commands != [] {
      var (front, last) := (commands[..|commands| - 1], commands[|commands| - 1]);
      CommandsOnce(sessions, front);
      StartsAre(sessions, front);
      CancelsAre(front);
      assert forall x | x in front :: x.id != last.id;
      if Restarts(sessions, last) {
        AllDistinctPush(Starts(sessions, front), StartOf(last));
      } else {
        assert Starts(sessions, front) + [] == Starts(sessions, front);
      }
      if last.status == S.CancellationRequested {
        AllDistinctPush(Cancels(front), Cancel(last.id));
      } else {
        assert Cancels(front) + [] == Cancels(front);
      }
    } else {
      assert AllDistinct([]) by { NothingRepeats(); }
    }
  }

  lemma AllDistinctConcat(a: seq<Message>, b: seq<Message>)
    requires AllDistinct(a) && AllDistinct(b) && forall x, y | x in a && y in b :: x != y
    ensures AllDistinct(a + b)
  {
    forall i, j | 0 <= i < j < |a + b|
      ensures (a + b)[i] != (a + b)[j]
    {
      if i < |a| <= j {
        assert a[i] in a && b[j - |a|] in b;
      }
    }
  }

  /** With distinct identifiers no message is replayed twice. */
  lemma NoMessageTwice(sessions: seq<Session>, commands: seq<Command>, now: A.Timestamp)
    requires forall i, j | 0 <= i < j < |sessions| :: sessions[i].id != sessions[j].id
    requires forall i, j | 0 <= i < j < |commands| :: commands[i].id != commands[j].id
    ensures AllDistinct(Replay(sessions, commands, now))
  {
    hide AllDistinct, Opens, Starts, Cancels, Closes;
    var (o, s, c, x) := (Opens(sessions, now), Starts(sessions, commands), Cancels(commands), Closes(sessions, now));
    OpensAre(sessions, now);
    StartsAre(sessions, commands);
    CancelsAre(commands);
    ClosesAre(sessions, now);
    SessionsOnce(sessions, now);
    CommandsOnce(sessions, commands);
    AllDistinctConcat(o, s);
    AllDistinctConcat(o + s, c);
    AllDistinctConcat(o + s + c, x);
  }
}
