/** What a replay does to the authority of the Client that receives it, once and then again
    at the same instant, over every interleaving with the closes and cancellations it
    begins (apps/client/src/index.ts). */
module ReplayDelivery {
  import opened Wire
  import opened Reconnect
  import opened AuthorityProgress
  import A = Authority
  import B = AuthorityBounds
  import D = SessionDatabase

  /** The turn a message begins, all clock readings being the same. */
  function StepOf(m: Message, at: int): A.Step {
    match m
    case Open(id, contract, serverTime) => A.ReceiveOpen(OpenMessageOf(id, contract, serverTime), A.Readings(at, at, at))
    case Start(c, id, timeout, output) => A.ReceiveStart(A.StartMessage(c, id, timeout, output), A.Readings(at, at, at))
    case Cancel(c) => A.ReceiveCancel(c)
    case Close(id, _) => A.ReceiveClose(id)
  }

  function OpenMessageOf(id: SessionId, contract: A.Contract, serverTime: A.Timestamp): A.OpenMessage {
    A.OpenMessage(id, contract, Some(serverTime))
  }

  /** The steps receive exactly these messages, in this order, and otherwise only settle
      what is under way. */
  ghost predicate Delivers(steps: seq<A.Step>, ms: seq<Message>, at: int)
    decreases |steps|
  {
    if steps == [] then ms == []
    else if Settles(steps[0]) then Delivers(steps[1..], ms, at)
    else ms != [] && steps[0] == StepOf(ms[0], at) && Delivers(steps[1..], ms[1..], at)
  }

  /** No message is being handled and no Session is being closed. */
  predicate Quiet(s: A.State) {
    s.task == A.Idle && s.closings == map[]
  }

  // ---------- What the delivery of a list comes to ----------

  /** The Sessions held once the closes under way have ended, the closes remembered, and how
      many Sessions were ever opened. */
  datatype Books = Books(held: set<SessionId>, closed: seq<SessionId>, serials: nat)

  /** The Client admits the Session for as long as it has room and does not remember its close. */
  predicate Admissible(policy: A.Policy, profileId: string, m: A.OpenMessage, at: int) {
    && profileId == m.contract.clientProfileId
    && m.contract.organizationId == policy.organizationId
    && m.contract.maxConcurrentCommands <= policy.maxConcurrentCommands
    && var deadline := A.AdjustedDeadline(m.contract.expiresAt, m.serverTime, at);
       deadline.Some? && 0 < A.Seconds(deadline.value - at) <= policy.maxSessionDurationSeconds
  }

  function Book(policy: A.Policy, profileId: string, b: Books, m: Message, at: int): Books {
    match m
    case Open(id, contract, serverTime) =>
      if id !in b.closed && id !in b.held && |b.held| < policy.maxConcurrentSessions
         && Admissible(policy, profileId, OpenMessageOf(id, contract, serverTime), at)
      then Books(b.held + {id}, b.closed, b.serials + 1) else b
    case Close(id, _) => Books(b.held - {id}, A.Remember(b.closed, id), b.serials)
    case _ => b
  }

  function BookAll(policy: A.Policy, profileId: string, b: Books, ms: seq<Message>, at: int): Books
    decreases |ms|
  {
    if ms == [] then b else BookAll(policy, profileId, Book(policy, profileId, b, ms[0], at), ms[1..], at)
  }

  /** The Client's state agrees with the books: a Session whose close the queue awaits is
      still there, but no longer counts. */
  ghost predicate InStep(s: A.State, b: Books) {
    && s.serials == b.serials && s.closed == b.closed
    && match s.task
       case AwaitClose(id) =>
         && s.closings.Keys == {id} && s.sessions.Keys - {id} == b.held
         && (id in s.sessions ==> s.closings[id].session == Some(s.sessions[id].serial))
       case _ => s.closings == map[] && s.sessions.Keys == b.held
  }

  predicate MayOpen(s: A.State, m: A.OpenMessage, at: int) {
    && m.sessionId !in s.closed && m.sessionId !in s.sessions && |s.sessions| < s.policy.maxConcurrentSessions
    && Admissible(s.policy, s.profileId, m, at)
  }

  lemma OpensExactly(s: A.State, m: A.OpenMessage, at: int)
    ensures MayOpen(s, m, at) <==> A.OpenSession(s, m, A.Readings(at, at, at)).serials != s.serials
  {
    hide A.AdjustedDeadline, A.Seconds, A.LocalSessionDecision;
  }

  lemma OpenInStep(s: A.State, m: A.OpenMessage, at: int, b: Books)
    requires InStep(s, b) && s.task == A.Idle
    ensures InStep(A.OpenSession(s, m, A.Readings(at, at, at)),
                   if MayOpen(s, m, at) then Books(b.held + {m.sessionId}, b.closed, b.serials + 1) else b)
  {
    hide A.OpenSession, MayOpen;
    B.OpenTurn(s, m, A.Readings(at, at, at));
    OpensExactly(s, m, at);
  }

  lemma CloseInStep(s: A.State, id: SessionId, b: Books)
    requires InStep(s, b) && s.task == A.Idle
    ensures InStep(A.BeginClose(s, id, false).(task := A.AwaitClose(id)), Books(b.held - {id}, A.Remember(b.closed, id), b.serials))
  {
    hide A.TargetsOf, A.CancelAll, A.Remember;
  }

  lemma MessageInStep(s: A.State, m: Message, at: int, b: Books)
    requires A.Enabled(s, StepOf(m, at)) && InStep(s, b)
    ensures var v := A.Apply(s, StepOf(m, at));
            v.policy == s.policy && v.profileId == s.profileId && InStep(v, Book(s.policy, s.profileId, b, m, at))
  {
    hide A.OpenSession, A.BeginClose, A.StartCommand, A.Remember, Admissible;
    match m {
      case Open(id, contract, serverTime) =>
        var open := OpenMessageOf(id, contract, serverTime);
        B.OpenTurn(s, open, A.Readings(at, at, at));
        OpenInStep(s, open, at, b);
        assert s.sessions.Keys == b.held;
      case Close(id, _) =>
        B.BeginTurn(s, id, false);
        CloseInStep(s, id, b);
      case Start(c, id, timeout, output) =>
        B.StartTurn(s, A.StartMessage(c, id, timeout, output), A.Readings(at, at, at));
      case Cancel(_) =>
    }
  }

  lemma SettlingInStep(s: A.State, step: A.Step, b: Books)
    requires A.Enabled(s, step) && Settles(step) && InStep(s, b)
    ensures var v := A.Apply(s, step);
            v.policy == s.policy && v.profileId == s.profileId && InStep(v, b)
  {
    hide A.AllSettled, A.AllConfirmed, A.AllFinished;
  }

  /** However its turns are interleaved, a delivery does what the books say. */
  lemma {:induction false} DeliveryInStep(s: A.State, steps: seq<A.Step>, ms: seq<Message>, at: int, b: Books)
    requires A.IsRun(s, steps) && Delivers(steps, ms, at) && InStep(s, b)
    ensures var v := A.After(s, steps);
            v.policy == s.policy && v.profileId == s.profileId && InStep(v, BookAll(s.policy, s.profileId, b, ms, at))
    decreases |steps|
  {
    hide A.Enabled, A.Apply, InStep, StepOf, Book, Settles;
    if steps != [] {
      var v := A.Apply(s, steps[0]);
      if Settles(steps[0]) {
        SettlingInStep(s, steps[0], b);
        DeliveryInStep(v, steps[1..], ms, at, b);
      } else {
        MessageInStep(s, ms[0], at, b);
        DeliveryInStep(v, steps[1..], ms[1..], at, Book(s.policy, s.profileId, b, ms[0], at));
      }
    }
  }

  // ---------- What the books come to ----------

  /** The Sessions a list opens, if the Client has room and does not remember their closes. */
  function Admitted(policy: A.Policy, profileId: string, ms: seq<Message>, at: int): set<SessionId> {
    set i | 0 <= i < |ms| && ms[i].Open?
            && Admissible(policy, profileId, OpenMessageOf(ms[i].sessionId, ms[i].contract, ms[i].serverTime), at) :: ms[i].sessionId
  }

  function Ended(ms: seq<Message>): set<SessionId> {
    set i | 0 <= i < |ms| && ms[i].Close? :: ms[i].sessionId
  }

  /** The closes the Client remembers once a list has been delivered. */
  function Remembered(closed: seq<SessionId>, ms: seq<Message>): seq<SessionId>
    decreases |ms|
  {
    if ms == [] then closed
    else Remembered(if ms[0].Close? then A.Remember(closed, ms[0].sessionId) else closed, ms[1..])
  }

  function Members(ids: seq<SessionId>): (r: set<SessionId>)
    ensures forall x :: x in r <==> x in ids
  {
    set x | x in ids
  }

  function Room(policy: A.Policy, held: set<SessionId>): nat {
    Max(policy.maxConcurrentSessions - |held|, 0)
  }

  /** From `b` to `c` as many of the admitted Sessions were opened as there was room for. */
  ghost predicate Takes(policy: A.Policy, b: Books, c: Books, admitted: set<SessionId>) {
    var wanted := admitted - b.held - Members(b.closed);
    && c.closed == b.closed && b.held <= c.held <= b.held + wanted
    && |c.held - b.held| == Min(|wanted|, Room(policy, b.held))
    && c.serials == b.serials + |c.held - b.held|
  }

  lemma TakesNothing(policy: A.Policy, b: Books)
    ensures Takes(policy, b, b, {})
  {
    assert b.held - b.held == {};
  }

  lemma TakesOne(policy: A.Policy, b: Books, c: Books, id: SessionId, rest: set<SessionId>)
    requires id !in b.closed && id !in b.held && |b.held| < policy.maxConcurrentSessions
    requires Takes(policy, Books(b.held + {id}, b.closed, b.serials + 1), c, rest)
    ensures Takes(policy, b, c, rest + {id})
  {
    hide Members;
    OneMore(b.held, c.held, id, rest, Members(b.closed));
  }

  lemma OneMore(held: set<SessionId>, after: set<SessionId>, id: SessionId, rest: set<SessionId>, closed: set<SessionId>)
    requires id !in held && id !in closed
    requires held + {id} <= after <= held + {id} + (rest - (held + {id}) - closed)
    ensures |held + {id}| == |held| + 1
    ensures held <= after <= held + (rest + {id} - held - closed)
    ensures |rest + {id} - held - closed| == |rest - (held + {id}) - closed| + 1
    ensures |after - held| == |after - (held + {id})| + 1
  {
    assert rest + {id} - held - closed == (rest - (held + {id}) - closed) + {id};
    assert after - held == (after - (held + {id})) + {id};
  }

  lemma TakesAnother(policy: A.Policy, b: Books, c: Books, id: SessionId, rest: set<SessionId>)
    requires id in b.closed || id in b.held || |b.held| >= policy.maxConcurrentSessions
    requires Takes(policy, b, c, rest)
    ensures Takes(policy, b, c, rest + {id})
  {
    var closed := Members(b.closed);
    if id in b.closed || id in b.held {
      assert rest + {id} - b.held - closed == rest - b.held - closed;
    }
  }

  lemma {:induction false} OpensBook(policy: A.Policy, profileId: string, b: Books, ms: seq<Message>, at: int)
    requires forall m | m in ms :: m.Open?
    ensures Takes(policy, b, BookAll(policy, profileId, b, ms, at), Admitted(policy, profileId, ms, at))
    decreases |ms|
  {
    hide Admissible, Admitted, Takes;
    if ms == [] {
      NothingAdmitted(policy, profileId, at);
      TakesNothing(policy, b);
    } else {
      var (id, rest) := (ms[0].sessionId, ms[1..]);
      var b1 := Book(policy, profileId, b, ms[0], at);
      var c := BookAll(policy, profileId, b1, rest, at);
      OpensBook(policy, profileId, b1, rest, at);
      AdmittedFirst(policy, profileId, ms, at);
      if b1 != b {
        TakesOne(policy, b, c, id, Admitted(policy, profileId, rest, at));
      } else if Admissible(policy, profileId, OpenMessageOf(id, ms[0].contract, ms[0].serverTime), at) {
        TakesAnother(policy, b, c, id, Admitted(policy, profileId, rest, at));
      }
    }
  }

  lemma NothingAdmitted(policy: A.Policy, profileId: string, at: int)
    ensures Admitted(policy, profileId, [], at) == {}
  {
  }

  lemma AdmittedFirst(policy: A.Policy, profileId: string, ms: seq<Message>, at: int)
    requires ms != [] && ms[0].Open?
    ensures var open := OpenMessageOf(ms[0].sessionId, ms[0].contract, ms[0].serverTime);
            Admitted(policy, profileId, ms, at) ==
              Admitted(policy, profileId, ms[1..], at) + if Admissible(policy, profileId, open, at) then {ms[0].sessionId} else {}
  {
    hide Admissible;
    assert forall i | 0 < i < |ms| :: ms[i] == ms[1..][i - 1];
    assert forall i | 0 <= i < |ms[1..]| :: ms[1..][i] == ms[i + 1];
  }

  lemma EndedFirst(ms: seq<Message>)
    requires ms != []
    ensures Ended(ms) == Ended(ms[1..]) + if ms[0].Close? then {ms[0].sessionId} else {}
  {
    var rest := ms[1..];
    assert forall i | 0 < i < |ms| :: ms[i] == rest[i - 1];
    assert forall i | 0 <= i < |rest| :: rest[i] == ms[i + 1];
  }

  /** Everything but opens: closes end Sessions and are remembered. */
  lemma {:induction false} ClosesBook(policy: A.Policy, profileId: string, b: Books, ms: seq<Message>, at: int)
    requires forall m | m in ms :: !m.Open?
    ensures BookAll(policy, profileId, b, ms, at) == Books(b.held - Ended(ms), Remembered(b.closed, ms), b.serials)
    decreases |ms|
  {
    hide A.Remember, Ended;
    if ms == [] {
      assert Ended(ms) == {} by { NothingEnded(); }
      assert b.held - {} == b.held;
    } else {
      var b1 := Book(policy, profileId, b, ms[0], at);
      ClosesBook(policy, profileId, b1, ms[1..], at);
      EndedFirst(ms);
      assert b.held - Ended(ms) == b1.held - Ended(ms[1..]);
    }
  }

  lemma NothingEnded()
    ensures Ended([]) == {}
  {
  }

  /** Only the closes of the list are newly remembered. */
  lemma {:induction false} RememberedAre(closed: seq<SessionId>, ms: seq<Message>)
    ensures forall x | x in Remembered(closed, ms) :: x in closed || x in Ended(ms)
    decreases |ms|
  {
    hide Ended;
    if ms != [] {
      RememberedAre(if ms[0].Close? then A.Remember(closed, ms[0].sessionId) else closed, ms[1..]);
      EndedFirst(ms);
    }
  }

  lemma {:induction false} BookConcat(policy: A.Policy, profileId: string, b: Books, ms: seq<Message>, ns: seq<Message>, at: int)
    ensures BookAll(policy, profileId, b, ms + ns, at) == BookAll(policy, profileId, BookAll(policy, profileId, b, ms, at), ns, at)
    decreases |ms|
  {
    hide Book;
    if ms == [] {
      assert ms + ns == ns;
    } else {
      assert (ms + ns)[1..] == ms[1..] + ns;
      BookConcat(policy, profileId, Book(policy, profileId, b, ms[0], at), ms[1..], ns, at);
    }
  }

  // ---------- Twice ----------

  /** Whether a second delivery finds nothing left to open.  `ending` are the held Sessions
      that may have ended by then, `admitted` the Sessions the list would open, `ended` those
      it closes, `remembered` the closes remembered after it. */
  predicate Settled(policy: A.Policy, b: Books, ending: set<SessionId>, admitted: set<SessionId>, ended: set<SessionId>,
                    remembered: seq<SessionId>)
  {
    var wanted := set x | x in admitted && x !in b.held && x !in b.closed;
    var taken := Min(|wanted|, Room(policy, b.held));
    || |b.held - ended - ending| + taken >= policy.maxConcurrentSessions
    || (taken == |wanted| && forall x | x in admitted && x !in wanted && (x !in b.held || x in ending) :: x in remembered)
  }

  lemma TakenCount(held: set<SessionId>, after: set<SessionId>, ended: set<SessionId>)
    requires held <= after && (after - held) !! ended
    ensures |after - ended| == |held - ended| + |after - held|
  {
    assert after - ended == (held - ended) + (after - held);
  }

  /** What the second delivery would still open. */
  lemma StillWanted(policy: A.Policy, b: Books, c: Books, ending: set<SessionId>, admitted: set<SessionId>, ended: set<SessionId>,
                    remembered: seq<SessionId>)
    requires Takes(policy, b, c, admitted) && admitted !! ended && ending <= b.held
    requires forall x | x in remembered :: x in b.closed || x in ended
    ensures var again := admitted - (c.held - ended - ending) - Members(remembered);
            var wanted := admitted - b.held - Members(b.closed);
            again == {} <==>
              && wanted <= c.held
              && (forall x | x in admitted && x !in wanted && (x !in b.held || x in ending) :: x in remembered)
  {
    var again := admitted - (c.held - ended - ending) - Members(remembered);
    var wanted := admitted - b.held - Members(b.closed);
    forall x | x in admitted
      ensures x in again <==> if x in wanted then x !in c.held else (x !in b.held || x in ending) && x !in remembered
    {
    }
  }

  lemma TakesAll(wanted: set<SessionId>, held: set<SessionId>, after: set<SessionId>)
    requires held <= after <= held + wanted && wanted !! held
    ensures wanted <= after <==> |after - held| == |wanted|
  {
    var taken := after - held;
    assert wanted == taken + (wanted - taken);
    if wanted <= after {
      assert taken == wanted;
    } else {
      assert wanted - taken != {};
    }
  }

  lemma SettledBook(policy: A.Policy, b: Books, c: Books, d: Books, ending: set<SessionId>, admitted: set<SessionId>,
                    ended: set<SessionId>, remembered: seq<SessionId>)
    requires Takes(policy, b, c, admitted) && admitted !! ended && ending <= b.held
    requires forall x | x in remembered :: x in b.closed || x in ended
    requires Takes(policy, Books(c.held - ended - ending, remembered, c.serials), d, admitted)
    ensures d.serials == c.serials <==> Settled(policy, b, ending, admitted, ended, remembered)
  {
    var wanted := admitted - b.held - Members(b.closed);
    assert wanted == set x | x in admitted && x !in b.held && x !in b.closed;
    var again := admitted - (c.held - ended - ending) - Members(remembered);
    StillWanted(policy, b, c, ending, admitted, ended, remembered);
    TakesAll(wanted, b.held, c.held);
    TakenCount(b.held, c.held, ended + ending);
    assert c.held - (ended + ending) == c.held - ended - ending;
    assert b.held - (ended + ending) == b.held - ended - ending;
    assert d.serials == c.serials <==> again == {} || Room(policy, c.held - ended - ending) == 0;
  }

  /** The Sessions held whose close is under way and can end without stopping the Client. */
  function Ending(s: A.State): set<SessionId> {
    set id | id in s.sessions && id in s.closings && !Doomed(s, id)
  }

  /** A caller can tell beforehand whether a second delivery opens nothing more.  Sessions
      whose close is under way take room, but need not be there any more the second time.
      Either the list waits for a close that stops the Client, so there is no second time; or
      the Client is full even when the closes of the list and those under way have ended; or
      everything the list would open finds room the first time, and of every other Session it
      would open, unless that stays held, the close is remembered over the closes of the list. */
  predicate Steady(s: A.State, ms: seq<Message>, at: int) {
    || (exists id | id in Ended(ms) :: Doomed(s, id))
    || Settled(s.policy, BooksOf(s), Ending(s), Admitted(s.policy, s.profileId, ms, at), Ended(ms), Remembered(s.closed, ms))
  }

  function BooksOf(s: A.State): Books {
    Books(s.sessions.Keys, s.closed, s.serials)
  }

  lemma {:induction false} OpensRememberNothing(closed: seq<SessionId>, o: seq<Message>, r: seq<Message>)
    requires forall m | m in o :: m.Open?
    ensures Remembered(closed, o + r) == Remembered(closed, r)
    decreases |o|
  {
    if o == [] {
      assert o + r == r;
    } else {
      assert (o + r)[0] == o[0] && o[0] in o;
      assert (o + r)[1..] == o[1..] + r;
      OpensRememberNothing(closed, o[1..], r);
    }
  }

  /** The opens of a list decide what it admits, the rest what it ends. */
  lemma ListParts(policy: A.Policy, profileId: string, closed: seq<SessionId>, o: seq<Message>, r: seq<Message>, at: int)
    requires (forall m | m in o :: m.Open?) && (forall m | m in r :: !m.Open?)
    ensures Admitted(policy, profileId, o + r, at) == Admitted(policy, profileId, o, at)
    ensures Ended(o + r) == Ended(r) && Remembered(closed, o + r) == Remembered(closed, r)
  {
    hide Admissible;
    var ms := o + r;
    assert forall i | 0 <= i < |o| :: ms[i] == o[i];
    assert forall i | 0 <= i < |r| :: ms[|o| + i] == r[i];
    forall i | 0 <= i < |ms|
      ensures ms[i].Open? <==> i < |o|
    {
      if i < |o| {
        assert o[i] in o;
      } else {
        assert r[i - |o|] in r;
      }
    }
    forall id | id in Admitted(policy, profileId, ms, at)
      ensures id in Admitted(policy, profileId, o, at)
    {
      var i :| 0 <= i < |ms| && ms[i].Open? && ms[i].sessionId == id
               && Admissible(policy, profileId, OpenMessageOf(ms[i].sessionId, ms[i].contract, ms[i].serverTime), at);
      assert i < |o|;
    }
    forall id | id in Ended(ms)
      ensures id in Ended(r)
    {
      var i :| 0 <= i < |ms| && ms[i].Close? && ms[i].sessionId == id;
      assert i >= |o|;
    }
    OpensRememberNothing(closed, o, r);
  }

  lemma BookTwice(policy: A.Policy, profileId: string, b: Books, o: seq<Message>, r: seq<Message>, at: int)
    requires (forall m | m in o :: m.Open?) && (forall m | m in r :: !m.Open?)
    requires Admitted(policy, profileId, o, at) !! Ended(r)
    ensures var c := BookAll(policy, profileId, b, o + r, at);
            BookAll(policy, profileId, c, o + r, at).serials == c.serials <==>
              Settled(policy, b, {}, Admitted(policy, profileId, o, at), Ended(r), Remembered(b.closed, r))
  {
    hide BookAll, Admitted, Ended, Remembered, Takes, Settled;
    var grown := BookAll(policy, profileId, b, o, at);
    OpensBook(policy, profileId, b, o, at);
    BookConcat(policy, profileId, b, o, r, at);
    ClosesBook(policy, profileId, grown, r, at);
    assert grown.closed == b.closed by { TakesClosesNothing(policy, b, grown, Admitted(policy, profileId, o, at)); }
    var c := Books(grown.held - Ended(r), Remembered(b.closed, r), grown.serials);
    var again := BookAll(policy, profileId, c, o, at);
    OpensBook(policy, profileId, c, o, at);
    BookConcat(policy, profileId, c, o, r, at);
    ClosesBook(policy, profileId, again, r, at);
    RememberedAre(b.closed, r);
    assert grown.held - Ended(r) - {} == grown.held - Ended(r);
    SettledBook(policy, b, grown, again, {}, Admitted(policy, profileId, o, at), Ended(r), Remembered(b.closed, r));
  }

  lemma TakesClosesNothing(policy: A.Policy, b: Books, c: Books, admitted: set<SessionId>)
    requires Takes(policy, b, c, admitted)
    ensures c.closed == b.closed
  {
  }

  /** A replay never closes a Session it opens. */
  lemma ReplayParts(policy: A.Policy, profileId: string, sessions: seq<Session>, commands: seq<Command>, now: A.Timestamp, at: int)
    requires forall i, j | 0 <= i < j < |sessions| :: sessions[i].id != sessions[j].id
    ensures var (o, r) := (Opens(sessions, now), Starts(sessions, commands) + Cancels(commands) + Closes(sessions, now));
            && Replay(sessions, commands, now) == o + r
            && (forall m | m in o :: m.Open?) && (forall m | m in r :: !m.Open?)
            && Admitted(policy, profileId, o, at) !! Ended(r)
  {
    hide Opens, Starts, Cancels, Closes, Admissible;
    var (o, r) := (Opens(sessions, now), Starts(sessions, commands) + Cancels(commands) + Closes(sessions, now));
    OpensAre(sessions, now);
    StartsAre(sessions, commands);
    CancelsAre(commands);
    ClosesAre(sessions, now);
    assert Replay(sessions, commands, now) == o + r;
    forall i, j | 0 <= i < |o| && 0 <= j < |r| && r[j].Close?
      ensures o[i].sessionId != r[j].sessionId
    {
      assert o[i] in o && r[j] in r;
      var x :| x in sessions && Usable(x) && o[i] == OpenOf(x, now);
      var y :| y in sessions && y.status == D.CancellationRequested && r[j] == CloseOf(y, now);
    }
  }

  // ---------- Commands ----------

  /** Deliveries forget no Command, and only the start of an unknown one creates a PendingCommand. */
  lemma DeliveryStep(s: A.State, step: A.Step)
    requires A.Enabled(s, step) && !step.ReceiveAcknowledged?
    ensures var v := A.Apply(s, step);
            && s.rows <= v.rows
            && (step.ReceiveStart? ==> step.start.commandId in v.rows)
            && (!step.ReceiveStart? || step.start.commandId in s.rows ==> |v.controls| == |s.controls|)
  {
    hide A.CommandTimeout, A.CommandsOf, A.AdjustedDeadline, A.Seconds, A.TargetsOf, A.AllConfirmed, A.AllSettled, A.AllFinished, A.Remember;
  }

  lemma {:induction false} StartsAreKnown(s: A.State, steps: seq<A.Step>, ms: seq<Message>, at: int)
    requires A.IsRun(s, steps) && Delivers(steps, ms, at)
    ensures s.rows <= A.After(s, steps).rows
    ensures forall m | m in ms && m.Start? :: m.commandId in A.After(s, steps).rows
    decreases |steps|
  {
    hide A.Enabled, A.Apply;
    if steps != [] {
      var v := A.Apply(s, steps[0]);
      DeliveryStep(s, steps[0]);
      if Settles(steps[0]) {
        StartsAreKnown(v, steps[1..], ms, at);
      } else {
        StartsAreKnown(v, steps[1..], ms[1..], at);
        assert forall m | m in ms :: m == ms[0] || m in ms[1..];
      }
    }
  }

  lemma {:induction false} KnownStartsNothing(s: A.State, steps: seq<A.Step>, ms: seq<Message>, at: int)
    requires A.IsRun(s, steps) && Delivers(steps, ms, at)
    requires forall m | m in ms && m.Start? :: m.commandId in s.rows
    ensures |A.After(s, steps).controls| == |s.controls|
    decreases |steps|
  {
    hide A.Enabled, A.Apply;
    if steps != [] {
      var v := A.Apply(s, steps[0]);
      DeliveryStep(s, steps[0]);
      if Settles(steps[0]) {
        KnownStartsNothing(v, steps[1..], ms, at);
      } else {
        assert ms[0] in ms;
        KnownStartsNothing(v, steps[1..], ms[1..], at);
      }
    }
  }

  // ---------- The theorems ----------

  /** Whatever state a list finds, delivering it a second time executes no Command. */
  lemma SecondExecutesNothing(s: A.State, ms: seq<Message>, at: int, first: seq<A.Step>, second: seq<A.Step>)
    requires A.IsRun(s, first) && Delivers(first, ms, at)
    requires A.IsRun(A.After(s, first), second) && Delivers(second, ms, at)
    ensures |A.After(A.After(s, first), second).controls| == |A.After(s, first).controls|
  {
    hide A.IsRun, A.After, Delivers;
    StartsAreKnown(s, first, ms, at);
    KnownStartsNothing(A.After(s, first), second, ms, at);
  }

  /** When nothing was under way, every interleaving of the two deliveries comes to the same:
      the second one opens no Session if and only if the Client was steady for the list. */
  lemma QuietReplayTwice(s: A.State, sessions: seq<Session>, commands: seq<Command>, now: A.Timestamp, at: int,
                         first: seq<A.Step>, second: seq<A.Step>)
    requires forall i, j | 0 <= i < j < |sessions| :: sessions[i].id != sessions[j].id
    requires Quiet(s) && A.IsRun(s, first) && Delivers(first, Replay(sessions, commands, now), at)
    requires A.IsRun(A.After(s, first), second) && Delivers(second, Replay(sessions, commands, now), at)
    ensures A.After(A.After(s, first), second).serials == A.After(s, first).serials <==>
              Steady(s, Replay(sessions, commands, now), at)
  {
    hide A.IsRun, A.After, BookAll, Admitted, Ended, Remembered, Settled, Replay, Delivers;
    var ms := Replay(sessions, commands, now);
    var v := A.After(s, first);
    var (o, r) := (Opens(sessions, now), Starts(sessions, commands) + Cancels(commands) + Closes(sessions, now));
    ReplayParts(s.policy, s.profileId, sessions, commands, now, at);
    ListParts(s.policy, s.profileId, s.closed, o, r, at);
    DeliveryInStep(s, first, ms, at, BooksOf(s));
    DeliveryInStep(v, second, ms, at, BookAll(s.policy, s.profileId, BooksOf(s), ms, at));
    BookTwice(s.policy, s.profileId, BooksOf(s), o, r, at);
    assert Ending(s) == {};
  }

  lemma {:induction false} RowStays(s: A.State, steps: seq<A.Step>, c: CommandId)
    requires A.IsRun(s, steps) && c in s.rows
    requires forall j | 0 <= j < |steps| :: steps[j] != A.ReceiveAcknowledged(c)
    ensures c in A.After(s, steps).rows
    decreases |steps|
  {
    hide A.Enabled, A.Apply;
    if steps != [] {
      StepKeepsRow(s, steps[0], c);
      assert forall i | 0 <= i < |steps[1..]| :: steps[1..][i] == steps[i + 1];
      RowStays(A.Apply(s, steps[0]), steps[1..], c);
    }
  }

  lemma StepKeepsRow(s: A.State, step: A.Step, c: CommandId)
    requires A.Enabled(s, step) && step != A.ReceiveAcknowledged(c)
    ensures c in s.rows ==> c in A.Apply(s, step).rows
    ensures step.ReceiveStart? && step.start.commandId == c ==> c in A.Apply(s, step).rows
  {
    hide A.Enabled;
    if !step.ReceiveAcknowledged? {
      DeliveryStep(s, step);
    }
  }

  /** However long ago a start was received and whatever happened since, short of its
      acknowledgement, receiving a start of the same Command again does nothing at all. */
  lemma {:induction false} ReplayedStartsDoNothing(s: A.State, steps: seq<A.Step>, i: nat, again: A.StartMessage, at: A.Readings)
    requires A.IsRun(s, steps) && i < |steps| && steps[i].ReceiveStart? && again.commandId == steps[i].start.commandId
    requires forall j | i < j < |steps| :: steps[j] != A.ReceiveAcknowledged(again.commandId)
    ensures var v := A.After(s, steps);
            A.StartCommand(v, again, at) == v
    decreases |steps|
  {
    hide A.Enabled, A.Apply, A.Admission;
    var (v, rest) := (A.Apply(s, steps[0]), steps[1..]);
    assert forall j | 0 <= j < |rest| :: rest[j] == steps[j + 1];
    if i == 0 {
      StepKeepsRow(s, steps[0], again.commandId);
      RowStays(v, rest, again.commandId);
    } else {
      ReplayedStartsDoNothing(v, rest, i - 1, again, at);
    }
  }
}
