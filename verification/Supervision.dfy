/** Who may use a Session and until when: the supervision of Session requests
    (apps/server/src/sessions.ts) over every interleaving of its transactions and of the
    audit entries written after them. */
module Supervision {
  import opened Wire
  import opened SessionDatabase
  import S = ServerCommands

  /** An approval (or denial) of a Session, as audited. */
  datatype Event = Event(id: SessionId, approve: bool)

  datatype Decision = Decision(approve: bool, at: int)

  /** What is known of a Session besides its row: whether it needed approval, the duration
      asked for, in milliseconds, and the decisions that changed the row. */
  datatype Life = Life(standard: bool, duration: nat, decisions: seq<Decision>)

  /** `owed` holds the audit entries of decisions whose service call has not written them
      yet. */
  datatype World = World(tables: Tables, lives: map<SessionId, Life>, owed: seq<Event>, audits: seq<Event>)

  datatype Move =
    | Request(id: SessionId, row: SessionRow, standard: bool, durationSeconds: nat)
    | Supervise(id: SessionId, organizationId: string, approve: bool, at: int)
    | Audit(entry: nat)
    | CallDies(entry: nat)
    | Other(step: Step)

  const NO_SESSIONS := World(Tables(map[], map[]), map[], [], [])

  predicate CanMove(w: World, m: Move) {
    match m
    case Request(id, row, standard, durationSeconds) =>
      && Enabled(w.tables, CreateSession(id, row))
      && row.status == (if standard then PendingApproval else Opening)
      && row.expiresAt == row.createdAt + durationSeconds * 1_000
    case Supervise(_, _, _, _) => true
    case Audit(k) => k < |w.owed|
    case CallDies(k) => k < |w.owed|
    case Other(step) => !step.CreateSession? && !step.DecideS? && Enabled(w.tables, step)
  }

  function Without<T>(s: seq<T>, k: nat): seq<T>
    requires k < |s|
  {
    s[..k] + s[k + 1..]
  }

  predicate Changes(v: Verdict) {
    v == Approved(true) || v == Denied
  }

  function Supervised(w: World, id: SessionId, organizationId: string, approve: bool, at: int): World {
    var (tables, verdict) := Decide(w.tables, organizationId, id, approve, at);
    if !Changes(verdict) || id !in w.lives then w.(tables := tables)
    else
      var life := w.lives[id];
      w.(tables := tables,
         lives := w.lives[id := life.(decisions := life.decisions + [Decision(approve, at)])],
         owed := w.owed + [Event(id, approve)])
  }

  function Moved(w: World, m: Move): World
    requires CanMove(w, m)
  {
    match m
    case Request(id, row, standard, durationSeconds) =>
      w.(tables := Apply(w.tables, CreateSession(id, row)),
         lives := w.lives[id := Life(standard, durationSeconds * 1_000, [])])
    case Supervise(id, organizationId, approve, at) => Supervised(w, id, organizationId, approve, at)
    case Audit(k) => w.(audits := w.audits + [w.owed[k]], owed := Without(w.owed, k))
    case CallDies(k) => w.(owed := Without(w.owed, k))
    case Other(step) => w.(tables := Apply(w.tables, step))
  }

  // ---------- The invariant ----------

  /** The instant a Session's duration is counted from. */
  function Origin(life: Life, row: SessionRow): int {
    if life.decisions != [] && life.decisions[0].approve then life.decisions[0].at else row.createdAt
  }

  /** A Session's row and its life fit together. */
  predicate Lawful(life: Life, row: SessionRow) {
    && |life.decisions| <= 1
    && row.expiresAt == Origin(life, row) + life.duration
    && (row.status == PendingApproval ==> life.standard && life.decisions == [])
    && (life.standard && (row.status == Opening || row.status == Active) ==> life.decisions != [] && life.decisions[0].approve)
    && (life.decisions != [] ==> life.standard && life.decisions[0].at < row.createdAt + life.duration)
    && (life.decisions != [] && !life.decisions[0].approve ==> row.status == SessionStatus.Cancelled)
  }

  function Count(events: seq<Event>, id: SessionId): nat {
    if events == [] then 0 else Count(events[..|events| - 1], id) + if events[|events| - 1].id == id then 1 else 0
  }

  /** Every entry, written or owed, is of the one decision its Session had. */
  ghost predicate Genuine(w: World, events: seq<Event>) {
    forall k | 0 <= k < |events| ::
      && events[k].id in w.lives && w.lives[events[k].id].decisions != []
      && w.lives[events[k].id].decisions[0].approve == events[k].approve
  }

  ghost predicate Lives(w: World) {
    && w.lives.Keys == w.tables.sessions.Keys
    && (forall id | id in w.lives :: Lawful(w.lives[id], w.tables.sessions[id]))
  }

  ghost predicate Audited(w: World) {
    && Genuine(w, w.owed) && Genuine(w, w.audits)
    && (forall id | id in w.lives :: Count(w.owed, id) + Count(w.audits, id) <= |w.lives[id].decisions|)
  }

  ghost predicate Invariant(w: World) {
    Lives(w) && Audited(w)
  }

  lemma CountPush(events: seq<Event>, e: Event, id: SessionId)
    ensures Count(events + [e], id) == Count(events, id) + if e.id == id then 1 else 0
  {
    assert (events + [e])[..|events|] == events;
  }

  lemma {:induction false} CountWithout(events: seq<Event>, k: nat, id: SessionId)
    requires k < |events|
    ensures Count(Without(events, k), id) == Count(events, id) - if events[k].id == id then 1 else 0
  {
    var n := |events| - 1;
    if k == n {
      assert Without(events, k) == events[..n];
    } else {
      CountWithout(events[..n], k, id);
      assert Without(events, k)[..n - 1] == Without(events[..n], k);
    }
  }

  lemma {:induction false} CountNone(w: World, events: seq<Event>, id: SessionId)
    requires Genuine(w, events) && (id in w.lives ==> w.lives[id].decisions == [])
    ensures Count(events, id) == 0
  {
    if events != [] {
      assert events[|events| - 1].id != id;
      CountNone(w, events[..|events| - 1], id);
    }
  }

  /** No other transaction can approve a Session or move its expiry. */
  lemma OtherIsLawful(t: Tables, step: Step, id: SessionId, life: Life)
    requires Enabled(t, step) && !step.CreateSession? && !step.DecideS?
    requires id in t.sessions && Lawful(life, t.sessions[id])
    ensures Apply(t, step).sessions.Keys == t.sessions.Keys
    ensures Lawful(life, Apply(t, step).sessions[id])
  {
    hide CancelCommands, ActiveCommands, S.Advance;
  }

  lemma DecisionIsLawful(w: World, id: SessionId, organizationId: string, approve: bool, at: int)
    requires Lives(w)
    ensures Lives(Supervised(w, id, organizationId, approve, at))
  {
    if id in w.lives {
      assert Lawful(w.lives[id], w.tables.sessions[id]);
    }
  }

  /** The first life or decision of a Session invalidates no entry. */
  lemma GenuineGrows(w: World, v: World, events: seq<Event>, id: SessionId, life: Life)
    requires Genuine(w, events) && v.lives == w.lives[id := life]
    requires id in w.lives ==> w.lives[id].decisions == []
    ensures Genuine(v, events)
  {
  }

  lemma GenuineOne(w: World, events: seq<Event>, e: Event)
    requires Genuine(w, events) && e.id in w.lives && w.lives[e.id].decisions != [] && w.lives[e.id].decisions[0].approve == e.approve
    ensures Genuine(w, events + [e])
  {
  }

  /** A decision that changes a row is the Session's first one. */
  lemma DecisionIsAudited(w: World, id: SessionId, organizationId: string, approve: bool, at: int)
    requires Invariant(w)
    ensures Audited(Supervised(w, id, organizationId, approve, at))
  {
    hide Lawful, Decide, Genuine, Count;
    var v := Supervised(w, id, organizationId, approve, at);
    if v.owed == w.owed {
      GenuineFrame(w, v, w.owed);
      GenuineFrame(w, v, w.audits);
    } else {
      FirstDecision(w, id, organizationId, approve, at);
      CountNone(w, w.owed, id);
      CountNone(w, w.audits, id);
      GenuineGrows(w, v, w.owed, id, v.lives[id]);
      GenuineGrows(w, v, w.audits, id, v.lives[id]);
      GenuineOne(v, w.owed, Event(id, approve));
      forall x: SessionId
        ensures Count(v.owed, x) == Count(w.owed, x) + if x == id then 1 else 0
      {
        CountPush(w.owed, Event(id, approve), x);
      }
    }
  }

  lemma FirstDecision(w: World, id: SessionId, organizationId: string, approve: bool, at: int)
    requires Lives(w) && id in w.lives && Changes(Decide(w.tables, organizationId, id, approve, at).1)
    ensures w.lives[id].decisions == []
  {
    assert Lawful(w.lives[id], w.tables.sessions[id]);
  }

  /** A decision is recorded, and its audit entry owed, exactly if it is of the Session's own
      Organization and the Session waits and is not overdue. */
  lemma DecisionIsRecorded(w: World, id: SessionId, organizationId: string, approve: bool, at: int)
    requires Lives(w)
    ensures var v := Supervised(w, id, organizationId, approve, at);
            if id in w.tables.sessions && w.tables.sessions[id].organizationId == organizationId
               && w.tables.sessions[id].status == PendingApproval && at < w.tables.sessions[id].expiresAt
            then
              && v.owed == w.owed + [Event(id, approve)] && v.audits == w.audits
              && v.lives == w.lives[id := w.lives[id].(decisions := w.lives[id].decisions + [Decision(approve, at)])]
              && v.tables.sessions[id].status == if approve then Opening else SessionStatus.Cancelled
            else v.owed == w.owed && v.audits == w.audits && v.lives == w.lives
  {
  }

  lemma RequestKeeps(w: World, m: Move)
    requires CanMove(w, m) && m.Request? && Invariant(w)
    ensures Invariant(Moved(w, m))
  {
    hide Genuine, Count;
    var v := Moved(w, m);
    CountNone(w, w.owed, m.id);
    CountNone(w, w.audits, m.id);
    GenuineGrows(w, v, w.owed, m.id, v.lives[m.id]);
    GenuineGrows(w, v, w.audits, m.id, v.lives[m.id]);
  }

  lemma GenuineWithout(w: World, events: seq<Event>, k: nat)
    requires Genuine(w, events) && k < |events|
    ensures Genuine(w, Without(events, k))
  {
  }

  lemma GenuineFrame(w: World, v: World, events: seq<Event>)
    requires Genuine(w, events) && v.lives == w.lives
    ensures Genuine(v, events)
  {
  }

  /** Writing or losing an audit entry that is owed. */
  lemma EntryKeeps(w: World, m: Move)
    requires CanMove(w, m) && (m.Audit? || m.CallDies?) && Audited(w)
    ensures Audited(Moved(w, m))
  {
    hide Genuine, Count, Without;
    var v := Moved(w, m);
    var e := w.owed[m.entry];
    GenuineWithout(w, w.owed, m.entry);
    assert Genuine(w, w.audits + [e]) by { GenuinePush(w, m.entry); }
    GenuineFrame(w, v, v.owed);
    GenuineFrame(w, v, v.audits);
    forall x: SessionId
      ensures Count(v.owed, x) + Count(v.audits, x) <= Count(w.owed, x) + Count(w.audits, x)
    {
      CountWithout(w.owed, m.entry, x);
      CountPush(w.audits, e, x);
    }
  }

  lemma GenuinePush(w: World, k: nat)
    requires Genuine(w, w.owed) && Genuine(w, w.audits) && k < |w.owed|
    ensures Genuine(w, w.audits + [w.owed[k]])
  {
  }

  lemma MoveKeepsInvariant(w: World, m: Move)
    requires CanMove(w, m) && Invariant(w)
    ensures Invariant(Moved(w, m))
  {
    hide Lawful, Genuine, Count, Decide, Apply, Enabled;
    match m {
      case Request(_, _, _, _) => RequestKeeps(w, m);
      case Supervise(id, organizationId, approve, at) =>
        DecisionIsLawful(w, id, organizationId, approve, at);
        DecisionIsAudited(w, id, organizationId, approve, at);
      case Audit(k) => EntryKeeps(w, m);
      case CallDies(k) => EntryKeeps(w, m);
      case Other(step) =>
        OthersAreLawful(w, step);
        GenuineFrame(w, Moved(w, m), w.owed);
        GenuineFrame(w, Moved(w, m), w.audits);
    }
  }

  lemma OthersAreLawful(w: World, step: Step)
    requires CanMove(w, Other(step)) && Lives(w)
    ensures Lives(Moved(w, Other(step)))
  {
    hide Lawful, Apply, Enabled;
    forall id | id in w.lives
      ensures Apply(w.tables, step).sessions.Keys == w.tables.sessions.Keys
      ensures Lawful(w.lives[id], Apply(w.tables, step).sessions[id])
    {
      OtherIsLawful(w.tables, step, id, w.lives[id]);
    }
    KeysStay(w.tables, step);
  }

  lemma KeysStay(t: Tables, step: Step)
    requires Enabled(t, step) && !step.CreateSession? && !step.DecideS?
    ensures Apply(t, step).sessions.Keys == t.sessions.Keys
  {
    hide CancelCommands, ActiveCommands, S.Advance, ExpireRow;
  }

  ghost predicate IsRun(w: World, moves: seq<Move>)
    decreases |moves|
  {
    moves == [] || (CanMove(w, moves[0]) && IsRun(Moved(w, moves[0]), moves[1..]))
  }

  function After(w: World, moves: seq<Move>): World
    requires IsRun(w, moves)
    decreases |moves|
  {
    if moves == [] then w else After(Moved(w, moves[0]), moves[1..])
  }

  lemma {:induction false} RunKeepsInvariant(w: World, moves: seq<Move>)
    requires Invariant(w) && IsRun(w, moves)
    ensures Invariant(After(w, moves))
    decreases |moves|
  {
    hide Invariant, CanMove, Moved;
    if moves != [] {
      MoveKeepsInvariant(w, moves[0]);
      RunKeepsInvariant(Moved(w, moves[0]), moves[1..]);
    }
  }

  /** On every run: a Session that needed approval is opening or active only after exactly
      one approval changed it; its expiry is that approval plus the duration asked for, and
      for every other Session creation plus that duration; and its approvals and denials
      are audited at most once, as decided. */
  lemma ApprovalSafety(moves: seq<Move>, id: SessionId)
    requires IsRun(NO_SESSIONS, moves) && id in After(NO_SESSIONS, moves).tables.sessions
    ensures var w := After(NO_SESSIONS, moves);
            && id in w.lives
            && var (life, row) := (w.lives[id], w.tables.sessions[id]);
            && (life.standard && (row.status == Opening || row.status == Active) ==>
                  |life.decisions| == 1 && life.decisions[0].approve)
            && (!life.standard ==> life.decisions == [])
            && row.expiresAt == Origin(life, row) + life.duration
            && |life.decisions| <= 1
            && Count(w.audits, id) <= |life.decisions|
            && (forall k | 0 <= k < |w.audits| && w.audits[k].id == id ::
                  life.decisions != [] && life.decisions[0].approve == w.audits[k].approve)
  {
    var w := After(NO_SESSIONS, moves);
    RunKeepsInvariant(NO_SESSIONS, moves);
    assert Lawful(w.lives[id], w.tables.sessions[id]);
  }
}
