/** Concurrent creation requests with idempotency keys (apps/server/src/sessions.ts,
    apps/server/src/session-database.ts).  `requestSession` and `createCommand` run the same
    sequence of statements: look the key up, check, insert, read again when the insert hit
    the unique index, append the audit entry, answer.  Any number of calls interleave at
    every statement.  Keys and fingerprints stand for their hashes. */
module Idempotency {

  type Id = nat

  /** The columns of the unique index: the owner is the Agent for Sessions and the Session
      for Commands. */
  datatype Key = Key(organizationId: string, owner: string, idempotencyKey: string)

  datatype Row = Row(id: Id, fingerprint: string)

  datatype Reply = Created(id: Id) | Replayed(id: Id) | IdempotencyConflict | Refused

  datatype Phase =
    | LookingUp
    | Checking
    | Rereading
    | Inserted(id: Id)
    | Died(id: Id)
    | Answered(reply: Reply)

  datatype Call = Call(key: Key, fingerprint: string, phase: Phase)

  /** The table by its unique index, every call made, and the audit entries of creations. */
  datatype World = World(table: map<Key, Row>, ids: set<Id>, calls: seq<Call>, audits: seq<Id>)

  const EMPTY := World(map[], {}, [], [])

  /** `id` is the random identifier an insert uses; identifiers are never drawn twice. */
  datatype Step =
    | Begin(key: Key, fingerprint: string)
    | LookUp(call: nat)
    | Refuse(call: nat)
    | Insert(call: nat, id: Id)
    | Reread(call: nat)
    | Audit(call: nat)
    | Die(call: nat)

  predicate At(w: World, k: nat, phase: Phase) {
    k < |w.calls| && w.calls[k].phase == phase
  }

  predicate Enabled(w: World, s: Step) {
    match s
    case Begin(_, _) => true
    case LookUp(k) => At(w, k, LookingUp)
    case Refuse(k) => At(w, k, Checking)
    case Insert(k, id) => At(w, k, Checking) && id !in w.ids
    case Reread(k) => At(w, k, Rereading)
    case Audit(k) => k < |w.calls| && w.calls[k].phase.Inserted?
    case Die(k) => k < |w.calls| && w.calls[k].phase.Inserted?
  }

  function Move(w: World, k: nat, phase: Phase): World
    requires k < |w.calls|
  {
    w.(calls := w.calls[k := w.calls[k].(phase := phase)])
  }

  /** What a stored row answers to a call. */
  function Compare(row: Row, call: Call): Reply {
    if row.fingerprint == call.fingerprint then Replayed(row.id) else IdempotencyConflict
  }

  function Apply(w: World, s: Step): World
    requires Enabled(w, s)
  {
    match s
    case Begin(key, fingerprint) => w.(calls := w.calls + [Call(key, fingerprint, LookingUp)])
    case LookUp(k) =>
      var call := w.calls[k];
      Move(w, k, if call.key in w.table then Answered(Compare(w.table[call.key], call)) else Checking)
    case Refuse(k) => Move(w, k, Answered(Refused))
    case Insert(k, id) =>
      var call := w.calls[k];
      if call.key in w.table then Move(w, k, Rereading)
      else Move(w, k, Inserted(id)).(table := w.table[call.key := Row(id, call.fingerprint)], ids := w.ids + {id})
    case Reread(k) =>
      var call := w.calls[k];
      Move(w, k, Answered(if call.key in w.table then Compare(w.table[call.key], call) else IdempotencyConflict))
    case Audit(k) =>
      var id := w.calls[k].phase.id;
      Move(w, k, Answered(Created(id))).(audits := w.audits + [id])
    case Die(k) => Move(w, k, Died(w.calls[k].phase.id))
  }

  // ---------- The invariant ----------

  function Count(ids: seq<Id>, id: Id): nat {
    if ids == [] then 0 else Count(ids[..|ids| - 1], id) + if ids[|ids| - 1] == id then 1 else 0
  }

  lemma CountPush(ids: seq<Id>, x: Id, id: Id)
    ensures Count(ids + [x], id) == Count(ids, id) + if x == id then 1 else 0
  {
    assert (ids + [x])[..|ids|] == ids;
  }

  lemma {:induction false} CountAbsent(ids: seq<Id>, id: Id)
    ensures id !in ids <==> Count(ids, id) == 0
  {
    if ids != [] {
      CountAbsent(ids[..|ids| - 1], id);
      assert ids == ids[..|ids| - 1] + [ids[|ids| - 1]];
    }
  }

  /** The call inserted the row of its key. */
  predicate Creates(call: Call) {
    call.phase.Inserted? || call.phase.Died? || (call.phase.Answered? && call.phase.reply.Created?)
  }

  function CreatedId(call: Call): Id
    requires Creates(call)
  {
    match call.phase
    case Inserted(id) => id
    case Died(id) => id
    case Answered(reply) => reply.id
  }

  /** What a call has been told, or is going to be, agrees with the table. */
  predicate Consistent(w: World, call: Call) {
    && (Creates(call) ==> call.key in w.table && w.table[call.key] == Row(CreatedId(call), call.fingerprint))
    && (call.phase == Rereading ==> call.key in w.table)
    && (call.phase.Answered? && !call.phase.reply.Refused? && !Creates(call) ==>
          call.key in w.table && call.phase.reply == Compare(w.table[call.key], call))
    && (Creates(call) ==> Count(w.audits, CreatedId(call)) == if call.phase.Answered? then 1 else 0)
  }

  ghost predicate DistinctCreators(calls: seq<Call>) {
    forall i, j | 0 <= i < j < |calls| && Creates(calls[i]) && Creates(calls[j]) :: calls[i].key != calls[j].key
  }

  ghost predicate Identified(w: World) {
    && (forall key | key in w.table :: w.table[key].id in w.ids)
    && (forall a, b | a in w.table && b in w.table && w.table[a].id == w.table[b].id :: a == b)
    && (forall id | id in w.audits :: id in w.ids)
    && (forall id: Id :: Count(w.audits, id) <= 1)
  }

  ghost predicate Invariant(w: World) {
    && (forall k | 0 <= k < |w.calls| :: Consistent(w, w.calls[k]))
    && DistinctCreators(w.calls)
    && Identified(w)
  }

  lemma InsertKeeps(w: World, k: nat, id: Id)
    requires Enabled(w, Insert(k, id)) && Invariant(w)
    ensures Invariant(Apply(w, Insert(k, id)))
  {
    var v := Apply(w, Insert(k, id));
    CountAbsent(w.audits, id);
    forall j | 0 <= j < |v.calls|
      ensures Consistent(v, v.calls[j])
    {
      assert Consistent(w, w.calls[j]);
    }
    forall i, j | 0 <= i < j < |v.calls| && Creates(v.calls[i]) && Creates(v.calls[j])
      ensures v.calls[i].key != v.calls[j].key
    {
      assert Consistent(w, w.calls[i]) && Consistent(w, w.calls[j]);
    }
  }

  lemma AuditKeeps(w: World, k: nat)
    requires Enabled(w, Audit(k)) && Invariant(w)
    ensures Invariant(Apply(w, Audit(k)))
  {
    var v := Apply(w, Audit(k));
    var id := w.calls[k].phase.id;
    assert Consistent(w, w.calls[k]);
    forall x: Id
      ensures Count(v.audits, x) == Count(w.audits, x) + if x == id then 1 else 0
    {
      CountPush(w.audits, id, x);
    }
    forall j | 0 <= j < |v.calls|
      ensures Consistent(v, v.calls[j])
    {
      assert Consistent(w, w.calls[j]);
      if j != k && Creates(w.calls[j]) {
        assert w.calls[j].key != w.calls[k].key;
      }
    }
  }

  lemma OtherStepKeeps(w: World, s: Step)
    requires Enabled(w, s) && Invariant(w) && !s.Insert? && !s.Audit?
    ensures Invariant(Apply(w, s))
  {
    var v := Apply(w, s);
    forall j | 0 <= j < |v.calls|
      ensures Consistent(v, v.calls[j])
      ensures j < |w.calls| ==> (Creates(v.calls[j]) <==> Creates(w.calls[j])) && v.calls[j].key == w.calls[j].key
    {
      if j < |w.calls| {
        assert Consistent(w, w.calls[j]);
      }
    }
  }

  lemma StepKeepsInvariant(w: World, s: Step)
    requires Enabled(w, s) && Invariant(w)
    ensures Invariant(Apply(w, s))
    ensures forall key | key in w.table :: key in Apply(w, s).table && Apply(w, s).table[key] == w.table[key]
  {
    hide Invariant;
    match s {
      case Insert(k, id) => InsertKeeps(w, k, id);
      case Audit(k) => AuditKeeps(w, k);
      case _ => OtherStepKeeps(w, s);
    }
  }

  ghost predicate IsRun(w: World, steps: seq<Step>)
    decreases |steps|
  {
    steps == [] || (Enabled(w, steps[0]) && IsRun(Apply(w, steps[0]), steps[1..]))
  }

  function After(w: World, steps: seq<Step>): World
    requires IsRun(w, steps)
    decreases |steps|
  {
    if steps == [] then w else After(Apply(w, steps[0]), steps[1..])
  }

  lemma {:induction false} RunKeepsInvariant(w: World, steps: seq<Step>)
    requires Invariant(w) && IsRun(w, steps)
    ensures Invariant(After(w, steps))
    ensures forall key | key in w.table :: key in After(w, steps).table && After(w, steps).table[key] == w.table[key]
    decreases |steps|
  {
    hide Invariant, Enabled, Apply;
    if steps != [] {
      StepKeepsInvariant(w, steps[0]);
      RunKeepsInvariant(Apply(w, steps[0]), steps[1..]);
    }
  }

  // ---------- The theorems ----------

  /** The call has been answered, and not refused by another check. */
  predicate Told(w: World, k: nat) {
    k < |w.calls| && w.calls[k].phase.Answered? && !w.calls[k].phase.reply.Refused?
  }

  /** For every interleaving, every call that is told anything but a refusal is told what the
      one row of its key says: it is the row's creator and told so, or it is told the row's
      identifier if it asks for the same, and of the conflict otherwise.  No two calls of a key
      are told they created the row, and a creation is audited at most once, exactly once when
      it is reported. */
  lemma OneCreationPerKey(steps: seq<Step>, i: nat, j: nat)
    requires IsRun(EMPTY, steps) && Told(After(EMPTY, steps), i)
    ensures var w := After(EMPTY, steps);
            var call := w.calls[i];
            && call.key in w.table
            && (if call.phase.reply.Created? then w.table[call.key] == Row(call.phase.reply.id, call.fingerprint)
                else call.phase.reply == (if w.table[call.key].fingerprint == call.fingerprint then Replayed(w.table[call.key].id)
                                          else IdempotencyConflict))
            && Count(w.audits, w.table[call.key].id) <= 1
            && (call.phase.reply.Created? ==> Count(w.audits, call.phase.reply.id) == 1)
    ensures var w := After(EMPTY, steps);
            Told(w, j) && w.calls[i].key == w.calls[j].key ==>
              var (a, b) := (w.calls[i], w.calls[j]);
              && (i != j ==> !(a.phase.reply.Created? && b.phase.reply.Created?))
              && (!a.phase.reply.IdempotencyConflict? ==>
                    && (a.fingerprint == b.fingerprint <==> !b.phase.reply.IdempotencyConflict?)
                    && (!b.phase.reply.IdempotencyConflict? ==> b.phase.reply.id == a.phase.reply.id))
  {
    RunKeepsInvariant(EMPTY, steps);
    var w := After(EMPTY, steps);
    assert Consistent(w, w.calls[i]);
    if Told(w, j) {
      assert Consistent(w, w.calls[j]);
    }
  }

  /** Every row was inserted by a call of its key, which asked for what the row says. */
  ghost predicate Authored(w: World) {
    forall key | key in w.table :: exists k :: InsertedBy(w, key, k)
  }

  predicate InsertedBy(w: World, key: Key, k: nat)
    requires key in w.table
  {
    && k < |w.calls| && w.calls[k].key == key && Creates(w.calls[k])
    && w.table[key] == Row(CreatedId(w.calls[k]), w.calls[k].fingerprint)
  }

  lemma InsertedStays(w: World, s: Step, key: Key, k: nat)
    requires Enabled(w, s) && key in w.table && InsertedBy(w, key, k)
    ensures key in Apply(w, s).table && InsertedBy(Apply(w, s), key, k)
  {
  }

  lemma NewRowIsInserted(w: World, s: Step, key: Key)
    requires Enabled(w, s) && key in Apply(w, s).table && key !in w.table
    ensures s.Insert? && InsertedBy(Apply(w, s), key, s.call)
  {
  }

  lemma StepKeepsAuthored(w: World, s: Step)
    requires Enabled(w, s) && Authored(w)
    ensures Authored(Apply(w, s))
  {
    hide Enabled, Apply, InsertedBy;
    forall key | key in Apply(w, s).table
      ensures exists k :: InsertedBy(Apply(w, s), key, k)
    {
      if key in w.table {
        var k :| InsertedBy(w, key, k);
        InsertedStays(w, s, key, k);
      } else {
        NewRowIsInserted(w, s, key);
      }
    }
  }

  lemma {:induction false} RunKeepsAuthored(w: World, steps: seq<Step>)
    requires Authored(w) && IsRun(w, steps)
    ensures Authored(After(w, steps))
    decreases |steps|
  {
    hide Authored, Enabled, Apply;
    if steps != [] {
      StepKeepsAuthored(w, steps[0]);
      RunKeepsAuthored(Apply(w, steps[0]), steps[1..]);
    }
  }

  /** The row that decides what the calls of a key are told was inserted by exactly one call
      of that key, which may still be on its way, have died or have reported it. */
  lemma OneCreator(steps: seq<Step>, key: Key)
    requires IsRun(EMPTY, steps) && key in After(EMPTY, steps).table
    ensures var w := After(EMPTY, steps);
            exists k :: InsertedBy(w, key, k)
                        && forall i | 0 <= i < |w.calls| && w.calls[i].key == key && Creates(w.calls[i]) :: i == k
  {
    RunKeepsInvariant(EMPTY, steps);
    RunKeepsAuthored(EMPTY, steps);
    var w := After(EMPTY, steps);
    var k :| InsertedBy(w, key, k);
  }

  /** A call that finds no row under its key and is not refused inserts one, with its own
      fingerprint, and is told that it created it unless it dies first. */
  lemma FirstCallCreates(w: World, k: nat, id: Id)
    requires At(w, k, LookingUp) && w.calls[k].key !in w.table && id !in w.ids
    ensures var steps := [LookUp(k), Insert(k, id), Audit(k)];
            && IsRun(w, steps)
            && var v := After(w, steps);
               && |v.calls| == |w.calls| && v.table == w.table[w.calls[k].key := Row(id, w.calls[k].fingerprint)]
               && v.calls[k].phase == Answered(Created(id)) && v.audits == w.audits + [id]
  {
    var a := Apply(w, LookUp(k));
    var b := Apply(a, Insert(k, id));
    var c := Apply(b, Audit(k));
    var steps := [LookUp(k), Insert(k, id), Audit(k)];
    assert steps[1..] == [Insert(k, id), Audit(k)] && steps[1..][1..] == [Audit(k)] && steps[1..][1..][1..] == [];
    assert IsRun(c, []) && IsRun(b, [Audit(k)]) && IsRun(a, steps[1..]);
    assert After(c, []) == c && After(b, [Audit(k)]) == c && After(a, steps[1..]) == c;
  }

  /** Once a row exists, every later call with its key is answered by the lookup, for ever
      with the row's identifier or with the conflict. */
  lemma LaterCallsReplay(w: World, steps: seq<Step>, k: nat)
    requires Invariant(w) && IsRun(w, steps)
    requires k < |After(w, steps).calls| && After(w, steps).calls[k].phase == LookingUp
    requires After(w, steps).calls[k].key in w.table
    ensures var v := After(w, steps);
            var call := v.calls[k];
            && Enabled(v, LookUp(k))
            && Apply(v, LookUp(k)).calls[k].phase ==
                 Answered(if w.table[call.key].fingerprint == call.fingerprint then Replayed(w.table[call.key].id)
                          else IdempotencyConflict)
  {
    RunKeepsInvariant(w, steps);
  }
}
