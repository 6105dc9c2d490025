/** The Client's durable Command journal (apps/client/src/journal.ts): one row a
    Command, kept until the Server acknowledges the result. */
module Journal {
  import opened Wire

  const INTERRUPTED := "Client restarted before it could prove the Command outcome"

  datatype RowState = Received | Running | Completed
  datatype Row = Row(state: RowState, result: Option<CommandResult>, truncated: bool, unconfirmed: bool)

  /** The commands table; `order` lists its keys by rowid. */
  datatype Table = Table(rows: map<CommandId, Row>, order: seq<CommandId>)

  datatype Receipt = New | InProgress | AlreadyCompleted

  const EMPTY_TABLE := Table(map[], [])

  // ---------- What each statement does to the table ----------

  function Receive(t: Table, id: CommandId): (r: (Table, Receipt)) {
    if id !in t.rows then
      (Table(t.rows[id := Row(Received, None, false, false)], t.order + [id]), New)
    else
      (t, if t.rows[id].state == Completed then AlreadyCompleted else InProgress)
  }

  function Update(t: Table, id: CommandId, row: Row): Table
    requires id in t.rows
  {
    t.(rows := t.rows[id := row])
  }

  function MarkRunning(t: Table, id: CommandId): Table {
    if id in t.rows then Update(t, id, t.rows[id].(state := Running)) else t
  }

  function MarkUnconfirmed(t: Table, id: CommandId): Table {
    if id in t.rows && !t.rows[id].truncated then Update(t, id, t.rows[id].(unconfirmed := true)) else t
  }

  function Complete(t: Table, id: CommandId, result: CommandResult): Table {
    if id !in t.rows then t
    else
      var durable := if t.rows[id].truncated then TruncatedResult(result) else result;
      Update(t, id, t.rows[id].(state := Completed, result := Some(durable), truncated := durable.outputTruncated))
  }

  function TruncateRow(row: Row): Row {
    row.(result := if row.result.Some? then Some(TruncatedResult(row.result.value)) else None,
         truncated := true,
         unconfirmed := false)
  }

  function TruncateRows(t: Table, ids: set<CommandId>): Table {
    t.(rows := map id | id in t.rows :: if id in ids then TruncateRow(t.rows[id]) else t.rows[id])
  }

  function MarkTruncated(t: Table, id: CommandId): Table {
    TruncateRows(t, {id})
  }

  predicate Recoverable(row: Row) {
    row.state != Completed || row.unconfirmed
  }

  function RecoverRow(row: Row): Row {
    if !Recoverable(row) then row
    else
      var incomplete := row.truncated || row.unconfirmed;
      var result :=
        if row.state == Completed && row.result.Some? then
          if incomplete then TruncatedResult(row.result.value) else row.result.value
        else
          CommandResult(ExecutionUnknown, None, Some(INTERRUPTED), incomplete);
      Row(Completed, Some(result), result.outputTruncated, false)
  }

  function Recover(t: Table): Table {
    t.(rows := map id | id in t.rows :: RecoverRow(t.rows[id]))
  }

  function Interrupted(t: Table): set<CommandId> {
    set id | id in t.rows && t.rows[id].state != Completed
  }

  /** Recovers the rows of `ids` one after the other, counting the interrupted ones. */
  function RecoverEach(t: Table, ids: seq<CommandId>): (Table, nat)
    decreases |ids|
  {
    if ids == [] then (t, 0)
    else
      var id := ids[0];
      if id !in t.rows then RecoverEach(t, ids[1..])
      else
        var (u, n) := RecoverEach(Update(t, id, RecoverRow(t.rows[id])), ids[1..]);
        (u, n + if t.rows[id].state != Completed then 1 else 0)
  }

  function ResultOf(t: Table, id: CommandId): Option<CommandResult> {
    if id in t.rows then t.rows[id].result else None
  }

  /** The completed rows with a result among `ids`, in that order. */
  function Results(t: Table, ids: seq<CommandId>): seq<(CommandId, CommandResult)> {
    if ids == [] then []
    else
      (if ids[0] in t.rows && t.rows[ids[0]].state == Completed && t.rows[ids[0]].result.Some?
       then [(ids[0], t.rows[ids[0]].result.value)] else [])
      + Results(t, ids[1..])
  }

  function ResultsForReconciliation(t: Table): seq<(CommandId, CommandResult)> {
    Results(t, t.order)
  }

  function Acknowledge(t: Table, id: CommandId): Table {
    if id in t.rows && t.rows[id].state == Completed then
      Table(t.rows - {id}, Without(t.order, id))
    else t
  }

  function Without(ids: seq<CommandId>, id: CommandId): seq<CommandId> {
    if ids == [] then []
    else (if ids[0] == id then [] else [ids[0]]) + Without(ids[1..], id)
  }

  // ---------- What the table keeps ----------

  /** A row is completed exactly when it has a result, and its flag is the result's. */
  predicate RowOk(row: Row) {
    && (row.state == Completed <==> row.result.Some?)
    && (row.state == Completed ==> row.truncated == row.result.value.outputTruncated)
  }

  ghost predicate Distinct(ids: seq<CommandId>) {
    forall i, j | 0 <= i < j < |ids| :: ids[i] != ids[j]
  }

  /** `order` lists every key once. */
  ghost predicate Indexed(t: Table) {
    && Distinct(t.order)
    && (forall id :: id in t.rows <==> id in t.order)
  }

  ghost predicate TableOk(t: Table) {
    && Indexed(t)
    && (forall id | id in t.rows :: RowOk(t.rows[id]))
  }

  lemma {:induction false} WithoutMembers(ids: seq<CommandId>, id: CommandId)
    ensures forall x :: x in Without(ids, id) <==> x in ids && x != id
  {
    if ids != [] {
      WithoutMembers(ids[1..], id);
      assert forall x :: x in ids <==> x == ids[0] || x in ids[1..];
    }
  }

  lemma DistinctPush(x: CommandId, ids: seq<CommandId>)
    requires Distinct(ids) && x !in ids
    ensures Distinct([x] + ids)
  {
  }

  lemma {:induction false} WithoutKeeps(ids: seq<CommandId>, id: CommandId)
    requires Distinct(ids)
    ensures Distinct(Without(ids, id))
  {
    if ids != [] {
      var tail := ids[1..];
      assert Distinct(tail) && ids[0] !in tail;
      WithoutKeeps(tail, id);
      WithoutMembers(tail, id);
      if ids[0] != id {
        DistinctPush(ids[0], Without(tail, id));
      }
    }
  }

  datatype Statement =
    | ReceiveS(id: CommandId)
    | MarkRunningS(id: CommandId)
    | MarkUnconfirmedS(id: CommandId)
    | MarkTruncatedS(id: CommandId)
    | CompleteS(id: CommandId, result: CommandResult)
    | RecoverS
    | AcknowledgeS(id: CommandId)

  function Execute(t: Table, s: Statement): Table {
    match s
    case ReceiveS(id) => Receive(t, id).0
    case MarkRunningS(id) => MarkRunning(t, id)
    case MarkUnconfirmedS(id) => MarkUnconfirmed(t, id)
    case MarkTruncatedS(id) => MarkTruncated(t, id)
    case CompleteS(id, result) => Complete(t, id, result)
    case RecoverS => Recover(t)
    case AcknowledgeS(id) => Acknowledge(t, id)
  }

  function ExecuteAll(t: Table, ss: seq<Statement>): Table
    decreases |ss|
  {
    if ss == [] then t else ExecuteAll(Execute(t, ss[0]), ss[1..])
  }

  function CountInterrupted(t: Table, ids: seq<CommandId>): nat {
    if ids == [] then 0
    else (if ids[0] in t.rows && t.rows[ids[0]].state != Completed then 1 else 0) + CountInterrupted(t, ids[1..])
  }

  lemma {:induction false} CountFrame(t: Table, u: Table, ids: seq<CommandId>)
    requires forall id | id in ids :: (id in t.rows <==> id in u.rows) && (id in t.rows ==> t.rows[id] == u.rows[id])
    ensures CountInterrupted(t, ids) == CountInterrupted(u, ids)
  {
    if ids != [] {
      assert ids[0] in ids;
      CountFrame(t, u, ids[1..]);
    }
  }

  /** The rows of `ids` that are not completed. */
  function InterruptedOf(t: Table, ids: seq<CommandId>): set<CommandId> {
    set id | id in ids && id in t.rows && t.rows[id].state != Completed
  }

  lemma InterruptedSplits(t: Table, ids: seq<CommandId>)
    requires ids != [] && Distinct(ids)
    ensures Distinct(ids[1..]) && ids[0] !in InterruptedOf(t, ids[1..])
    ensures InterruptedOf(t, ids) ==
              InterruptedOf(t, ids[1..]) + if ids[0] in t.rows && t.rows[ids[0]].state != Completed then {ids[0]} else {}
  {
    assert forall x :: x in ids <==> x == ids[0] || x in ids[1..];
  }

  lemma {:induction false} CountIsSize(t: Table, ids: seq<CommandId>)
    requires Distinct(ids)
    ensures CountInterrupted(t, ids) == |InterruptedOf(t, ids)|
  {
    hide InterruptedOf, Distinct;
    if ids == [] {
      assert InterruptedOf(t, []) == {} by { NoneInterrupted(t); }
    } else {
      InterruptedSplits(t, ids);
      CountIsSize(t, ids[1..]);
    }
  }

  lemma NoneInterrupted(t: Table)
    ensures InterruptedOf(t, []) == {}
  {
  }

  lemma InterruptedAmongAll(t: Table)
    requires Indexed(t)
    ensures Interrupted(t) == InterruptedOf(t, t.order)
  {
  }

  /** Recovering row by row recovers the table, and counts the rows that were interrupted. */
  lemma {:induction false} RecoverEachRecovers(t: Table, ids: seq<CommandId>)
    requires Distinct(ids)
    ensures var (u, n) := RecoverEach(t, ids);
            && u.order == t.order && u.rows.Keys == t.rows.Keys
            && (forall id | id in t.rows :: u.rows[id] == if id in ids then RecoverRow(t.rows[id]) else t.rows[id])
            && n == CountInterrupted(t, ids)
    decreases |ids|
  {
    if ids != [] {
      var (id, rest) := (ids[0], ids[1..]);
      var t1 := if id in t.rows then Update(t, id, RecoverRow(t.rows[id])) else t;
      assert forall x :: x in ids <==> x == id || x in rest;
      assert id !in rest;
      RecoverEachRecovers(t1, rest);
      CountFrame(t, t1, rest);
    }
  }

  lemma RecoverEachIsRecover(t: Table)
    requires Indexed(t)
    ensures RecoverEach(t, t.order) == (Recover(t), CountInterrupted(t, t.order))
  {
    RecoverEachRecovers(t, t.order);
    assert RecoverEach(t, t.order).0.rows == Recover(t).rows;
  }

  /** Every statement keeps the key index, and keeps each row well formed as long as
      `markRunning` is only used on a row that has no result. */
  lemma StatementsKeepTable(t: Table, s: Statement)
    requires TableOk(t)
    requires s.MarkRunningS? && s.id in t.rows ==> t.rows[s.id].state != Completed
    ensures TableOk(Execute(t, s))
  {
    var u := Execute(t, s);
    match s {
      case AcknowledgeS(id) =>
        WithoutKeeps(t.order, id);
        WithoutMembers(t.order, id);
      case ReceiveS(id) =>
        if id !in t.rows {
          assert forall x :: x in u.order <==> x in t.order || x == id;
        }
      case _ =>
        assert u.order == t.order && u.rows.Keys == t.rows.Keys;
    }
    forall x | x in u.rows
      ensures RowOk(u.rows[x])
    {
      if x in t.rows {
        assert RowOk(t.rows[x]);
      }
    }
  }

  /** Once a row's output is flagged truncated no run of statements clears the flag
      before the row is acknowledged. */
  lemma {:induction false} TruncationSticks(t: Table, ss: seq<Statement>, id: CommandId)
    requires id in t.rows && t.rows[id].truncated
    requires forall i | 0 <= i < |ss| :: ss[i] != AcknowledgeS(id)
    ensures id in ExecuteAll(t, ss).rows && ExecuteAll(t, ss).rows[id].truncated
    decreases |ss|
  {
    if ss != [] {
      assert ss[0] != AcknowledgeS(id);
      assert forall i | 0 <= i < |ss[1..]| :: ss[1..][i] == ss[i + 1];
      TruncationSticks(Execute(t, ss[0]), ss[1..], id);
    }
  }

  /** What a completed row may still become before it is acknowledged: the same
      outcome, possibly with the truncation flag raised. */
  predicate SameOutcome(before: CommandResult, after: CommandResult) {
    && after.status == before.status
    && after.exitCode == before.exitCode
    && (before.outputTruncated ==> after == before)
    && (after.outputTruncated && !before.outputTruncated ==> after == TruncatedResult(before))
    && (!after.outputTruncated ==> after == before)
  }

  /** Marking, receiving again and recovering never change a completed row's outcome. */
  lemma OutcomeIsDurable(t: Table, s: Statement, id: CommandId)
    requires TableOk(t) && id in t.rows && t.rows[id].state == Completed
    requires s != AcknowledgeS(id) && s != MarkRunningS(id) && !(s.CompleteS? && s.id == id)
    ensures id in Execute(t, s).rows && Execute(t, s).rows[id].state == Completed
    ensures Execute(t, s).rows[id].result.Some?
    ensures SameOutcome(t.rows[id].result.value, Execute(t, s).rows[id].result.value)
  {
    assert RowOk(t.rows[id]);
  }

  function Unconfirmed(t: Table): set<CommandId> {
    set id | id in t.rows && t.rows[id].unconfirmed
  }

  /** Recovery is idempotent, leaves only completed rows, and equals marking every
      unconfirmed row truncated and then recovering.  An interrupted row ends as unknown, a
      completed one keeps its outcome, and the flag is raised exactly where output was lost
      or unconfirmed. */
  lemma RecoveryCommutes(t: Table)
    requires TableOk(t)
    ensures Recover(Recover(t)) == Recover(t)
    ensures Recover(TruncateRows(t, Unconfirmed(t))) == Recover(t)
    ensures Interrupted(TruncateRows(t, Unconfirmed(t))) == Interrupted(t)
    ensures Interrupted(Recover(t)) == {}
    ensures forall id | id in t.rows :: Recover(t).rows[id].truncated <==> t.rows[id].truncated || t.rows[id].unconfirmed
    ensures forall id | id in Interrupted(t) ::
              var result := Recover(t).rows[id].result;
              result.Some? && result.value.status == ExecutionUnknown && result.value.exitCode == None
    ensures forall id | id in t.rows && t.rows[id].state == Completed ::
              SameOutcome(t.rows[id].result.value, Recover(t).rows[id].result.value)
  {
    forall id | id in t.rows
      ensures RecoverRow(RecoverRow(t.rows[id])) == RecoverRow(t.rows[id])
      ensures RecoverRow(TruncateRows(t, Unconfirmed(t)).rows[id]) == RecoverRow(t.rows[id])
    {
      assert RowOk(t.rows[id]);
    }
    assert Recover(Recover(t)).rows == Recover(t).rows;
    assert Recover(TruncateRows(t, Unconfirmed(t))).rows == Recover(t).rows;
  }

  /** The results offered for reconciliation are exactly the completed rows, each once, by rowid. */
  lemma {:induction false} ResultsAreCompletedRows(t: Table, ids: seq<CommandId>)
    requires Distinct(ids)
    requires forall id | id in t.rows :: RowOk(t.rows[id])
    ensures forall i | 0 <= i < |Results(t, ids)| ::
              var (id, result) := Results(t, ids)[i];
              id in ids && id in t.rows && t.rows[id].state == Completed && t.rows[id].result == Some(result)
    ensures forall id | id in ids && id in t.rows && t.rows[id].result.Some? ::
              (id, t.rows[id].result.value) in Results(t, ids)
    ensures forall i, j | 0 <= i < j < |Results(t, ids)| :: Results(t, ids)[i].0 != Results(t, ids)[j].0
  {
    if ids != [] {
      var tail := ids[1..];
      ResultsAreCompletedRows(t, tail);
      assert forall x :: x in ids <==> x == ids[0] || x in tail;
      assert ids[0] !in tail;
      var rest := Results(t, tail);
      forall id | id in ids && id in t.rows && t.rows[id].result.Some?
        ensures (id, t.rows[id].result.value) in Results(t, ids)
      {
        assert RowOk(t.rows[id]);
      }
    }
  }

  /** Results are offered in the order of their rows. */
  lemma {:induction false} ResultsInRowOrder(t: Table, ids: seq<CommandId>, p: nat, q: nat)
    requires p < q < |ids| && Distinct(ids) && forall id | id in t.rows :: RowOk(t.rows[id])
    requires ids[p] in t.rows && t.rows[ids[p]].result.Some? && ids[q] in t.rows && t.rows[ids[q]].result.Some?
    ensures exists i, j | 0 <= i < j < |Results(t, ids)| :: Results(t, ids)[i].0 == ids[p] && Results(t, ids)[j].0 == ids[q]
  {
    var tail := ids[1..];
    var (all, rest) := (Results(t, ids), Results(t, tail));
    var n := |all| - |rest|;
    assert forall k | 0 <= k < |rest| :: all[n + k] == rest[k];
    if p == 0 {
      ResultsAreCompletedRows(t, tail);
      assert RowOk(t.rows[ids[0]]);
      assert tail[q - 1] == ids[q] && ids[q] in tail;
      var j :| 0 <= j < |rest| && rest[j] == (ids[q], t.rows[ids[q]].result.value);
      assert all[0].0 == ids[0] && all[n + j].0 == ids[q];
    } else {
      ResultsInRowOrder(t, tail, p - 1, q - 1);
      var i, j :| 0 <= i < j < |rest| && rest[i].0 == tail[p - 1] && rest[j].0 == tail[q - 1];
      assert all[n + i].0 == ids[p] && all[n + j].0 == ids[q];
    }
  }

  /** Reconciliation offers a result exactly when it is stored. */
  lemma OfferedIsStored(t: Table, id: CommandId, result: CommandResult)
    requires TableOk(t)
    ensures (id, result) in ResultsForReconciliation(t) <==> ResultOf(t, id) == Some(result)
  {
    ResultsAreCompletedRows(t, t.order);
    if (id, result) in ResultsForReconciliation(t) {
      var i :| 0 <= i < |Results(t, t.order)| && Results(t, t.order)[i] == (id, result);
    }
    if ResultOf(t, id) == Some(result) {
      assert id in t.rows && RowOk(t.rows[id]);
    }
  }

  /** An acknowledged result is not offered any more, and every other one still is. */
  lemma AcknowledgedIsNotOffered(t: Table, id: CommandId)
    requires TableOk(t)
    ensures TableOk(Acknowledge(t, id))
    ensures forall e :: e in ResultsForReconciliation(Acknowledge(t, id)) <==> e in ResultsForReconciliation(t) && e.0 != id
  {
    hide TableOk, ResultsForReconciliation;
    var u := Acknowledge(t, id);
    StatementsKeepTable(t, AcknowledgeS(id));
    assert id in t.rows ==> RowOk(t.rows[id]) by { RowOfTable(t, id); }
    forall e: (CommandId, CommandResult)
      ensures e in ResultsForReconciliation(u) <==> e in ResultsForReconciliation(t) && e.0 != id
    {
      OfferedIsStored(t, e.0, e.1);
      OfferedIsStored(u, e.0, e.1);
    }
  }

  lemma RowOfTable(t: Table, id: CommandId)
    requires TableOk(t)
    ensures id in t.rows ==> RowOk(t.rows[id])
  {
  }
}
