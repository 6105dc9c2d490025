/** A Command reaches the executor at most once in the lifetime of its journal row, not at
    all if its cancellation came first, and its result stays until it is acknowledged. */
module ExecutionOnce {
  import opened Wire
  import opened ClientOutput
  import opened JournalFading
  import opened OutputProtocol
  import opened ClientProgress
  import opened OutputHonesty
  import J = Journal

  predicate Quiet(h: History) {
    h.launches == 0 && !h.cancelledFirst
  }

  ghost predicate LaunchesCounted(w: World) {
    && (forall life: Lifetime :: HistoryOf(w, life).launches <= 1)
    && (forall life: Lifetime :: HistoryOf(w, life).cancelledFirst ==> HistoryOf(w, life).launches == 0)
    && (forall id :: id !in w.client.journal.rows ==> Quiet(HistoryOf(w, Current(w, id))))
    && (forall life: Lifetime :: Deletions(w, life.id) < life.deletions ==> Quiet(HistoryOf(w, life)))
  }

  lemma ReceiveInserts(c: ClientState, id: CommandId, admission: Option<string>)
    requires Agree(c, id)
    ensures id in Start(c, id, admission).journal.rows
    ensures id in Cancel(c, id).journal.rows
  {
    hide Deliver;
    var (journal, receipt) := J.Receive(c.journal, id);
    var c1 := c.(journal := journal);
    if receipt == J.New {
      var limit := Min(DEFAULT_COMMAND_OUTPUT_BYTES, c.limits.commandBytes);
      var c2 := c1.(running := c1.running[id := Execution(0, 0, false, limit)], journal := J.MarkRunning(journal, id));
      DeliverProgress(c2, CommandStarted(id), id);
      var refused := CommandResult(Failed, None, Some(admission.GetOr(EXCEEDS_POLICY)), false);
      FreshCompletion(c, id, refused);
      FreshCompletion(c, id, CommandResult(Cancelled, None, Some("Command was cancelled before execution started"), false));
    } else {
      StartProgress(c, id, admission, id);
      CancelProgress(c, id, id);
    }
  }

  lemma FreshCompletion(c: ClientState, id: CommandId, result: CommandResult)
    requires Agree(c, id) && id !in c.journal.rows
    ensures id in CompleteAndSend(c.(journal := J.Receive(c.journal, id).0), id, result).journal.rows
  {
    hide Deliver;
    var c1 := c.(journal := J.Complete(J.Receive(c.journal, id).0, id, result));
    DeliverProgress(c1, Completion(c1, id, result), id);
  }

  lemma StepCounts(w: World, s: Step)
    requires Enabled(w, s) && AllAgree(w.client) && LaunchesCounted(w)
    ensures LaunchesCounted(Apply(w, s))
  {
    hide Deliver, Start, Cancel, Emit, EmitLate, Finish, Shutdown, Restart, ClientOutput.Authenticated, CloseEvent, Handle, Keeps;
    var v := Apply(w, s);
    forall id | id !in v.client.journal.rows
      ensures Quiet(HistoryOf(v, Current(v, id)))
    {
      assert Agree(w.client, id);
      StepProgress(w, s, id);
      RowsStay(w, s, id);
      if s.ReceiveStart? && s.id == id {
        ReceiveInserts(w.client, id, s.admission);
      }
      if s.ReceiveCancel? && s.id == id {
        ReceiveInserts(w.client, id, None);
      }
    }
    forall life: Lifetime
      ensures HistoryOf(v, life).launches <= 1
      ensures HistoryOf(v, life).cancelledFirst ==> HistoryOf(v, life).launches == 0
      ensures Deletions(v, life.id) < life.deletions ==> Quiet(HistoryOf(v, life))
    {
      HistoryStep(w, s, life);
      assert life == Current(w, life.id) ==> Deletions(w, life.id) == life.deletions;
      assert life.id !in w.client.journal.rows ==> Quiet(HistoryOf(w, Current(w, life.id)));
    }
  }

  /** What a step may write into a history. */
  lemma HistoryStep(w: World, s: Step, life: Lifetime)
    requires Enabled(w, s)
    ensures Deletions(w, life.id) <= Deletions(Apply(w, s), life.id)
    ensures var (before, after) := (HistoryOf(w, life), HistoryOf(Apply(w, s), life));
            || (after.launches == before.launches && after.cancelledFirst == before.cancelledFirst)
            || (life == Current(w, life.id) && life.id !in w.client.journal.rows &&
                (after == before.(launches := before.launches + 1) || after == before.(cancelledFirst := true)))
  {
    hide Apply, Emit;
    StepRecords(w, s, life);
    DeletionsGrow(w, s, life.id);
  }

  /** Only an acknowledgement deletes a row, and it is counted. */
  lemma RowsStay(w: World, s: Step, id: CommandId)
    requires Enabled(w, s) && AllAgree(w.client)
    ensures id in w.client.journal.rows && id !in Apply(w, s).client.journal.rows ==>
              s == ReceiveAcknowledged(id) && Finished(w.client, id)
  {
    assert Agree(w.client, id);
    StepProgress(w, s, id);
  }

  lemma {:induction false} RunCounts(w: World, steps: seq<Step>)
    requires IsRun(w, steps) && AllAgree(w.client) && LaunchesCounted(w)
    ensures LaunchesCounted(After(w, steps))
    decreases |steps|
  {
    hide LaunchesCounted, AllAgree, Enabled, Apply;
    if steps != [] {
      StepCounts(w, steps[0]);
      StepAllAgree(w, steps[0]);
      RunCounts(Apply(w, steps[0]), steps[1..]);
    }
  }

  /** In every lifetime of a journal row the executor is called at most once, across
      duplicate starts, reconnections and crashes, and never after a cancellation that
      arrived before the start. */
  lemma AtMostOnce(w: World, life: Lifetime)
    requires Reachable(w)
    ensures HistoryOf(w, life).launches <= 1
    ensures HistoryOf(w, life).cancelledFirst ==> HistoryOf(w, life).launches == 0
  {
    hide IsRun, After;
    var limits, steps :| IsRun(InitialWorld(limits), steps) && After(InitialWorld(limits), steps) == w;
    InitialInvariant(limits);
    RunCounts(InitialWorld(limits), steps);
  }

  /** Over every run a completed row keeps its outcome until it is acknowledged: only its
      truncation flag may still be raised. */
  lemma {:induction false} ResultSurvives(w: World, steps: seq<Step>, id: CommandId)
    requires IsRun(w, steps) && AllAgree(w.client) && Finished(w.client, id)
    requires forall i | 0 <= i < |steps| :: steps[i] != ReceiveAcknowledged(id)
    ensures Agree(w.client, id) && Keeps(w.client, After(w, steps).client, id)
    ensures Finished(After(w, steps).client, id)
    decreases |steps|
  {
    hide Enabled, Apply;
    assert Agree(w.client, id);
    if steps != [] {
      assert steps[0] != ReceiveAcknowledged(id);
      StepProgress(w, steps[0], id);
      StepAllAgree(w, steps[0]);
      assert forall i | 0 <= i < |steps[1..]| :: steps[1..][i] == steps[i + 1];
      ResultSurvives(Apply(w, steps[0]), steps[1..], id);
    }
  }

  // ---------- The journal's table ----------

  lemma ReportKeepsTable(c: ClientState, id: CommandId, result: CommandResult)
    requires J.TableOk(c.journal)
    ensures J.TableOk(SendCompletion(c, id, result).journal) && J.TableOk(CompleteAndSend(c, id, result).journal)
  {
    hide J.TableOk, SendCompletion, Fades;
    var d := c.(journal := J.Complete(c.journal, id, result));
    J.StatementsKeepTable(c.journal, J.CompleteS(id, result));
    ReportFades(c, id, result);
    ReportFades(d, id, result);
    IndexFades(c.journal, SendCompletion(c, id, result).journal);
    IndexFades(d.journal, SendCompletion(d, id, result).journal);
  }

  lemma StartKeepsTable(c: ClientState, id: CommandId, admission: Option<string>)
    requires J.TableOk(c.journal)
    ensures J.TableOk(Start(c, id, admission).journal)
  {
    hide J.TableOk, Deliver, SendCompletion, CompleteAndSend, Fades;
    var (journal, receipt) := J.Receive(c.journal, id);
    var c1 := c.(journal := journal);
    J.StatementsKeepTable(c.journal, J.ReceiveS(id));
    var previous := J.ResultOf(journal, id);
    if previous.Some? {
      ReportKeepsTable(c1, id, previous.value);
    }
    if receipt == J.New {
      var limit := Min(DEFAULT_COMMAND_OUTPUT_BYTES, c.limits.commandBytes);
      ReportKeepsTable(c1, id, CommandResult(Failed, None, Some(admission.GetOr(EXCEEDS_POLICY)), false));
      J.StatementsKeepTable(journal, J.MarkRunningS(id));
      var c2 := c1.(running := c1.running[id := Execution(0, 0, false, limit)], journal := J.MarkRunning(journal, id));
      DeliverFades(c2, CommandStarted(id));
      IndexFades(c2.journal, Deliver(c2, CommandStarted(id)).0.journal);
    }
  }

  lemma CancelKeepsTable(c: ClientState, id: CommandId)
    requires J.TableOk(c.journal)
    ensures J.TableOk(Cancel(c, id).journal)
  {
    hide J.TableOk, SendCompletion, CompleteAndSend;
    var previous := J.ResultOf(c.journal, id);
    if previous.Some? {
      ReportKeepsTable(c, id, previous.value);
    }
    J.StatementsKeepTable(c.journal, J.ReceiveS(id));
    var c1 := c.(journal := J.Receive(c.journal, id).0);
    ReportKeepsTable(c1, id, CommandResult(Cancelled, None, Some("Command was cancelled before execution started"), false));
    ReportKeepsTable(c1, id, CommandResult(ExecutionUnknown, None,
                                           Some("Command execution state was unavailable when cancellation arrived"), false));
  }

  lemma FinishKeepsTable(c: ClientState, id: CommandId, ending: Ending)
    requires J.TableOk(c.journal) && id in c.running
    ensures J.TableOk(Finish(c, id, ending).journal)
  {
    hide J.TableOk, CompleteAndSend, Shutdown, Fades;
    var result := FinalResult(ending, c.running[id].truncated || id in c.truncated);
    ReportKeepsTable(c, id, result);
    var c1 := CompleteAndSend(c, id, result);
    var c2 := c1.(running := c1.running - {id});
    ShutdownFades(c2);
    IndexFades(c2.journal, Shutdown(c2).journal);
  }

  lemma StepKeepsTable(w: World, s: Step)
    requires Enabled(w, s) && J.TableOk(w.client.journal)
    ensures J.TableOk(Apply(w, s).client.journal)
  {
    hide J.TableOk, Start, Cancel, Emit, EmitLate, Finish, Shutdown, ClientOutput.Authenticated, MarkTruncated, Handle, Fades, J.Acknowledge, J.Recover, Launches, Tag;
    var c := w.client;
    match s {
      case ReceiveStart(id, admission) => StartKeepsTable(c, id, admission);
      case ReceiveCancel(id) => CancelKeepsTable(c, id);
      case ReceiveAcknowledged(id) => J.StatementsKeepTable(c.journal, J.AcknowledgeS(id));
      case ProcessOutput(id, stream, data) =>
        EmitFades(c, id, stream, data);
        IndexFades(c.journal, Emit(c, id, stream, data).0.journal);
      case LateOutput(life, stream, data) =>
        if life.id in c.orphans {
          LateFades(c, life.id, stream, data);
          IndexFades(c.journal, EmitLate(c, life.id, stream, data).journal);
        }
      case ExecutionEnds(id, ending) => FinishKeepsTable(c, id, ending);
      case Stop =>
        ShutdownFades(c);
        IndexFades(c.journal, Shutdown(c).journal);
      case ReceiveAuthenticated =>
        AuthenticatedFades(c);
        IndexFades(c.journal, ClientOutput.Authenticated(c).journal);
      case SocketCloseEvent =>
        MarkFades(c, c.unconfirmed);
        IndexFades(c.journal, MarkTruncated(c, c.unconfirmed).journal);
      case CrashAndRestart => J.StatementsKeepTable(c.journal, J.RecoverS);
      case _ =>
    }
  }

  lemma {:induction false} RunKeepsTable(w: World, steps: seq<Step>)
    requires IsRun(w, steps) && J.TableOk(w.client.journal)
    ensures J.TableOk(After(w, steps).client.journal)
    decreases |steps|
  {
    hide J.TableOk, Enabled, Apply;
    if steps != [] {
      StepKeepsTable(w, steps[0]);
      RunKeepsTable(Apply(w, steps[0]), steps[1..]);
    }
  }

  /** In every reachable state the journal lists each row once, and a row has a result, with
      its own truncation flag, exactly when it is completed. */
  lemma TableIsSound(w: World)
    requires Reachable(w)
    ensures J.TableOk(w.client.journal)
  {
    hide IsRun, After;
    var limits, steps :| IsRun(InitialWorld(limits), steps) && After(InitialWorld(limits), steps) == w;
    RunKeepsTable(InitialWorld(limits), steps);
  }

  // ---------- Reconciliation ----------

  lemma {:induction false} FlushFrame(c: ClientState)
    ensures Flush(c).journal == c.journal && Flush(c).socket == c.socket && |c.sent| <= |Flush(c).sent|
    decreases |c.buffer|
  {
    if c.authenticated && c.socket == Open && c.buffer != [] && c.sendsLeft > 0 {
      FlushFrame(c.(sent := c.sent + [c.buffer[0]], sendsLeft := c.sendsLeft - 1, buffer := c.buffer[1..]));
    }
  }

  /** The message reports the result, at most with the truncation flag raised. */
  predicate Reports(m: ClientMessage, id: CommandId, result: CommandResult) {
    && m.CommandCompleted? && m.commandId == id
    && m.result.status == result.status && m.result.exitCode == result.exitCode
    && (result.outputTruncated ==> m.result.outputTruncated)
  }

  /** Reconciliation on a connection that stays usable sends every entry, in order. */
  lemma {:induction false} ReconcileSends(c: ClientState, entries: seq<(CommandId, CommandResult)>)
    ensures var d := Reconcile(c, entries);
            d.authenticated && d.socket == Open ==>
              && c.authenticated && c.socket == Open
              && |d.sent| == |c.sent| + |entries| && c.sent <= d.sent
              && forall i | 0 <= i < |entries| :: Reports(d.sent[|c.sent| + i], entries[i].0, entries[i].1)
    decreases |entries|
  {
    hide MarkUnconfirmed, Enqueue;
    if entries != [] {
      var m := Completion(c, entries[0].0, entries[0].1);
      var c1 := Deliver(c, m).0;
      DeliverSends(c, m);
      ReconcileSends(c1, entries[1..]);
    }
  }

  /** A delivery that leaves the connection usable has sent its message. */
  lemma DeliverSends(c: ClientState, m: ClientMessage)
    requires m.CommandCompleted?
    ensures var d := Deliver(c, m).0;
            d.authenticated && d.socket == Open ==> c.authenticated && c.socket == Open && d.sent == c.sent + [m]
  {
    EnqueueKeepsConnection(c, m);
    EnqueueKeepsConnection(c.(authenticated := false), m);
  }

  lemma EnqueueKeepsConnection(c: ClientState, m: ClientMessage)
    ensures Enqueue(c, m).0.authenticated == c.authenticated && Enqueue(c, m).0.socket == c.socket
  {
  }

  lemma AuthenticatedSends(c: ClientState, id: CommandId)
    requires J.TableOk(c.journal) && Finished(c, id)
    requires ClientOutput.Authenticated(c).authenticated && ClientOutput.Authenticated(c).socket == Open
    ensures var d := ClientOutput.Authenticated(c);
            exists k | |c.sent| <= k < |d.sent| :: Reports(d.sent[k], id, c.journal.rows[id].result.value)
  {
    hide Flush, Reconcile, Reports;
    var c1 := Flush(c.(authenticated := true));
    FlushFrame(c.(authenticated := true));
    var entries := J.ResultsForReconciliation(c.journal);
    J.ResultsAreCompletedRows(c.journal, c.journal.order);
    assert J.RowOk(c.journal.rows[id]);
    ReconcileSends(c1, entries);
    var i :| 0 <= i < |entries| && entries[i] == (id, c.journal.rows[id].result.value);
    assert Reports(Reconcile(c1, entries).sent[|c1.sent| + i], entries[i].0, entries[i].1);
  }

  /** After every authentication that leaves the connection usable, the result of every
      completed row has been sent again on it. */
  lemma ResultsAreResent(w: World, id: CommandId)
    requires Reachable(w) && Enabled(w, ReceiveAuthenticated) && Finished(w.client, id)
    requires var d := Apply(w, ReceiveAuthenticated).client; d.authenticated && d.socket == Open
    ensures J.RowOk(w.client.journal.rows[id])
    ensures var d := Apply(w, ReceiveAuthenticated).client;
            exists k | |w.client.sent| <= k < |d.sent| :: Reports(d.sent[k], id, w.client.journal.rows[id].result.value)
  {
    hide Reachable, ClientOutput.Authenticated, Reports;
    TableIsSound(w);
    AuthenticatedSends(w.client, id);
  }
}
