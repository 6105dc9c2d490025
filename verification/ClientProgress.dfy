/** What no turn of the Client ever takes back: a stored outcome, a truncation flag, a
    message already sent. */
module ClientProgress {
  import opened Wire
  import opened ClientOutput
  import opened JournalFading
  import opened OutputProtocol
  import J = Journal

  predicate Finished(c: ClientState, id: CommandId) {
    id in c.journal.rows && c.journal.rows[id].state == J.Completed
  }

  /** An execution runs exactly while its row is neither missing nor completed; one whose
      process may be left over has ended and stopped the Client. */
  ghost predicate Agree(c: ClientState, id: CommandId) {
    && (id in c.running <==> id in c.journal.rows && !Finished(c, id))
    && (id in c.journal.rows ==> J.RowOk(c.journal.rows[id]))
    && (id in c.orphans ==> c.stopped && !c.authenticated && Finished(c, id))
  }

  ghost predicate Keeps(c: ClientState, d: ClientState, id: CommandId)
    requires Agree(c, id)
  {
    && Agree(d, id)
    && (id in c.journal.rows ==> id in d.journal.rows)
    && (id in c.journal.rows && c.journal.rows[id].truncated ==> d.journal.rows[id].truncated)
    && (Finished(c, id) ==> Finished(d, id) && J.SameOutcome(c.journal.rows[id].result.value, d.journal.rows[id].result.value))
  }

  /** The step does not insert the Command's row. */
  predicate NoNewRow(c: ClientState, d: ClientState, id: CommandId) {
    id in d.journal.rows ==> id in c.journal.rows
  }

  /** Raising flags and marking output unconfirmed takes nothing back. */
  lemma FadingKeeps(c: ClientState, d: ClientState, id: CommandId)
    requires Agree(c, id) && Fades(c.journal, d.journal)
    requires id in d.running <==> id in c.running
    requires id in d.orphans ==> id in c.orphans && d.stopped && !d.authenticated
    ensures Keeps(c, d, id) && NoNewRow(c, d, id)
  {
    assert id in c.journal.rows ==> FadesRow(c.journal.rows[id], d.journal.rows[id]);
  }

  lemma MarkProgress(c: ClientState, ids: set<CommandId>, id: CommandId)
    requires Agree(c, id)
    ensures Keeps(c, MarkTruncated(c, ids), id) && NoNewRow(c, MarkTruncated(c, ids), id)
  {
    hide Keeps, Fades;
    MarkFades(c, ids);
    FadingKeeps(c, MarkTruncated(c, ids), id);
  }

  lemma DeliverProgress(c: ClientState, m: ClientMessage, id: CommandId)
    requires Agree(c, id)
    ensures Keeps(c, Deliver(c, m).0, id) && NoNewRow(c, Deliver(c, m).0, id)
  {
    hide Deliver, Keeps, Fades;
    DeliverFades(c, m);
    FadingKeeps(c, Deliver(c, m).0, id);
  }

  lemma AuthenticatedProgress(c: ClientState, id: CommandId)
    requires Agree(c, id) && !c.stopped
    ensures var d := ClientOutput.Authenticated(c);
            Keeps(c, d, id) && NoNewRow(c, d, id) && c.sent <= d.sent
  {
    hide Keeps, Fades, Flush, Reconcile;
    AuthenticatedFades(c);
    FadingKeeps(c, ClientOutput.Authenticated(c), id);
  }

  lemma EmitProgress(c: ClientState, x: CommandId, stream: Stream, data: seq<Byte>, id: CommandId)
    requires Agree(c, id) && x in c.running
    ensures Keeps(c, Emit(c, x, stream, data).0, id) && NoNewRow(c, Emit(c, x, stream, data).0, id)
  {
    hide Emit, Keeps, Fades;
    EmitFades(c, x, stream, data);
    FadingKeeps(c, Emit(c, x, stream, data).0, id);
  }

  lemma LateProgress(c: ClientState, x: CommandId, stream: Stream, data: seq<Byte>, id: CommandId)
    requires Agree(c, id) && Agree(c, x) && x in c.orphans
    ensures Keeps(c, EmitLate(c, x, stream, data), id) && NoNewRow(c, EmitLate(c, x, stream, data), id)
    ensures c.sent <= EmitLate(c, x, stream, data).sent
  {
    hide Emit, Keeps, Fades;
    LateFades(c, x, stream, data);
    FadingKeeps(c, EmitLate(c, x, stream, data), id);
  }

  lemma ShutdownProgress(c: ClientState, id: CommandId)
    requires Agree(c, id)
    ensures Keeps(c, Shutdown(c), id) && Shutdown(c).sent == c.sent && NoNewRow(c, Shutdown(c), id)
  {
    hide Keeps, Fades;
    ShutdownFades(c);
    FadingKeeps(c, Shutdown(c), id);
  }

  lemma BufferingIgnoresRunning(c: ClientState, m: ClientMessage, running: map<CommandId, Execution>)
    ensures Enqueue(c.(running := running), m) == (Enqueue(c, m).0.(running := running), Enqueue(c, m).1)
  {
    hide MarkMessages, Without, BufferedBytes, FirstOutput, J.TruncateRows;
  }

  /** The Client `deliver` works on. */
  function Noted(c: ClientState, m: ClientMessage): ClientState {
    if IsOutput(m) then MarkUnconfirmed(c, m.commandId) else c
  }

  lemma DeliverSent(c: ClientState, m: ClientMessage)
    requires var c1 := Noted(c, m); c1.authenticated && c1.socket == Open && c1.sendsLeft > 0
    ensures var c1 := Noted(c, m);
            Deliver(c, m).0 == c1.(sent := c1.sent + [m], sendsLeft := c1.sendsLeft - 1, accepted := c1.accepted + [m])
  {
    hide Enqueue;
  }

  lemma DeliverBuffered(c: ClientState, m: ClientMessage)
    requires var c1 := Noted(c, m); !(c1.authenticated && c1.socket == Open && c1.sendsLeft > 0)
    ensures var c1 := Noted(c, m);
            var (d, ok) := Enqueue(if c1.authenticated && c1.socket == Open then c1.(authenticated := false) else c1, m);
            Deliver(c, m).0 == if ok then d.(accepted := d.accepted + [m]) else d
  {
    hide Enqueue;
  }

  lemma RunningIrrelevant(c: ClientState, m: ClientMessage, running: map<CommandId, Execution>)
    ensures Deliver(c.(running := running), m).0 == Deliver(c, m).0.(running := running)
  {
    hide Deliver, Enqueue, MarkUnconfirmed, SameButWire, SameButBuffer;
    if IsOutput(m) {
      UnconfirmIgnoresRunning(c, m.commandId, running);
    }
    var c1 := Noted(c, m);
    assert Noted(c.(running := running), m) == c1.(running := running);
    if c1.authenticated && c1.socket == Open && c1.sendsLeft > 0 {
      DeliverSent(c, m);
      DeliverSent(c.(running := running), m);
    } else {
      DeliverBuffered(c, m);
      DeliverBuffered(c.(running := running), m);
      BufferingIgnoresRunning(if c1.authenticated && c1.socket == Open then c1.(authenticated := false) else c1, m, running);
    }
  }

  lemma UnconfirmIgnoresRunning(c: ClientState, id: CommandId, running: map<CommandId, Execution>)
    ensures MarkUnconfirmed(c.(running := running), id) == MarkUnconfirmed(c, id).(running := running)
  {
  }

  lemma KeepsTrans(a: ClientState, b: ClientState, c: ClientState, id: CommandId)
    requires Agree(a, id) && Keeps(a, b, id) && Keeps(b, c, id)
    ensures Keeps(a, c, id)
  {
  }

  lemma CompleteProgress(c: ClientState, x: CommandId, result: CommandResult, id: CommandId)
    requires Agree(c, id) && Agree(c, x) && x in c.running
    ensures var d := c.(journal := J.Complete(c.journal, x, result), running := c.running - {x});
            Keeps(c, d, id) && NoNewRow(c, d, id) && Agree(d, x) && Finished(d, x)
  {
  }

  lemma OrphanProgress(c: ClientState, x: CommandId, e: Execution, id: CommandId)
    requires Agree(c, id) && Finished(c, x) && c.stopped && !c.authenticated
    ensures Keeps(c, c.(orphans := c.orphans[x := e]), id)
  {
  }

  lemma FinishProgress(c: ClientState, x: CommandId, ending: Ending, id: CommandId)
    requires Agree(c, id) && Agree(c, x) && x in c.running
    ensures Keeps(c, Finish(c, x, ending), id) && c.sent <= Finish(c, x, ending).sent
    ensures NoNewRow(c, Finish(c, x, ending), id)
  {
    hide Deliver, Shutdown, Keeps, Agree;
    var truncated := c.running[x].truncated || x in c.truncated;
    var result := FinalResult(ending, truncated);
    var c0 := c.(journal := J.Complete(c.journal, x, result));
    var d := c0.(running := c.running - {x});
    var m := Completion(c0, x, result);
    var e := Deliver(d, m).0;
    CompleteProgress(c, x, result, id);
    RunningIrrelevant(c0, m, c.running - {x});
    assert Agree(d, id) by { KeepsAgrees(c, d, id); }
    DeliverProgress(d, m, id);
    DeliverProgress(d, m, x);
    KeepsTrans(c, d, e, id);
    if Unproved(ending) {
      KeepsAgrees(d, e, id);
      KeepsAgrees(d, e, x);
      FinishedStays(d, e, x);
      ShutdownProgress(e, id);
      ShutdownProgress(e, x);
      KeepsTrans(c, e, Shutdown(e), id);
      KeepsAgrees(e, Shutdown(e), id);
      FinishedStays(e, Shutdown(e), x);
      assert Shutdown(e).stopped && !Shutdown(e).authenticated by { ShutdownStops(e); }
      OrphanProgress(Shutdown(e), x, c.running[x].(truncated := truncated), id);
      KeepsTrans(c, Shutdown(e), Shutdown(e).(orphans := Shutdown(e).orphans[x := c.running[x].(truncated := truncated)]), id);
      assert Shutdown(e).orphans == c.orphans by { ShutdownStops(e); }
    }
  }

  lemma ShutdownStops(c: ClientState)
    ensures Shutdown(c).stopped && !Shutdown(c).authenticated && Shutdown(c).orphans == c.orphans
    ensures Shutdown(c).sent == c.sent && Shutdown(c).running == c.running
  {
  }

  lemma KeepsAgrees(c: ClientState, d: ClientState, id: CommandId)
    requires Agree(c, id) && Keeps(c, d, id)
    ensures Agree(d, id)
  {
  }

  lemma FinishedStays(c: ClientState, d: ClientState, id: CommandId)
    requires Agree(c, id) && Keeps(c, d, id) && Finished(c, id)
    ensures Finished(d, id)
  {
  }

  lemma StartProgress(c: ClientState, x: CommandId, admission: Option<string>, id: CommandId)
    requires Agree(c, id) && Agree(c, x)
    ensures Keeps(c, Start(c, x, admission), id) && c.sent <= Start(c, x, admission).sent
    ensures x != id ==> NoNewRow(c, Start(c, x, admission), id)
  {
    hide Deliver;
    var (journal, receipt) := J.Receive(c.journal, x);
    var c1 := c.(journal := journal);
    if receipt == J.New {
      var refused := CommandResult(Failed, None, Some(admission.GetOr(EXCEEDS_POLICY)), false);
      var c2 := c1.(journal := J.Complete(journal, x, refused));
      DeliverProgress(c2, Completion(c2, x, refused), id);
      var limit := Min(DEFAULT_COMMAND_OUTPUT_BYTES, c.limits.commandBytes);
      var c3 := c1.(running := c.running[x := Execution(0, 0, false, limit)], journal := J.MarkRunning(journal, x));
      DeliverProgress(c3, CommandStarted(x), id);
    } else {
      assert c1 == c;
      var previous := J.ResultOf(journal, x);
      if previous.Some? {
        DeliverProgress(c, Completion(c, x, previous.value), id);
      }
    }
  }

  lemma CancelProgress(c: ClientState, x: CommandId, id: CommandId)
    requires Agree(c, id) && Agree(c, x)
    ensures Keeps(c, Cancel(c, x), id) && c.sent <= Cancel(c, x).sent
    ensures x != id ==> NoNewRow(c, Cancel(c, x), id)
  {
    hide Deliver;
    if x !in c.running {
      var previous := J.ResultOf(c.journal, x);
      if previous.Some? {
        DeliverProgress(c, Completion(c, x, previous.value), id);
      } else {
        assert x !in c.journal.rows;
        var result := CommandResult(Cancelled, None, Some("Command was cancelled before execution started"), false);
        var c1 := c.(journal := J.Complete(J.Receive(c.journal, x).0, x, result));
        DeliverProgress(c1, Completion(c1, x, result), id);
      }
    }
  }

  lemma AcknowledgedProgress(c: ClientState, x: CommandId, id: CommandId)
    requires Agree(c, id) && c.authenticated
    ensures Agree(Acknowledged(c, x), id)
    ensures x != id ==> Keeps(c, Acknowledged(c, x), id)
    ensures NoNewRow(c, Acknowledged(c, x), id)
    ensures Acknowledged(c, x).sent == c.sent
  {
  }

  lemma RestartProgress(c: ClientState, id: CommandId)
    requires Agree(c, id)
    ensures Keeps(c, Restart(c), id)
    ensures NoNewRow(c, Restart(c), id)
  {
  }

  predicate ClientOnly(s: Step) {
    !(s.CreateCommand? || s.RequestCancellation? || s.ServerHandles? || s.SocketCloseEvent? || s.CrashAndRestart?)
  }

  ghost predicate AllAgree(c: ClientState) {
    forall id :: Agree(c, id)
  }

  /** A Command's stored outcome survives every step but its own acknowledgement. */
  lemma StepProgress(w: World, s: Step, id: CommandId)
    requires Enabled(w, s) && AllAgree(w.client)
    ensures Agree(Apply(w, s).client, id)
    ensures s != ReceiveAcknowledged(id) ==> Keeps(w.client, Apply(w, s).client, id)
    ensures !(s.ReceiveStart? && s.id == id) && !(s.ReceiveCancel? && s.id == id) ==> NoNewRow(w.client, Apply(w, s).client, id)
    ensures ClientOnly(s) ==> w.client.sent <= Apply(w, s).client.sent
  {
    hide Deliver, ClientOutput.Authenticated, Emit, EmitLate, Finish, Start, Cancel, Shutdown, Restart, MarkTruncated;
    var c := w.client;
    assert Agree(c, id);
    match s {
      case ReceiveStart(x, admission) =>
        assert Agree(c, x);
        StartProgress(c, x, admission, id);
      case ReceiveCancel(x) =>
        assert Agree(c, x);
        CancelProgress(c, x, id);
      case ReceiveAcknowledged(x) =>
        AcknowledgedProgress(c, x, id);
      case ProcessOutput(x, stream, data) =>
        EmitProgress(c, x, stream, data, id);
      case LateOutput(life, stream, data) =>
        if life.id in c.orphans {
          assert Agree(c, life.id);
          LateProgress(c, life.id, stream, data, id);
        }
      case ExecutionEnds(x, ending) =>
        assert Agree(c, x);
        FinishProgress(c, x, ending, id);
      case SocketCloseEvent =>
        MarkProgress(c, c.unconfirmed, id);
      case ReceiveAuthenticated =>
        AuthenticatedProgress(c, id);
      case Stop =>
        ShutdownProgress(c, id);
      case CrashAndRestart =>
        RestartProgress(c, id);
      case _ =>
    }
  }

  lemma StepAllAgree(w: World, s: Step)
    requires Enabled(w, s) && AllAgree(w.client)
    ensures AllAgree(Apply(w, s).client)
  {
    forall id
      ensures Agree(Apply(w, s).client, id)
    {
      StepProgress(w, s, id);
    }
  }
}
