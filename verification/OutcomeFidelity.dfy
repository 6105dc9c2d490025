/** How a Command ended is reported as it was journaled: every completion a connection
    carries or the buffer holds has the status and exit code of the journal row, and so has
    the Server's row once it is decided. */
module OutcomeFidelity {
  import opened Wire
  import opened ClientOutput
  import opened OutputLogs
  import opened JournalFading
  import opened OutputProtocol
  import opened ClientProgress
  import opened OutputHonesty
  import J = Journal
  import S = ServerCommands

  predicate SameEnd(a: CommandResult, b: CommandResult) {
    a.status == b.status && a.exitCode == b.exitCode
  }

  /** The row has a result that ends as `result` does. */
  predicate Journaled(t: J.Table, id: CommandId, result: CommandResult) {
    id in t.rows && t.rows[id].result.Some? && SameEnd(result, t.rows[id].result.value)
  }

  ghost predicate Faithful(t: J.Table, ms: seq<ClientMessage>, id: CommandId) {
    forall i | 0 <= i < |ms| && CompletionOf(ms[i], id) :: Journaled(t, id, ms[i].result)
  }

  ghost predicate Speaks(c: ClientState, id: CommandId) {
    Faithful(c.journal, c.sent, id) && Faithful(c.journal, c.buffer, id)
  }

  lemma FaithfulLater(c: ClientState, d: ClientState, ms: seq<ClientMessage>, id: CommandId)
    requires Agree(c, id) && Keeps(c, d, id) && Faithful(c.journal, ms, id)
    ensures Faithful(d.journal, ms, id)
  {
  }

  lemma JournaledFades(t: J.Table, u: J.Table, id: CommandId, result: CommandResult)
    requires Fades(t, u) && Journaled(t, id, result)
    ensures Journaled(u, id, result)
  {
    assert FadesRow(t.rows[id], u.rows[id]);
  }

  lemma FaithfulFades(t: J.Table, u: J.Table, ms: seq<ClientMessage>, id: CommandId)
    requires Fades(t, u) && Faithful(t, ms, id)
    ensures Faithful(u, ms, id)
  {
    hide Fades, Journaled;
    forall i | 0 <= i < |ms| && CompletionOf(ms[i], id)
      ensures Journaled(u, id, ms[i].result)
    {
      JournaledFades(t, u, id, ms[i].result);
    }
  }

  // ---------- Turns of the Client ----------

  lemma MarkSpeaks(c: ClientState, ids: set<CommandId>, id: CommandId)
    requires Speaks(c, id)
    ensures Speaks(MarkTruncated(c, ids), id)
  {
    hide Fades;
    MarkFades(c, ids);
    FaithfulFades(c.journal, MarkTruncated(c, ids).journal, c.sent, id);
    FaithfulFades(c.journal, MarkTruncated(c, ids).journal, c.buffer, id);
  }

  lemma EnqueueSpeaks(c: ClientState, m: ClientMessage, id: CommandId)
    requires Speaks(c, id)
    requires CompletionOf(m, id) ==> Journaled(c.journal, id, m.result)
    ensures Speaks(Enqueue(c, m).0, id)
  {
    hide BufferedBytes, Fades, J.TruncateRows, Journaled;
    if IsOutput(m) {
      MarkSpeaks(c, {m.commandId}, id);
    } else if |c.buffer| >= c.limits.messages && c.buffer != [] {
      var i := FirstOutput(c.buffer, 0);
      if i < |c.buffer| {
        var ids := {c.buffer[i].commandId};
        var marked := MarkTruncated(c, ids);
        MarkSpeaks(c, ids, id);
        MarkFades(c, ids);
        if CompletionOf(m, id) {
          JournaledFades(c.journal, marked.journal, id, m.result);
        }
        MarkingIsFaithful(marked.journal, Without(marked.buffer, i) + [m], ids, id);
      }
    }
  }

  lemma MarkingIsFaithful(t: J.Table, ms: seq<ClientMessage>, ids: set<CommandId>, id: CommandId)
    requires Faithful(t, ms, id)
    ensures Faithful(t, MarkMessages(ms, ids), id)
  {
  }

  lemma DeliverSpeaks(c: ClientState, m: ClientMessage, id: CommandId)
    requires Speaks(c, id)
    requires CompletionOf(m, id) ==> Journaled(c.journal, id, m.result)
    ensures Speaks(Deliver(c, m).0, id)
  {
    hide Enqueue, Fades;
    var c1 := if IsOutput(m) then MarkUnconfirmed(c, m.commandId) else c;
    if IsOutput(m) {
      UnconfirmFades(c, m.commandId);
      FaithfulFades(c.journal, c1.journal, c.sent, id);
      FaithfulFades(c.journal, c1.journal, c.buffer, id);
    }
    if !(c1.authenticated && c1.socket == Open && c1.sendsLeft > 0) {
      EnqueueSpeaks(if c1.authenticated && c1.socket == Open then c1.(authenticated := false) else c1, m, id);
    }
  }

  lemma {:induction false} FlushSpeaks(c: ClientState, id: CommandId)
    requires Speaks(c, id)
    ensures Speaks(Flush(c), id)
    decreases |c.buffer|
  {
    hide Journaled;
    if c.authenticated && c.socket == Open && c.buffer != [] && c.sendsLeft > 0 {
      var d := c.(sent := c.sent + [c.buffer[0]], sendsLeft := c.sendsLeft - 1, buffer := c.buffer[1..]);
      assert forall i | 0 <= i < |d.buffer| :: d.buffer[i] == c.buffer[i + 1];
      FlushSpeaks(d, id);
    }
  }

  /** Reporting a result as it is journaled. */
  lemma ReportSpeaks(c: ClientState, x: CommandId, result: CommandResult, id: CommandId)
    requires Speaks(c, id) && (x == id ==> Journaled(c.journal, id, result))
    ensures Speaks(SendCompletion(c, x, result), id)
  {
    hide Deliver, Speaks;
    DeliverSpeaks(c, Completion(c, x, result), id);
  }

  lemma {:induction false} ReconcileSpeaks(c: ClientState, entries: seq<(CommandId, CommandResult)>, id: CommandId)
    requires Speaks(c, id)
    requires forall i | 0 <= i < |entries| && entries[i].0 == id :: Journaled(c.journal, id, entries[i].1)
    ensures Speaks(Reconcile(c, entries), id)
    decreases |entries|
  {
    hide SendCompletion, Speaks, Journaled, Fades;
    if entries != [] {
      var d := SendCompletion(c, entries[0].0, entries[0].1);
      ReportSpeaks(c, entries[0].0, entries[0].1, id);
      ReportFades(c, entries[0].0, entries[0].1);
      forall i | 0 <= i < |entries[1..]| && entries[1..][i].0 == id
        ensures Journaled(d.journal, id, entries[1..][i].1)
      {
        JournaledFades(c.journal, d.journal, id, entries[i + 1].1);
      }
      ReconcileSpeaks(d, entries[1..], id);
    }
  }

  lemma {:induction false} ResultsAreJournaled(t: J.Table, ids: seq<CommandId>, id: CommandId)
    ensures forall i | 0 <= i < |J.Results(t, ids)| && J.Results(t, ids)[i].0 == id :: Journaled(t, id, J.Results(t, ids)[i].1)
  {
    if ids != [] {
      ResultsAreJournaled(t, ids[1..], id);
    }
  }

  lemma AuthenticatedSpeaks(c: ClientState, id: CommandId)
    requires Speaks(c, id)
    ensures Speaks(ClientOutput.Authenticated(c), id)
  {
    hide Flush, Reconcile, Speaks, Journaled, J.Results;
    var c1 := c.(authenticated := true);
    assert Speaks(c1, id) by { SpeaksFrame(c, c1, id); }
    FlushSpeaks(c1, id);
    var d := Flush(c1);
    ResultsAreJournaled(d.journal, d.journal.order, id);
    ReconcileSpeaks(d, J.ResultsForReconciliation(d.journal), id);
  }

  lemma SpeaksFrame(c: ClientState, d: ClientState, id: CommandId)
    requires Speaks(c, id) && d.journal == c.journal && d.sent == c.sent && d.buffer == c.buffer
    ensures Speaks(d, id)
  {
  }

  lemma TruncateExecutionSpeaks(c: ClientState, x: CommandId, id: CommandId)
    requires Speaks(c, id) && x in c.running
    ensures Speaks(TruncateExecution(c, x), id)
  {
    hide Speaks, MarkTruncated;
    MarkSpeaks(c, {x}, id);
    if !c.running[x].truncated {
      SpeaksFrame(if x in c.truncated then c else MarkTruncated(c, {x}), TruncateExecution(c, x), id);
    }
  }

  lemma EmitChunkSpeaks(c: ClientState, x: CommandId, chunk: Chunk, id: CommandId)
    requires Speaks(c, id) && x in c.running
    ensures Speaks(EmitChunk(c, x, chunk).0, id)
  {
    hide Speaks, Deliver, TruncateExecution;
    var m := CommandOutput(x, c.running[x].sequence, chunk);
    DeliverSpeaks(c, m, id);
    var (d, ok) := Deliver(c, m);
    if ok {
      SpeaksFrame(d, EmitChunk(c, x, chunk).0, id);
    } else {
      TruncateExecutionSpeaks(d, x, id);
    }
  }

  lemma {:induction false} EmitChunksSpeaks(c: ClientState, x: CommandId, stream: Stream, data: seq<Byte>, id: CommandId)
    requires Speaks(c, id) && x in c.running
    ensures Speaks(EmitChunks(c, x, stream, data).0, id)
    decreases |data|
  {
    hide Speaks, EmitChunk;
    if data != [] {
      var chunk := NextChunk(stream, data);
      EmitChunkSpeaks(c, x, chunk, id);
      var (c1, ok) := EmitChunk(c, x, chunk);
      if ok {
        EmitChunksSpeaks(c1, x, stream, data[|chunk.data|..], id);
      }
    }
  }

  lemma EmitSpeaks(c: ClientState, x: CommandId, stream: Stream, data: seq<Byte>, id: CommandId)
    requires Speaks(c, id) && x in c.running
    ensures Speaks(Emit(c, x, stream, data).0, id)
  {
    hide Speaks, EmitChunks, TruncateExecution;
    var e := c.running[x];
    if x in c.truncated || e.truncated {
      SpeaksFrame(c, Emit(c, x, stream, data).0, id);
    } else if e.limit <= e.outputBytes {
      TruncateExecutionSpeaks(c, x, id);
    } else {
      var taken := Min(e.limit - e.outputBytes, |data|);
      EmitChunksSpeaks(c, x, stream, data[..taken], id);
      if taken < |data| {
        TruncateExecutionSpeaks(EmitChunks(c, x, stream, data[..taken]).0, x, id);
      }
    }
  }

  lemma LateSpeaks(c: ClientState, x: CommandId, stream: Stream, data: seq<Byte>, id: CommandId)
    requires Speaks(c, id) && x in c.orphans
    ensures Speaks(EmitLate(c, x, stream, data), id)
  {
    hide Speaks, Emit;
    var c1 := c.(running := c.running[x := c.orphans[x]]);
    SpeaksFrame(c, c1, id);
    EmitSpeaks(c1, x, stream, data, id);
    SpeaksFrame(Emit(c1, x, stream, data).0, EmitLate(c, x, stream, data), id);
  }

  /** Completing a row that had no result: nothing was reported of it before. */
  lemma CompleteSpeaks(c: ClientState, x: CommandId, result: CommandResult, id: CommandId)
    requires Speaks(c, id) && x in c.journal.rows && c.journal.rows[x].result.None?
    ensures var t := J.Complete(c.journal, x, result);
            && Faithful(t, c.sent, id) && Faithful(t, c.buffer, id)
            && Journaled(t, x, result)
  {
  }

  lemma FinishSpeaks(c: ClientState, x: CommandId, ending: Ending, id: CommandId)
    requires Agree(c, x) && Speaks(c, id) && x in c.running
    ensures Speaks(Finish(c, x, ending), id)
  {
    hide Speaks, Deliver, Shutdown, Journaled;
    var result := FinalResult(ending, c.running[x].truncated || x in c.truncated);
    var c0 := c.(journal := J.Complete(c.journal, x, result));
    CompleteSpeaks(c, x, result, id);
    assert Speaks(c0, id) by { SpeaksOf(c0, id); }
    ReportSpeaks(c0, x, result, id);
    var sent := SendCompletion(c0, x, result);
    var d := sent.(running := sent.running - {x});
    SpeaksFrame(sent, d, id);
    ShutdownSpeaks(d, id);
    if Unproved(ending) {
      SpeaksFrame(Shutdown(d), Finish(c, x, ending), id);
    }
  }

  /** The end of an execution is journaled. */
  lemma FinishJournals(c: ClientState, x: CommandId, ending: Ending)
    requires Agree(c, x) && x in c.running
    ensures Journaled(Finish(c, x, ending).journal, x, FinalResult(ending, c.running[x].truncated || x in c.truncated))
  {
    hide Deliver, Shutdown, Fades;
    var result := FinalResult(ending, c.running[x].truncated || x in c.truncated);
    var c0 := c.(journal := J.Complete(c.journal, x, result));
    var sent := SendCompletion(c0, x, result);
    ReportFades(c0, x, result);
    JournaledFades(c0.journal, sent.journal, x, result);
    var d := sent.(running := sent.running - {x});
    ShutdownFades(d);
    JournaledFades(d.journal, Shutdown(d).journal, x, result);
  }

  lemma SpeaksOf(d: ClientState, id: CommandId)
    requires Faithful(d.journal, d.sent, id) && Faithful(d.journal, d.buffer, id)
    ensures Speaks(d, id)
  {
  }

  lemma ShutdownSpeaks(c: ClientState, id: CommandId)
    requires Speaks(c, id)
    ensures Speaks(Shutdown(c), id)
  {
    hide Speaks, MarkTruncated;
    MarkSpeaks(c, c.unconfirmed, id);
    SpeaksFrame(MarkAllUnconfirmedTruncated(c), Shutdown(c), id);
  }

  /** A row that is inserted and completed at once. */
  lemma FreshSpeaks(c: ClientState, x: CommandId, result: CommandResult, id: CommandId)
    requires Speaks(c, id) && x !in c.journal.rows
    ensures var c1 := c.(journal := J.Receive(c.journal, x).0);
            && Speaks(CompleteAndSend(c1, x, result), id)
            && Journaled(CompleteAndSend(c1, x, result).journal, x, result)
  {
    hide Speaks, Deliver, Journaled, Fades;
    var c1 := c.(journal := J.Receive(c.journal, x).0);
    InsertSpeaks(c, x, id);
    CompleteSpeaks(c1, x, result, id);
    var d := c1.(journal := J.Complete(c1.journal, x, result));
    assert Speaks(d, id) by { SpeaksOf(d, id); }
    ReportSpeaks(d, x, result, id);
    ReportFades(d, x, result);
    JournaledFades(d.journal, SendCompletion(d, x, result).journal, x, result);
  }

  lemma InsertSpeaks(c: ClientState, x: CommandId, id: CommandId)
    requires Speaks(c, id) && x !in c.journal.rows
    ensures Speaks(c.(journal := J.Receive(c.journal, x).0), id)
  {
  }

  lemma StartSpeaks(c: ClientState, x: CommandId, admission: Option<string>, id: CommandId)
    requires Speaks(c, id)
    ensures Speaks(Start(c, x, admission), id)
  {
    hide Speaks, Deliver, CompleteAndSend, SendCompletion, Journaled;
    var (journal, receipt) := J.Receive(c.journal, x);
    var c1 := c.(journal := journal);
    match receipt {
      case AlreadyCompleted =>
        var previous := J.ResultOf(journal, x);
        if previous.Some? {
          assert Journaled(c.journal, x, previous.value) by { StoredIsJournaled(c.journal, x); }
          ReportSpeaks(c, x, previous.value, id);
        }
      case InProgress =>
      case New =>
        FreshSpeaks(c, x, CommandResult(Failed, None, Some(admission.GetOr(EXCEEDS_POLICY)), false), id);
        var limit := Min(DEFAULT_COMMAND_OUTPUT_BYTES, c.limits.commandBytes);
        InsertSpeaks(c, x, id);
        var c2 := c1.(running := c1.running[x := Execution(0, 0, false, limit)], journal := J.MarkRunning(journal, x));
        RunningSpeaks(c1, c2, x, id);
        DeliverSpeaks(c2, CommandStarted(x), id);
    }
  }

  lemma StoredIsJournaled(t: J.Table, x: CommandId)
    requires J.ResultOf(t, x).Some?
    ensures Journaled(t, x, J.ResultOf(t, x).value)
  {
  }

  lemma RunningSpeaks(c: ClientState, d: ClientState, x: CommandId, id: CommandId)
    requires Speaks(c, id) && d == c.(journal := J.MarkRunning(c.journal, x), running := d.running)
    ensures Speaks(d, id)
  {
  }

  lemma CancelSpeaks(c: ClientState, x: CommandId, id: CommandId)
    requires Agree(c, x) && Speaks(c, id)
    ensures Speaks(Cancel(c, x), id)
  {
    hide Speaks, CompleteAndSend, SendCompletion, Journaled;
    if x !in c.running {
      var previous := J.ResultOf(c.journal, x);
      if previous.Some? {
        StoredIsJournaled(c.journal, x);
        ReportSpeaks(c, x, previous.value, id);
      } else {
        assert x !in c.journal.rows;
        FreshSpeaks(c, x, CommandResult(Cancelled, None, Some("Command was cancelled before execution started"), false), id);
      }
    }
  }

  lemma AcknowledgedSpeaks(c: ClientState, x: CommandId, id: CommandId)
    requires Speaks(c, id) && x != id
    ensures Speaks(Acknowledged(c, x), id)
  {
  }

  lemma ClosedSpeaks(c: ClientState, d: ClientState, id: CommandId)
    requires Agree(c, id) && Speaks(c, id) && Keeps(c, d, id)
    requires d.sent == [] && (d.buffer == [] || exists ids :: d.buffer == MarkMessages(c.buffer, ids))
    ensures Speaks(d, id)
  {
    hide Keeps, Agree;
    FaithfulLater(c, d, c.buffer, id);
    if d.buffer != [] {
      var ids :| d.buffer == MarkMessages(c.buffer, ids);
      MarkingIsFaithful(d.journal, c.buffer, ids, id);
    }
  }

  // ---------- Runs ----------

  /** Everything the Client sent or is going to send about the Command is as journaled. */
  ghost predicate TellsTruth(w: World, id: CommandId) {
    && Speaks(w.client, id)
    && (forall k | 0 <= k < |w.past| :: Faithful(w.client.journal, w.past[k].log, id))
  }

  lemma ClientSpeaks(w: World, s: Step, id: CommandId)
    requires Enabled(w, s) && AllAgree(w.client) && Speaks(w.client, id) && s != ReceiveAcknowledged(id)
    ensures Speaks(Apply(w, s).client, id)
  {
    hide Speaks, Start, Cancel, Emit, EmitLate, Finish, Shutdown, Flush, Reconcile, Handle, Restart, MarkTruncated, ClientOutput.Authenticated, Acknowledged, Keeps;
    var c := w.client;
    assert Agree(c, id);
    match s {
      case ReceiveStart(x, admission) =>
        StartSpeaks(c, x, admission, id);
      case ReceiveCancel(x) =>
        assert Agree(c, x);
        CancelSpeaks(c, x, id);
      case ReceiveAcknowledged(x) => AcknowledgedSpeaks(c, x, id);
      case ProcessOutput(x, stream, data) => EmitSpeaks(c, x, stream, data, id);
      case LateOutput(life, stream, data) =>
        if life.id in c.orphans {
          LateSpeaks(c, life.id, stream, data, id);
        }
      case ExecutionEnds(x, ending) =>
        assert Agree(c, x);
        FinishSpeaks(c, x, ending, id);
      case SocketOpens(n) => SpeaksFrame(c, c.(socket := Open, sendsLeft := n), id);
      case SocketCloses => SpeaksFrame(c, c.(socket := Closing), id);
      case SendsLeft(n) => SpeaksFrame(c, c.(sendsLeft := n), id);
      case Stop => ShutdownSpeaks(c, id);
      case ReceiveAuthenticated => AuthenticatedSpeaks(c, id);
      case SocketCloseEvent =>
        StepProgress(w, s, id);
        assert CloseEvent(c).buffer == MarkMessages(c.buffer, c.unconfirmed) by { ClosedBuffer(c); }
        ClosedSpeaks(c, CloseEvent(c), id);
      case CrashAndRestart =>
        StepProgress(w, s, id);
        RestartIsEmpty(c);
        ClosedSpeaks(c, Restart(c), id);
      case _ =>
    }
  }

  lemma ClosedBuffer(c: ClientState)
    ensures CloseEvent(c).buffer == MarkMessages(c.buffer, c.unconfirmed)
  {
  }

  lemma RestartIsEmpty(c: ClientState)
    ensures Restart(c).buffer == [] && Restart(c).sent == []
  {
  }

  /** A step leaves the logs of the past connections, apart from adding the last one. */
  lemma PastLogs(w: World, s: Step, k: nat)
    requires Enabled(w, s) && k < |Apply(w, s).past|
    ensures k < |w.past| ==> Apply(w, s).past[k].log == w.past[k].log
    ensures k >= |w.past| ==> Apply(w, s).past[k].log == w.client.sent
  {
    hide Start, Cancel, Emit, EmitLate, Finish, Shutdown, Flush, Reconcile, Handle, Restart, MarkTruncated, ClientOutput.Authenticated, Acknowledged;
  }

  lemma StepTellsTruth(w: World, s: Step, id: CommandId)
    requires Enabled(w, s) && AllAgree(w.client) && TellsTruth(w, id) && s != ReceiveAcknowledged(id)
    ensures TellsTruth(Apply(w, s), id)
  {
    hide Apply, Enabled, Faithful, Keeps, AllAgree;
    var v := Apply(w, s);
    ClientSpeaks(w, s, id);
    assert Agree(w.client, id) by { AgreeOne(w.client, id); }
    StepProgress(w, s, id);
    forall k | 0 <= k < |v.past|
      ensures Faithful(v.client.journal, v.past[k].log, id)
    {
      PastLogs(w, s, k);
      FaithfulLater(w.client, v.client, v.past[k].log, id);
    }
  }

  /** Only a decided Command is acknowledged. */
  lemma UndecidedIsUnacknowledged(w: World, s: Step, id: CommandId)
    requires Enabled(w, s) && Invariant(w) && Undecided(w, id)
    ensures s != ReceiveAcknowledged(id)
  {
    assert CommandTracks(w, id);
  }

  lemma {:induction false} RunTellsTruth(w: World, steps: seq<Step>, id: CommandId)
    requires Invariant(w) && IsRun(w, steps) && (Undecided(w, id) ==> TellsTruth(w, id))
    ensures Undecided(After(w, steps), id) ==> TellsTruth(After(w, steps), id)
    decreases |steps|
  {
    hide Enabled, Apply, TellsTruth, TracksAt, Undecided;
    if steps != [] {
      var v := Apply(w, steps[0]);
      StepKeepsInvariant(w, steps[0]);
      if Undecided(v, id) {
        StaysDecided(w, steps[0], id);
        UndecidedIsUnacknowledged(w, steps[0], id);
        StepTellsTruth(w, steps[0], id);
      }
      RunTellsTruth(v, steps[1..], id);
    }
  }

  lemma StaysDecided(w: World, s: Step, id: CommandId)
    requires Enabled(w, s) && Undecided(Apply(w, s), id)
    ensures Undecided(w, id)
  {
    if !Undecided(w, id) {
      DecidedIsFinal(w, s, id);
    }
  }

  /** A deciding message says what is journaled. */
  lemma DecidedAsJournaled(w: World, k: nat, at: int, id: CommandId)
    requires Enabled(w, ServerHandles(k, at)) && TellsTruth(w, id)
    requires Undecided(w, id) && !Undecided(HandleOn(w, k, at), id)
    ensures var (row, journal) := (HandleOn(w, k, at).server[id], w.client.journal);
            && id in journal.rows && journal.rows[id].result.Some?
            && row.status == S.Terminal(journal.rows[id].result.value.status)
            && row.exitCode == journal.rows[id].result.value.exitCode
            && row.finishedAt == Some(at)
  {
    Decides(w, k, at, id);
    var link := LinkOf(w, k);
    assert Faithful(w.client.journal, link.log, id);
    assert CompletionOf(link.log[link.handled], id);
  }

  /** The step that decides a Command on the Server gives it the status and exit code of the
      Client's journal row, which is still there. */
  lemma ServerLearnsJournaledEnd(w: World, k: nat, at: int, id: CommandId)
    requires Reachable(w) && Enabled(w, ServerHandles(k, at))
    requires Undecided(w, id) && !Undecided(HandleOn(w, k, at), id)
    ensures var (row, journal) := (HandleOn(w, k, at).server[id], w.client.journal);
            && id in journal.rows && journal.rows[id].result.Some?
            && row.status == S.Terminal(journal.rows[id].result.value.status)
            && row.exitCode == journal.rows[id].result.value.exitCode
            && row.finishedAt == Some(at)
  {
    hide IsRun, After, Invariant, Enabled, HandleOn, TellsTruth;
    ReachableTellsTruth(w, id);
    DecidedAsJournaled(w, k, at, id);
  }

  lemma ReachableTellsTruth(w: World, id: CommandId)
    requires Reachable(w) && Undecided(w, id)
    ensures TellsTruth(w, id)
  {
    hide IsRun, After, Invariant, Undecided;
    var limits, steps :| IsRun(InitialWorld(limits), steps) && After(InitialWorld(limits), steps) == w;
    InitialInvariant(limits);
    NothingSaid(limits, id);
    RunTellsTruth(InitialWorld(limits), steps, id);
  }

  lemma NothingSaid(limits: Limits, id: CommandId)
    ensures TellsTruth(InitialWorld(limits), id)
  {
  }

  /** What the journaled end says about the execution: success is an exit with code zero
      that nobody interrupted, and an outcome is unknown only when termination could not be
      confirmed. */
  lemma EndIsExplained(ending: Ending, truncated: bool)
    ensures var status := FinalResult(ending, truncated).status;
            && (status == Succeeded <==> ending == Exited(Some(0), false, false))
            && (status == ExecutionUnknown <==> ending.Aborted? && ending.unconfirmed)
            && (status == TimedOut <==> ending.timedOut && !(ending.Aborted? && ending.unconfirmed))
            && (status == Cancelled <==> ending.cancelRequested && !ending.timedOut && !(ending.Aborted? && ending.unconfirmed))
            && FinalResult(ending, truncated).exitCode == (if ending.Exited? then ending.exitCode else None)
            && FinalResult(ending, truncated).error == (if ending.Aborted? then Some(ending.message)
                                                        else if truncated then Some("Output limit reached") else None)
            && FinalResult(ending, truncated).outputTruncated == truncated
  {
  }

  /** A cancellation that arrives before the start is journaled as such, and no later start
      reaches the executor while the row is there. */
  lemma CancelledBeforeStart(c: ClientState, id: CommandId, admission: Option<string>)
    requires Agree(c, id) && id !in c.journal.rows
    ensures var d := Cancel(c, id);
            && id in d.journal.rows && d.journal.rows[id].result.Some?
            && d.journal.rows[id].result.value.status == Cancelled
            && !Launches(d, id, admission)
  {
    hide CompleteAndSend;
    var result := CommandResult(Cancelled, None, Some("Command was cancelled before execution started"), false);
    FreshJournaled(c, id, result);
  }

  lemma FreshJournaled(c: ClientState, x: CommandId, result: CommandResult)
    requires x !in c.journal.rows
    ensures Journaled(CompleteAndSend(c.(journal := J.Receive(c.journal, x).0), x, result).journal, x, result)
  {
    hide Deliver, Fades;
    var c1 := c.(journal := J.Receive(c.journal, x).0);
    var d := c1.(journal := J.Complete(c1.journal, x, result));
    ReportFades(d, x, result);
    JournaledFades(d.journal, SendCompletion(d, x, result).journal, x, result);
  }
}
