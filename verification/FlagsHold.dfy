/** Once output of a Command was lost, nothing the Client says about it claims complete
    output until the Command is acknowledged, whatever the Server makes of it meanwhile. */
module FlagsHold {
  import opened Wire
  import opened ClientOutput
  import opened OutputLogs
  import opened JournalFading
  import opened OutputProtocol
  import opened ClientProgress
  import opened OutputHonesty
  import J = Journal

  predicate Marked(c: ClientState, id: CommandId) {
    id in c.journal.rows && c.journal.rows[id].truncated
  }

  /** The loss is journaled and no buffered completion denies it. */
  ghost predicate Told(c: ClientState, id: CommandId) {
    Marked(c, id) && !HasClaim(c.buffer, id)
  }

  /** The execution, if it is still going on, will be reported as incomplete as well. */
  ghost predicate FlagHolds(c: ClientState, id: CommandId) {
    Told(c, id) && (id in c.running ==> id in c.truncated)
  }

  ghost predicate QuietFrom(ms: seq<ClientMessage>, n: nat, id: CommandId) {
    forall i | n <= i < |ms| :: !Claims(ms[i], id)
  }

  /** What a part of a turn does to the flag: it is never lowered, raising it in memory
      raises it everywhere, and where it holds nothing sent claims complete output. */
  ghost predicate Stays(c: ClientState, d: ClientState, id: CommandId) {
    && (id in c.journal.rows <==> id in d.journal.rows)
    && (id in c.truncated ==> id in d.truncated)
    && (Marked(c, id) ==> Marked(d, id))
    && (Marked(d, id) && !Marked(c, id) ==> id in d.truncated)
    && (id in d.truncated && id !in c.truncated && id in d.journal.rows ==> Told(d, id))
    && (Told(c, id) ==> Told(d, id) && c.sent <= d.sent && QuietFrom(d.sent, |c.sent|, id))
  }

  lemma StaysTrans(a: ClientState, b: ClientState, c: ClientState, id: CommandId)
    requires Stays(a, b, id) && Stays(b, c, id)
    ensures Stays(a, c, id)
  {
    hide HasClaim;
    if Told(a, id) {
      assert forall i | |a.sent| <= i < |b.sent| :: c.sent[i] == b.sent[i];
    }
  }

  /** Nothing that matters changes. */
  lemma StaysSame(c: ClientState, d: ClientState, id: CommandId)
    requires d.buffer == c.buffer && d.sent == c.sent && (id in d.truncated <==> id in c.truncated)
    requires (id in c.journal.rows <==> id in d.journal.rows) && (Marked(d, id) <==> Marked(c, id))
    ensures Stays(c, d, id)
  {
    hide HasClaim;
  }

  lemma MarkStays(c: ClientState, ids: set<CommandId>, id: CommandId)
    ensures Stays(c, MarkTruncated(c, ids), id)
  {
    hide HasClaim;
    LogMarked(c.buffer, ids, id, []);
  }

  lemma UnconfirmStays(c: ClientState, x: CommandId, id: CommandId)
    ensures Stays(c, MarkUnconfirmed(c, x), id)
    ensures Marked(MarkUnconfirmed(c, x), id) <==> Marked(c, id)
  {
    hide HasClaim;
  }

  lemma BufferStays(c: ClientState, d: ClientState, id: CommandId)
    requires d == c.(buffer := d.buffer)
    requires Marked(c, id) && HasClaim(d.buffer, id) ==> HasClaim(c.buffer, id)
    ensures Stays(c, d, id)
  {
    hide HasClaim;
  }

  lemma EnqueueStays(c: ClientState, m: ClientMessage, id: CommandId)
    requires Claims(m, id) ==> !Marked(c, id)
    ensures Stays(c, Enqueue(c, m).0, id)
  {
    hide Stays, HasClaim, BufferedBytes, MarkTruncated, MarkMessages, Without, SameButBuffer;
    var i := FirstOutput(c.buffer, 0);
    MarkStays(c, if IsOutput(m) then {m.commandId} else {}, id);
    if IsOutput(m) || |c.buffer| < c.limits.messages || c.buffer == [] {
      PushStays(c, m, id);
      assert [] + [m] == [m];
    } else if i < |c.buffer| {
      EvictStays(c, m, i, id);
    } else {
      RotateStays(c, m, id);
    }
  }

  lemma PushStays(c: ClientState, m: ClientMessage, id: CommandId)
    requires Claims(m, id) ==> !Marked(c, id)
    ensures Stays(c, c.(buffer := c.buffer + [m]), id)
  {
    hide Stays, HasClaim;
    LogPush(c.buffer, m, id, []);
    BufferStays(c, c.(buffer := c.buffer + [m]), id);
  }

  lemma RotateStays(c: ClientState, m: ClientMessage, id: CommandId)
    requires c.buffer != [] && (Claims(m, id) ==> !Marked(c, id))
    ensures Stays(c, c.(buffer := Without(c.buffer, 0) + [m]), id)
  {
    hide Stays, HasClaim, Without;
    LogWithout(c.buffer, 0, id, []);
    LogPush(Without(c.buffer, 0), m, id, []);
    BufferStays(c, c.(buffer := Without(c.buffer, 0) + [m]), id);
  }

  lemma EvictStays(c: ClientState, m: ClientMessage, i: nat, id: CommandId)
    requires i < |c.buffer| && IsOutput(c.buffer[i]) && (Claims(m, id) ==> !Marked(c, id))
    ensures var ids := {c.buffer[i].commandId};
            var marked := MarkTruncated(c, ids);
            Stays(c, marked.(buffer := MarkMessages(Without(marked.buffer, i) + [m], ids)), id)
  {
    hide Stays, HasClaim, Without;
    var ids := {c.buffer[i].commandId};
    var marked := MarkTruncated(c, ids);
    var kept := Without(marked.buffer, i);
    MarkStays(c, ids, id);
    LogWithout(marked.buffer, i, id, []);
    LogPush(kept, m, id, []);
    LogMarked(kept + [m], ids, id, []);
    BufferStays(marked, marked.(buffer := MarkMessages(kept + [m], ids)), id);
    StaysTrans(c, marked, marked.(buffer := MarkMessages(kept + [m], ids)), id);
  }

  lemma SendStays(c: ClientState, d: ClientState, m: ClientMessage, id: CommandId)
    requires Claims(m, id) ==> !Marked(c, id)
    requires d == c.(sent := c.sent + [m], sendsLeft := d.sendsLeft, accepted := d.accepted)
    ensures Stays(c, d, id)
  {
    hide HasClaim;
  }

  /** Stays looks at neither the connection's state nor the history of messages. */
  lemma StaysFrame(c: ClientState, d: ClientState, id: CommandId)
    requires d == c.(authenticated := d.authenticated, socket := d.socket, sendsLeft := d.sendsLeft, accepted := d.accepted,
                     stopped := d.stopped, orphans := d.orphans)
    ensures Stays(c, d, id)
  {
    StaysSame(c, d, id);
  }

  lemma DeliverStays(c: ClientState, m: ClientMessage, id: CommandId)
    requires Claims(m, id) ==> !Marked(c, id)
    ensures Stays(c, Deliver(c, m).0, id)
  {
    hide Stays, Enqueue, Deliver, Noted, SameButWire, SameButBuffer;
    var d := Deliver(c, m).0;
    var c1 := Noted(c, m);
    NotedStays(c, m, id);
    if c1.authenticated && c1.socket == Open && c1.sendsLeft > 0 {
      DeliverSent(c, m);
      SendStays(c1, d, m, id);
    } else {
      DeliverBuffered(c, m);
      var c2 := if c1.authenticated && c1.socket == Open then c1.(authenticated := false) else c1;
      var c3 := Enqueue(c2, m).0;
      StaysFrame(c1, c2, id);
      EnqueueStays(c2, m, id);
      StaysFrame(c3, d, id);
      StaysTrans(c1, c2, c3, id);
      StaysTrans(c1, c3, d, id);
    }
    StaysTrans(c, c1, d, id);
  }

  lemma NotedStays(c: ClientState, m: ClientMessage, id: CommandId)
    ensures Stays(c, Noted(c, m), id) && (Marked(Noted(c, m), id) <==> Marked(c, id))
  {
    hide Stays;
    StaysFrame(c, c, id);
    if IsOutput(m) {
      UnconfirmStays(c, m.commandId, id);
    }
  }

  lemma {:induction false} FlushStays(c: ClientState, id: CommandId)
    ensures Stays(c, Flush(c), id)
    decreases |c.buffer|
  {
    hide Stays;
    StaysFrame(c, c, id);
    if c.authenticated && c.socket == Open && c.buffer != [] {
      if c.sendsLeft == 0 {
        StaysFrame(c, c.(authenticated := false), id);
      } else {
        var d := c.(sent := c.sent + [c.buffer[0]], sendsLeft := c.sendsLeft - 1, buffer := c.buffer[1..]);
        ShiftStays(c, d, id);
        FlushStays(d, id);
        StaysTrans(c, d, Flush(d), id);
      }
    }
  }

  lemma ShiftStays(c: ClientState, d: ClientState, id: CommandId)
    requires c.buffer != [] && d == c.(sent := c.sent + [c.buffer[0]], sendsLeft := d.sendsLeft, buffer := c.buffer[1..])
    ensures Stays(c, d, id)
  {
    hide HasClaim;
    LogShift(c.buffer, id, []);
  }

  /** Reporting a result: where the loss is journaled the result or the Client knows of it. */
  lemma ReportStays(c: ClientState, x: CommandId, result: CommandResult, id: CommandId)
    requires x == id && Marked(c, id) ==> result.outputTruncated || id in c.truncated
    ensures Stays(c, SendCompletion(c, x, result), id)
  {
    hide Stays, Deliver;
    DeliverStays(c, Completion(c, x, result), id);
  }

  lemma {:induction false} ReconcileStays(c: ClientState, entries: seq<(CommandId, CommandResult)>, id: CommandId)
    requires forall i | 0 <= i < |entries| && entries[i].0 == id && Marked(c, id) ::
               entries[i].1.outputTruncated || id in c.truncated
    ensures Stays(c, Reconcile(c, entries), id)
    decreases |entries|
  {
    hide Stays, SendCompletion, Marked;
    StaysFrame(c, c, id);
    if entries != [] {
      var d := SendCompletion(c, entries[0].0, entries[0].1);
      ReportStays(c, entries[0].0, entries[0].1, id);
      StaysMarks(c, d, id);
      assert forall i | 0 <= i < |entries[1..]| :: entries[1..][i] == entries[i + 1];
      ReconcileStays(d, entries[1..], id);
      StaysTrans(c, d, Reconcile(d, entries[1..]), id);
    }
  }

  lemma StaysMarks(c: ClientState, d: ClientState, id: CommandId)
    requires Stays(c, d, id)
    ensures Marked(c, id) ==> Marked(d, id)
    ensures id in c.truncated ==> id in d.truncated
    ensures Marked(d, id) && !Marked(c, id) ==> id in d.truncated
  {
  }

  lemma AuthenticatedStays(c: ClientState, id: CommandId)
    requires Agree(c, id)
    ensures Stays(c, ClientOutput.Authenticated(c), id) && ClientOutput.Authenticated(c).running == c.running
  {
    hide Stays, Flush, Reconcile, J.Results;
    var c1 := c.(authenticated := true);
    var d := Flush(c1);
    StaysFrame(c, c1, id);
    FlushStays(c1, id);
    StaysTrans(c, c1, d, id);
    FlushFades(c1);
    ResultsAreMarked(c.journal, c.journal.order, id);
    ReconcileStays(d, J.ResultsForReconciliation(d.journal), id);
    StaysTrans(c, d, ClientOutput.Authenticated(c), id);
  }

  lemma {:induction false} ResultsAreMarked(t: J.Table, ids: seq<CommandId>, id: CommandId)
    requires id in t.rows ==> J.RowOk(t.rows[id])
    ensures forall i | 0 <= i < |J.Results(t, ids)| && J.Results(t, ids)[i].0 == id ::
              id in t.rows && J.Results(t, ids)[i].1.outputTruncated == t.rows[id].truncated
  {
    if ids != [] {
      ResultsAreMarked(t, ids[1..], id);
    }
  }

  lemma TruncateExecutionStays(c: ClientState, x: CommandId, id: CommandId)
    requires x in c.running
    ensures Stays(c, TruncateExecution(c, x), id)
  {
    hide Stays, MarkTruncated;
    StaysFrame(c, c, id);
    if !c.running[x].truncated {
      var c1 := if x in c.truncated then c else MarkTruncated(c, {x});
      MarkStays(c, {x}, id);
        StaysSame(c1, TruncateExecution(c, x), id);
      StaysTrans(c, c1, TruncateExecution(c, x), id);
    }
  }

  lemma EmitChunkStays(c: ClientState, x: CommandId, chunk: Chunk, id: CommandId)
    requires x in c.running
    ensures Stays(c, EmitChunk(c, x, chunk).0, id)
  {
    hide Stays, Deliver, TruncateExecution;
    var m := CommandOutput(x, c.running[x].sequence, chunk);
    var (d, ok) := Deliver(c, m);
    var v := EmitChunk(c, x, chunk).0;
    DeliverStays(c, m, id);
    if ok {
        StaysSame(d, v, id);
    } else {
      TruncateExecutionStays(d, x, id);
    }
    StaysTrans(c, d, v, id);
  }

  lemma {:induction false} EmitChunksStays(c: ClientState, x: CommandId, stream: Stream, data: seq<Byte>, id: CommandId)
    requires x in c.running
    ensures Stays(c, EmitChunks(c, x, stream, data).0, id)
    decreases |data|
  {
    hide Stays, EmitChunk;
    StaysFrame(c, c, id);
    if data != [] {
      var chunk := NextChunk(stream, data);
      var (c1, ok) := EmitChunk(c, x, chunk);
      EmitChunkStays(c, x, chunk, id);
      if ok {
        EmitChunksStays(c1, x, stream, data[|chunk.data|..], id);
        StaysTrans(c, c1, EmitChunks(c1, x, stream, data[|chunk.data|..]).0, id);
      }
    }
  }

  lemma EmitStays(c: ClientState, x: CommandId, stream: Stream, data: seq<Byte>, id: CommandId)
    requires x in c.running
    ensures Stays(c, Emit(c, x, stream, data).0, id)
  {
    hide Stays, EmitChunks, TruncateExecution;
    var e := c.running[x];
    if x in c.truncated || e.truncated {
      StaysSame(c, Emit(c, x, stream, data).0, id);
    } else if e.limit <= e.outputBytes {
      TruncateExecutionStays(c, x, id);
    } else {
      var taken := Min(e.limit - e.outputBytes, |data|);
      var c1 := EmitChunks(c, x, stream, data[..taken]).0;
      EmitChunksStays(c, x, stream, data[..taken], id);
      TruncateExecutionStays(c1, x, id);
      StaysTrans(c, c1, TruncateExecution(c1, x), id);
    }
  }

  lemma LateStays(c: ClientState, x: CommandId, stream: Stream, data: seq<Byte>, id: CommandId)
    requires x in c.orphans
    ensures Stays(c, EmitLate(c, x, stream, data), id) && EmitLate(c, x, stream, data).running == c.running
  {
    hide Stays, Emit;
    var c1 := c.(running := c.running[x := c.orphans[x]]);
    var d1 := Emit(c1, x, stream, data).0;
    var d := EmitLate(c, x, stream, data);
    StaysSame(c, c1, id);
    EmitStays(c1, x, stream, data, id);
    StaysSame(d1, d, id);
    StaysTrans(c, c1, d1, id);
    StaysTrans(c, d1, d, id);
  }

  // ---------- Turns ----------

  /** A turn keeps the flag and says nothing against it; one that raises it raises it everywhere. */
  ghost predicate Holds(c: ClientState, d: ClientState, id: CommandId) {
    && (FlagHolds(c, id) ==> FlagHolds(d, id) && c.sent <= d.sent && QuietFrom(d.sent, |c.sent|, id))
    && (!Marked(c, id) && id !in c.truncated && Marked(d, id) && id in d.truncated ==> FlagHolds(d, id))
  }

  lemma StaysHolds(c: ClientState, d: ClientState, id: CommandId)
    requires Stays(c, d, id) && (id in d.running ==> id in c.running)
    ensures Holds(c, d, id)
  {
    hide HasClaim, QuietFrom;
  }

  /** A turn that first changes the Command's row or execution. */
  lemma ThenHolds(c: ClientState, c1: ClientState, d: ClientState, id: CommandId)
    requires c1.sent == c.sent && c1.buffer == c.buffer && c1.truncated == c.truncated
    requires FlagHolds(c, id) ==> FlagHolds(c1, id)
    requires Stays(c1, d, id) && (id in d.running ==> id in c1.running)
    ensures Holds(c, d, id)
  {
    hide HasClaim, QuietFrom;
  }

  lemma ShutdownStays(c: ClientState, id: CommandId)
    ensures Stays(c, Shutdown(c), id)
  {
    hide Stays, MarkTruncated;
    var c1 := MarkAllUnconfirmedTruncated(c);
    MarkStays(c, c.unconfirmed, id);
    StaysFrame(c1, Shutdown(c), id);
    StaysTrans(c, c1, Shutdown(c), id);
  }

  lemma FinishHolds(c: ClientState, x: CommandId, ending: Ending, id: CommandId)
    requires x in c.running && Agree(c, x) && (x == id ==> FlagHolds(c, id) || !Marked(c, id))
    ensures Holds(c, Finish(c, x, ending), id)
  {
    hide Stays, Deliver, Shutdown, Completion, HasClaim, Holds;
    var truncated := c.running[x].truncated || x in c.truncated;
    var result := FinalResult(ending, truncated);
    var c0 := c.(journal := J.Complete(c.journal, x, result));
    var e := SendCompletion(c0, x, result);
    var c2 := e.(running := e.running - {x});
    var d := Finish(c, x, ending);
    ReportStays(c0, x, result, id);
    StaysSame(e, c2, id);
    StaysTrans(c0, e, c2, id);
    if Unproved(ending) {
      ShutdownStays(c2, id);
      ShutdownStops(c2);
      StaysTrans(c0, c2, Shutdown(c2), id);
      StaysFrame(Shutdown(c2), d, id);
      StaysTrans(c0, Shutdown(c2), d, id);
    }
    ThenHolds(c, c0, d, id);
  }

  lemma StartHolds(c: ClientState, x: CommandId, admission: Option<string>, id: CommandId)
    requires Agree(c, id) && Agree(c, x)
    ensures Holds(c, Start(c, x, admission), id)
  {
    hide Stays, Deliver, SendCompletion, HasClaim, Holds;
    var (journal, receipt) := J.Receive(c.journal, x);
    var c1 := c.(journal := journal);
    if receipt == J.New {
      var limit := Min(DEFAULT_COMMAND_OUTPUT_BYTES, c.limits.commandBytes);
      var refused := CommandResult(Failed, None, Some(admission.GetOr(EXCEEDS_POLICY)), false);
      var c2 := c1.(journal := J.Complete(journal, x, refused));
      ReportStays(c2, x, refused, id);
      var c3 := c1.(running := c1.running[x := Execution(0, 0, false, limit)], journal := J.MarkRunning(journal, x));
      DeliverStays(c3, CommandStarted(x), id);
      ThenHolds(c, if admission.Some? || limit < 1 then c2 else c3, Start(c, x, admission), id);
    } else {
      var previous := J.ResultOf(journal, x);
      StaysFrame(c, c, id);
      if previous.Some? {
        ReportStays(c, x, previous.value, id);
      }
      StaysHolds(c, Start(c, x, admission), id);
    }
  }

  lemma CancelHolds(c: ClientState, x: CommandId, id: CommandId)
    requires Agree(c, id) && Agree(c, x)
    ensures Holds(c, Cancel(c, x), id)
  {
    hide Stays, Deliver, SendCompletion, HasClaim, Holds;
    StaysFrame(c, c, id);
    StaysHolds(c, c, id);
    if x !in c.running {
      var previous := J.ResultOf(c.journal, x);
      if previous.Some? {
        ReportStays(c, x, previous.value, id);
        StaysHolds(c, Cancel(c, x), id);
      } else {
        assert x !in c.journal.rows;
        var result := CommandResult(Cancelled, None, Some("Command was cancelled before execution started"), false);
        var c2 := c.(journal := J.Complete(J.Receive(c.journal, x).0, x, result));
        ReportStays(c2, x, result, id);
        ThenHolds(c, c2, Cancel(c, x), id);
      }
    }
  }

  /** What losing the connection or the process does. */
  ghost predicate SurvivesLoss(c: ClientState, d: ClientState, id: CommandId) {
    && d.sent == []
    && (FlagHolds(c, id) ==> FlagHolds(d, id))
    && (!Marked(c, id) && id !in c.truncated && Marked(d, id) ==> FlagHolds(d, id))
  }

  lemma CloseSurvives(c: ClientState, id: CommandId)
    ensures SurvivesLoss(c, CloseEvent(c), id)
  {
    hide HasClaim;
    LogMarked(c.buffer, c.unconfirmed, id, []);
  }

  lemma RestartSurvives(c: ClientState, id: CommandId)
    ensures SurvivesLoss(c, Restart(c), id)
  {
  }

  lemma TurnHolds(w: World, s: Step, id: CommandId)
    requires Enabled(w, s) && AllAgree(w.client) && ClientOnly(s) && s != ReceiveAcknowledged(id)
    requires FlagHolds(w.client, id) || !Marked(w.client, id)
    ensures Holds(w.client, Apply(w, s).client, id)
  {
    hide Stays, Holds, Start, Cancel, Emit, EmitLate, Finish, Shutdown, ClientOutput.Authenticated, Launches, Tag, HasClaim, AllAgree, FlagHolds;
    var (c, d) := (w.client, Apply(w, s).client);
    AgreeOne(c, id);
    match s {
      case ReceiveStart(x, admission) =>
        AgreeOne(c, x);
        StartHolds(c, x, admission, id);
      case ReceiveCancel(x) =>
        AgreeOne(c, x);
        CancelHolds(c, x, id);
      case ExecutionEnds(x, ending) =>
        AgreeOne(c, x);
        FinishHolds(c, x, ending, id);
      case ReceiveAcknowledged(x) =>
        StaysSame(c, d, id);
        StaysHolds(c, d, id);
      case ProcessOutput(x, stream, data) =>
        EmitStays(c, x, stream, data, id);
        StaysHolds(c, d, id);
      case LateOutput(life, stream, data) =>
        if life.id in c.orphans && life == Current(w, life.id) {
          LateStays(c, life.id, stream, data, id);
        } else {
          StaysFrame(c, c, id);
        }
        StaysHolds(c, d, id);
      case ReceiveAuthenticated =>
        AuthenticatedStays(c, id);
        StaysHolds(c, d, id);
      case Stop =>
        ShutdownStays(c, id);
        ShutdownStops(c);
        StaysHolds(c, d, id);
      case _ =>
        StaysFrame(c, d, id);
        StaysHolds(c, d, id);
    }
  }

  // ---------- Runs ----------

  /** Every message of `w`'s connection and of later ones that was sent after `w`. */
  ghost predicate NoClaimSince(w: World, v: World, id: CommandId) {
    && |w.past| <= |v.past|
    && (forall k | 0 <= k < |w.past| :: v.past[k].log == w.past[k].log)
    && w.client.sent <= LinkOf(v, |w.past|).log
    && QuietFrom(LinkOf(v, |w.past|).log, |w.client.sent|, id)
    && (forall k | |w.past| < k <= |v.past| :: QuietFrom(LinkOf(v, k).log, 0, id))
  }

  lemma StepHolds(w: World, s: Step, id: CommandId)
    requires Enabled(w, s) && AllAgree(w.client) && FlagHolds(w.client, id) && s != ReceiveAcknowledged(id)
    ensures FlagHolds(Apply(w, s).client, id) && NoClaimSince(w, Apply(w, s), id)
  {
    hide Start, Cancel, Emit, EmitLate, Finish, Shutdown, ClientOutput.Authenticated, CloseEvent, Restart, Handle, Launches, Tag, AllAgree, FlagHolds;
    var c := w.client;
    if ClientOnly(s) {
      TurnHolds(w, s, id);
    } else if s.SocketCloseEvent? {
      CloseSurvives(c, id);
    } else if s.CrashAndRestart? {
      RestartSurvives(c, id);
    }
  }

  lemma QuietTrans(w: World, u: World, v: World, id: CommandId)
    requires NoClaimSince(w, u, id) && NoClaimSince(u, v, id)
    ensures NoClaimSince(w, v, id)
  {
    hide Claims;
    forall k | |w.past| <= k <= |v.past|
      ensures QuietFrom(LinkOf(v, k).log, if k == |w.past| then |w.client.sent| else 0, id)
    {
      if k < |u.past| {
        assert LinkOf(v, k).log == LinkOf(u, k).log;
        assert k > |w.past| ==> QuietFrom(LinkOf(u, k).log, 0, id);
      } else if k == |u.past| {
        var (a, b) := (LinkOf(u, k).log, LinkOf(v, k).log);
        assert forall i | 0 <= i < |a| :: b[i] == a[i];
        assert QuietFrom(a, if k == |w.past| then |w.client.sent| else 0, id) && QuietFrom(b, |a|, id);
      }
    }
  }

  lemma {:induction false} RunHolds(w: World, steps: seq<Step>, id: CommandId)
    requires IsRun(w, steps) && AllAgree(w.client) && FlagHolds(w.client, id)
    requires forall i | 0 <= i < |steps| :: steps[i] != ReceiveAcknowledged(id)
    ensures FlagHolds(After(w, steps).client, id) && NoClaimSince(w, After(w, steps), id)
    ensures AllAgree(After(w, steps).client)
    decreases |steps|
  {
    hide Enabled, Apply, FlagHolds, NoClaimSince, AllAgree;
    if steps == [] {
      NothingSince(w, id);
    } else {
      assert steps[0] != ReceiveAcknowledged(id);
      StepHolds(w, steps[0], id);
      StepAllAgree(w, steps[0]);
      assert forall i | 0 <= i < |steps[1..]| :: steps[1..][i] == steps[i + 1];
      RunHolds(Apply(w, steps[0]), steps[1..], id);
      QuietTrans(w, Apply(w, steps[0]), After(w, steps), id);
    }
  }

  lemma NothingSince(w: World, id: CommandId)
    ensures NoClaimSince(w, w, id)
  {
  }

  /** The step loses output of the Command: its row was not flagged before, and is now. */
  predicate LosesOutput(w: World, s: Step, id: CommandId)
    requires Enabled(w, s)
  {
    var (c, d) := (w.client, Apply(w, s).client);
    && !Marked(c, id) && id !in c.truncated
    && Marked(d, id) && (id in d.truncated || s.CrashAndRestart?)
  }

  lemma LossIsTold(w: World, s: Step, id: CommandId)
    requires Enabled(w, s) && AllAgree(w.client) && LosesOutput(w, s, id)
    ensures FlagHolds(Apply(w, s).client, id)
  {
    hide Start, Cancel, Emit, EmitLate, Finish, Shutdown, ClientOutput.Authenticated, CloseEvent, Restart, Handle, Launches, Tag, AllAgree, FlagHolds, Marked;
    var c := w.client;
    if s == ReceiveAcknowledged(id) {
      NothingRaised(c, id);
    } else if ClientOnly(s) {
      TurnHolds(w, s, id);
    } else if s.SocketCloseEvent? {
      CloseSurvives(c, id);
    } else if s.CrashAndRestart? {
      RestartSurvives(c, id);
    }
  }

  lemma NothingRaised(c: ClientState, id: CommandId)
    ensures id !in Acknowledged(c, id).truncated
  {
  }

  /** From the step that loses output of a Command until its acknowledgement, over every run
      and whatever the Server decides meanwhile: the journal says so, no message the Client
      puts on any connection claims complete output, and neither will the completion the
      Client would send of it, now or when its execution ends. */
  lemma DiscardsStayFlagged(w: World, s: Step, steps: seq<Step>, id: CommandId, ending: Ending)
    requires Reachable(w) && Enabled(w, s) && LosesOutput(w, s, id) && IsRun(Apply(w, s), steps)
    requires forall i | 0 <= i < |steps| :: steps[i] != ReceiveAcknowledged(id)
    ensures var c := After(Apply(w, s), steps).client;
            && Marked(c, id) && !HasClaim(c.buffer, id)
            && NoClaimSince(Apply(w, s), After(Apply(w, s), steps), id)
            && (id in c.running ==>
                  Completion(c, id, FinalResult(ending, c.running[id].truncated || id in c.truncated)).result.outputTruncated)
            && (id !in c.running ==>
                  J.ResultOf(c.journal, id).Some? &&
                  Completion(c, id, J.ResultOf(c.journal, id).value).result.outputTruncated)
  {
    hide Reachable, Enabled, Apply, LosesOutput, NoClaimSince, HasClaim;
    ReachableAgrees(w);
    LossIsTold(w, s, id);
    StepAllAgree(w, s);
    RunHolds(Apply(w, s), steps, id);
    AgreeOne(After(Apply(w, s), steps).client, id);
  }

  lemma ReachableAgrees(w: World)
    requires Reachable(w)
    ensures AllAgree(w.client)
  {
    hide CommandTracks, AllAgree;
    ReachableInvariant(w);
  }
}
