/** What sending, buffering and emitting may do to the journal: raise truncation flags and
    mark output unconfirmed, and nothing else. */
module JournalFading {
  import opened Wire
  import opened ClientOutput
  import J = Journal

  predicate FadesRow(before: J.Row, after: J.Row) {
    && after.state == before.state
    && (before.result.Some? <==> after.result.Some?)
    && (before.result.Some? ==> J.SameOutcome(before.result.value, after.result.value))
    && (before.truncated ==> after.truncated)
    && (before.unconfirmed ==> after.unconfirmed || after.truncated)
    && (J.RowOk(before) ==> J.RowOk(after))
  }

  ghost predicate Fades(t: J.Table, u: J.Table) {
    && u.order == t.order && u.rows.Keys == t.rows.Keys
    && (forall id | id in t.rows :: FadesRow(t.rows[id], u.rows[id]))
  }

  lemma FadesTrans(a: J.Table, b: J.Table, c: J.Table)
    requires Fades(a, b) && Fades(b, c)
    ensures Fades(a, c)
  {
    forall id | id in a.rows
      ensures FadesRow(a.rows[id], c.rows[id])
    {
      assert FadesRow(a.rows[id], b.rows[id]) && FadesRow(b.rows[id], c.rows[id]);
    }
  }

  lemma MarkFades(c: ClientState, ids: set<CommandId>)
    ensures Fades(c.journal, MarkTruncated(c, ids).journal)
  {
  }

  lemma UnconfirmFades(c: ClientState, id: CommandId)
    ensures Fades(c.journal, MarkUnconfirmed(c, id).journal)
  {
  }

  lemma EnqueueFades(c: ClientState, m: ClientMessage)
    ensures Fades(c.journal, Enqueue(c, m).0.journal)
  {
    hide Fades, J.TruncateRows, BufferedBytes, MarkMessages, Without;
    var i := FirstOutput(c.buffer, 0);
    if IsOutput(m) {
      MarkFades(c, {m.commandId});
    } else if i < |c.buffer| {
      MarkFades(c, {c.buffer[i].commandId});
    }
    NothingFades(c.journal);
  }

  lemma NothingFades(t: J.Table)
    ensures Fades(t, t)
  {
  }

  lemma DeliverFades(c: ClientState, m: ClientMessage)
    ensures Fades(c.journal, Deliver(c, m).0.journal)
  {
    hide Fades, Enqueue, J.MarkUnconfirmed;
    NothingFades(c.journal);
    var c1 := if IsOutput(m) then MarkUnconfirmed(c, m.commandId) else c;
    if IsOutput(m) {
      UnconfirmFades(c, m.commandId);
    }
    var c2 := if c1.authenticated && c1.socket == Open then c1.(authenticated := false) else c1;
    EnqueueFades(c2, m);
    FadesTrans(c.journal, c1.journal, Enqueue(c2, m).0.journal);
  }

  lemma TruncateFades(c: ClientState, id: CommandId)
    requires id in c.running
    ensures Fades(c.journal, TruncateExecution(c, id).journal)
  {
    hide Fades, MarkTruncated;
    MarkFades(c, {id});
    NothingFades(c.journal);
  }

  lemma EmitChunkFades(c: ClientState, id: CommandId, chunk: Chunk)
    requires id in c.running
    ensures Fades(c.journal, EmitChunk(c, id, chunk).0.journal)
  {
    hide Fades, Deliver, TruncateExecution;
    var m := CommandOutput(id, c.running[id].sequence, chunk);
    var d := Deliver(c, m).0;
    DeliverFades(c, m);
    TruncateFades(d, id);
    FadesTrans(c.journal, d.journal, TruncateExecution(d, id).journal);
  }

  lemma {:induction false} EmitChunksFades(c: ClientState, id: CommandId, stream: Stream, data: seq<Byte>)
    requires id in c.running
    ensures Fades(c.journal, EmitChunks(c, id, stream, data).0.journal)
    decreases |data|
  {
    hide Fades, EmitChunk;
    if data == [] {
      NothingFades(c.journal);
    } else {
      var chunk := NextChunk(stream, data);
      EmitChunkFades(c, id, chunk);
      var (c1, ok) := EmitChunk(c, id, chunk);
      if ok {
        EmitChunksFades(c1, id, stream, data[|chunk.data|..]);
        FadesTrans(c.journal, c1.journal, EmitChunks(c1, id, stream, data[|chunk.data|..]).0.journal);
      }
    }
  }

  lemma EmitFades(c: ClientState, id: CommandId, stream: Stream, data: seq<Byte>)
    requires id in c.running
    ensures Fades(c.journal, Emit(c, id, stream, data).0.journal)
  {
    hide Fades, EmitChunks, TruncateExecution;
    NothingFades(c.journal);
    TruncateFades(c, id);
    var e := c.running[id];
    if !(id in c.truncated || e.truncated || e.limit <= e.outputBytes) {
      var taken := Min(e.limit - e.outputBytes, |data|);
      var c1 := EmitChunks(c, id, stream, data[..taken]).0;
      EmitChunksFades(c, id, stream, data[..taken]);
      TruncateFades(c1, id);
      FadesTrans(c.journal, c1.journal, TruncateExecution(c1, id).journal);
    }
  }

  lemma LateFades(c: ClientState, id: CommandId, stream: Stream, data: seq<Byte>)
    requires id in c.orphans
    ensures Fades(c.journal, EmitLate(c, id, stream, data).journal)
  {
    hide Fades, Emit;
    EmitFades(c.(running := c.running[id := c.orphans[id]]), id, stream, data);
  }

  lemma ReportFades(c: ClientState, id: CommandId, result: CommandResult)
    ensures Fades(c.journal, SendCompletion(c, id, result).journal)
  {
    hide Deliver;
    DeliverFades(c, Completion(c, id, result));
  }

  lemma {:induction false} ReconcileFades(c: ClientState, entries: seq<(CommandId, CommandResult)>)
    ensures Fades(c.journal, Reconcile(c, entries).journal)
    decreases |entries|
  {
    hide Fades, SendCompletion;
    if entries == [] {
      NothingFades(c.journal);
    } else {
      var d := SendCompletion(c, entries[0].0, entries[0].1);
      ReportFades(c, entries[0].0, entries[0].1);
      ReconcileFades(d, entries[1..]);
      FadesTrans(c.journal, d.journal, Reconcile(d, entries[1..]).journal);
    }
  }

  lemma {:induction false} FlushFades(c: ClientState)
    ensures Flush(c).journal == c.journal
    decreases |c.buffer|
  {
    if c.authenticated && c.socket == Open && c.buffer != [] && c.sendsLeft > 0 {
      FlushFades(c.(sent := c.sent + [c.buffer[0]], sendsLeft := c.sendsLeft - 1, buffer := c.buffer[1..]));
    }
  }

  lemma AuthenticatedFades(c: ClientState)
    ensures Fades(c.journal, ClientOutput.Authenticated(c).journal)
  {
    hide Fades, Flush, Reconcile;
    var d := Flush(c.(authenticated := true));
    FlushFades(c.(authenticated := true));
    ReconcileFades(d, J.ResultsForReconciliation(d.journal));
  }

  lemma ShutdownFades(c: ClientState)
    ensures Fades(c.journal, Shutdown(c).journal)
  {
    hide Fades;
    MarkFades(c, c.unconfirmed);
  }

  // ---------- The index of the table ----------

  lemma IndexFades(t: J.Table, u: J.Table)
    requires J.TableOk(t) && Fades(t, u)
    ensures J.TableOk(u)
  {
    forall id | id in u.rows
      ensures J.RowOk(u.rows[id])
    {
      assert FadesRow(t.rows[id], u.rows[id]) && J.RowOk(t.rows[id]);
    }
  }
}
