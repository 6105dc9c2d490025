/** What holds of one Command on a Client that has stopped.  Nothing is sent any more, so
    the buffer does not matter: output of processes that are still there may arrive in any
    state of their Command, and can only lower what the journal vouches for. */
module HaltedTracking {
  import opened Wire
  import opened ClientOutput
  import opened OutputLogs
  import opened OutputProtocol
  import opened JournalFading
  import opened ClientProgress
  import opened ClientTracking
  import J = Journal

  ghost predicate OutputsHaveRow(c: ClientState, id: CommandId) {
    forall i | 0 <= i < |c.buffer| && OutputOf(c.buffer[i], id) :: id in c.journal.rows
  }

  ghost predicate SentHalts(c: ClientState, id: CommandId, h: Ledger) {
    && h.floor <= |h.emitted|
    && Genuine(c.sent, id, h.emitted)
    && Increasing(Sequences(c.sent, id)) && AtLeast(Sequences(c.sent, id), h.floor)
    && (HasClaim(c.sent, id) ==>
          && Finished(c, id)
          && Flatten(h.emitted) == h.produced
          && Sequences(c.sent, id) == Numbers(|h.emitted|))
    && ClaimsLast(c.sent, id)
  }

  /** Tracking without the buffer. */
  ghost predicate Halted(c: ClientState, id: CommandId, h: Ledger) {
    && WithinLimits(h.emitted)
    && SentHalts(c, id, h)
    && OutputsHaveRow(c, id)
    && (if id in c.journal.rows then RowTracks(c, id, h)
        else
          && h == LedgerOf(NO_HISTORY, h.floor) && !HasCompletion(c.sent, id)
          && id !in c.unconfirmed && id !in c.truncated && id !in c.running)
    && (Clean(c, id) ==> Flatten(h.emitted) == h.produced && (h.emitted != [] ==> id in c.unconfirmed))
  }

  /** What is tracked of a Command, on a Client that runs or has stopped. */
  ghost predicate Follows(c: ClientState, id: CommandId, h: Ledger) {
    if c.stopped then Halted(c, id, h) else Tracks(c, id, h)
  }

  lemma AtLeastPrefix(s: seq<nat>, b: seq<nat>, low: nat)
    requires AtLeast(s + b, low)
    ensures AtLeast(s, low)
  {
    assert forall i | 0 <= i < |s| :: s[i] == (s + b)[i];
  }

  lemma TracksHalted(c: ClientState, id: CommandId, h: Ledger)
    requires Tracks(c, id, h)
    ensures Halted(c, id, h)
  {
    hide Sequences, Genuine, Increasing, AtLeast, OutputsHaveRow, HasClaim, HasCompletion, ClaimsLast, Flatten, ByteCount, WithinLimits, RowTracks;
    FloorRises(c, id, h);
    AtLeastPrefix(Sequences(c.sent, id), Sequences(c.buffer, id), h.floor);
    assert OutputsHaveRow(c, id) by { TracksOutputs(c, id, h); }
    if HasClaim(c.sent, id) {
      assert Sequences(c.sent, id) + [] == Sequences(c.sent, id);
    }
  }

  lemma TracksOutputs(c: ClientState, id: CommandId, h: Ledger)
    requires Tracks(c, id, h)
    ensures OutputsHaveRow(c, id)
  {
    hide Tracks;
    forall i | 0 <= i < |c.buffer| && OutputOf(c.buffer[i], id)
      ensures id in c.journal.rows
    {
      OutputHasRow(c, i, id, h);
    }
  }

  lemma FollowsHalted(c: ClientState, id: CommandId, h: Ledger)
    requires Follows(c, id, h)
    ensures Halted(c, id, h)
  {
    hide Halted, Tracks;
    if !c.stopped {
      TracksHalted(c, id, h);
    }
  }

  // ---------- Losing confidence ----------

  /** From `c` to `d` nothing was sent and the Command only lost confidence. */
  ghost predicate Dims(c: ClientState, d: ClientState, id: CommandId) {
    && d.sent == c.sent && Fades(c.journal, d.journal)
    && (id in c.truncated ==> id in d.truncated)
    && (id in d.truncated && id !in c.truncated ==> id in d.journal.rows && d.journal.rows[id].truncated)
    && (id in c.journal.rows && d.journal.rows[id].truncated && !c.journal.rows[id].truncated ==> id in d.truncated)
    && (id in c.unconfirmed ==> id in d.unconfirmed || (id in d.journal.rows && d.journal.rows[id].truncated))
    && (id in d.unconfirmed && id !in c.unconfirmed ==>
          id in d.journal.rows && (d.journal.rows[id].truncated || d.journal.rows[id].unconfirmed))
    && (OutputsHaveRow(c, id) ==> OutputsHaveRow(d, id))
  }

  lemma DimsTrans(a: ClientState, b: ClientState, c: ClientState, id: CommandId)
    requires Dims(a, b, id) && Dims(b, c, id)
    ensures Dims(a, c, id)
  {
    hide OutputsHaveRow;
    FadesTrans(a.journal, b.journal, c.journal);
    if id in a.journal.rows {
      assert FadesRow(a.journal.rows[id], b.journal.rows[id]) && FadesRow(b.journal.rows[id], c.journal.rows[id]);
    }
  }

  lemma HaltedDims(c: ClientState, d: ClientState, id: CommandId, h: Ledger)
    requires Halted(c, id, h) && Dims(c, d, id)
    requires (id in d.running <==> id in c.running) && (id in c.running ==> d.running[id] == c.running[id])
    ensures Halted(d, id, h)
  {
    hide OutputsHaveRow, WithinLimits, Genuine, Sequences, Increasing, AtLeast, HasClaim, HasCompletion, ClaimsLast, Flatten, ByteCount;
    if id in c.journal.rows {
      assert FadesRow(c.journal.rows[id], d.journal.rows[id]);
    }
  }

  /** Dimming looks at neither executions nor the connection's state. */
  lemma DimsFrame(c: ClientState, d: ClientState, id: CommandId)
    requires d.journal == c.journal && d.buffer == c.buffer && d.sent == c.sent
    requires d.truncated == c.truncated && d.unconfirmed == c.unconfirmed
    ensures Dims(c, d, id)
  {
    NothingFades(c.journal);
  }

  lemma MarkDims(c: ClientState, ids: set<CommandId>, id: CommandId)
    requires id in ids ==> id in c.journal.rows
    ensures Dims(c, MarkTruncated(c, ids), id)
  {
    MarkFades(c, ids);
  }

  lemma UnconfirmDims(c: ClientState, x: CommandId, id: CommandId)
    requires x == id ==> id in c.journal.rows
    ensures Dims(c, MarkUnconfirmed(c, x), id)
  {
    UnconfirmFades(c, x);
  }

  /** Leaving a buffered message out, or adding one. */
  lemma BufferDims(c: ClientState, d: ClientState, id: CommandId)
    requires d == c.(buffer := d.buffer)
    requires forall i | 0 <= i < |d.buffer| && OutputOf(d.buffer[i], id) ::
               id in c.journal.rows || exists j :: 0 <= j < |c.buffer| && OutputOf(c.buffer[j], id)
    ensures Dims(c, d, id)
  {
    NothingFades(c.journal);
  }

  lemma EnqueueDims(c: ClientState, m: ClientMessage, id: CommandId)
    requires OutputsHaveRow(c, id) && (OutputOf(m, id) ==> id in c.journal.rows)
    ensures Dims(c, Enqueue(c, m).0, id)
  {
    hide Dims, J.TruncateRows, BufferedBytes;
    var d := Enqueue(c, m).0;
    if IsOutput(m) && (BufferedBytes(c.buffer) + OutputBytes(m) > c.limits.bytes || |c.buffer| >= c.limits.messages) {
      MarkDims(c, {m.commandId}, id);
    } else if |c.buffer| >= c.limits.messages && c.buffer != [] {
      var i := FirstOutput(c.buffer, 0);
      if i < |c.buffer| {
        var ids := {c.buffer[i].commandId};
        var marked := MarkTruncated(c, ids);
        assert id in ids ==> OutputOf(c.buffer[i], id);
        MarkDims(c, ids, id);
        BufferDims(marked, d, id);
        DimsTrans(c, marked, d, id);
      } else {
        BufferDims(c, d, id);
      }
    } else {
      BufferDims(c, d, id);
    }
  }

  /** Delivering without a connection. */
  lemma DeliverDims(c: ClientState, m: ClientMessage, id: CommandId)
    requires !c.authenticated && OutputsHaveRow(c, id) && (OutputOf(m, id) ==> id in c.journal.rows)
    ensures Dims(c, Deliver(c, m).0, id)
  {
    hide Deliver, Enqueue, Dims, MarkUnconfirmed, Fades;
    var c1 := Noted(c, m);
    assert Dims(c, c1, id) && !c1.authenticated && c1.buffer == c.buffer && c1.journal.rows.Keys == c.journal.rows.Keys by {
      NotedDims(c, m, id);
    }
    DeliverBuffered(c, m);
    EnqueueDims(c1, m, id);
    DimsTrans(c, c1, Enqueue(c1, m).0, id);
    DimsFrame(Enqueue(c1, m).0, Deliver(c, m).0, id);
    DimsTrans(c, Enqueue(c1, m).0, Deliver(c, m).0, id);
  }

  lemma NotedDims(c: ClientState, m: ClientMessage, id: CommandId)
    requires OutputOf(m, id) ==> id in c.journal.rows
    ensures Dims(c, Noted(c, m), id)
    ensures var c1 := Noted(c, m);
            c1.authenticated == c.authenticated && c1.buffer == c.buffer && c1.journal.rows.Keys == c.journal.rows.Keys
  {
    DimsFrame(c, c, id);
    if IsOutput(m) {
      UnconfirmDims(c, m.commandId, id);
    }
  }

  lemma TruncateDims(c: ClientState, x: CommandId, id: CommandId)
    requires x in c.running && (x == id ==> id in c.journal.rows)
    ensures Dims(c, TruncateExecution(c, x), id)
  {
    hide Dims, MarkTruncated;
    DimsFrame(c, c, id);
    MarkDims(c, {x}, id);
    if !c.running[x].truncated {
      var c1 := if x in c.truncated then c else MarkTruncated(c, {x});
      DimsFrame(c1, TruncateExecution(c, x), id);
      DimsTrans(c, c1, TruncateExecution(c, x), id);
    }
  }

  lemma EmitChunkDims(c: ClientState, x: CommandId, chunk: Chunk, id: CommandId)
    requires !c.authenticated && x in c.running && OutputsHaveRow(c, id) && (x == id ==> id in c.journal.rows)
    ensures Dims(c, EmitChunk(c, x, chunk).0, id)
  {
    hide Dims, Deliver, TruncateExecution;
    var m := CommandOutput(x, c.running[x].sequence, chunk);
    var (d, ok) := Deliver(c, m);
    var v := EmitChunk(c, x, chunk).0;
    DeliverDims(c, m, id);
    if ok {
      DimsFrame(d, v, id);
    } else {
      assert id in c.journal.rows ==> id in d.journal.rows by { DimsRows(c, d, id); }
      TruncateDims(d, x, id);
    }
    DimsTrans(c, d, v, id);
  }

  lemma DimsRows(c: ClientState, d: ClientState, id: CommandId)
    requires Dims(c, d, id)
    ensures id in c.journal.rows <==> id in d.journal.rows
    ensures OutputsHaveRow(c, id) ==> OutputsHaveRow(d, id)
  {
  }

  lemma {:induction false} EmitChunksDims(c: ClientState, x: CommandId, stream: Stream, data: seq<Byte>, id: CommandId)
    requires !c.authenticated && x in c.running && OutputsHaveRow(c, id) && (x == id ==> id in c.journal.rows)
    ensures Dims(c, EmitChunks(c, x, stream, data).0, id)
    decreases |data|
  {
    hide Dims, EmitChunk, OutputsHaveRow;
    if data == [] {
      DimsFrame(c, c, id);
    } else {
      var chunk := NextChunk(stream, data);
      var (c1, ok) := EmitChunk(c, x, chunk);
      EmitChunkDims(c, x, chunk, id);
      if ok {
        DimsRows(c, c1, id);
        EmitChunksDims(c1, x, stream, data[|chunk.data|..], id);
        DimsTrans(c, c1, EmitChunks(c1, x, stream, data[|chunk.data|..]).0, id);
      }
    }
  }

  lemma EmitDims(c: ClientState, x: CommandId, stream: Stream, data: seq<Byte>, id: CommandId)
    requires !c.authenticated && x in c.running && OutputsHaveRow(c, id) && (x == id ==> id in c.journal.rows)
    ensures Dims(c, Emit(c, x, stream, data).0, id)
  {
    hide Dims, EmitChunks, TruncateExecution, OutputsHaveRow;
    var e := c.running[x];
    if x in c.truncated || e.truncated {
      DimsFrame(c, Emit(c, x, stream, data).0, id);
    } else if e.limit <= e.outputBytes {
      TruncateDims(c, x, id);
    } else {
      var taken := Min(e.limit - e.outputBytes, |data|);
      var c1 := EmitChunks(c, x, stream, data[..taken]).0;
      EmitChunksDims(c, x, stream, data[..taken], id);
      DimsRows(c, c1, id);
      TruncateDims(c1, x, id);
      DimsTrans(c, c1, TruncateExecution(c1, x), id);
    }
  }

  lemma ShutdownDims(c: ClientState, id: CommandId)
    requires id in c.unconfirmed ==> id in c.journal.rows
    ensures Dims(c, Shutdown(c), id)
  {
    hide Dims, MarkTruncated;
    MarkDims(c, c.unconfirmed, id);
    DimsFrame(MarkAllUnconfirmedTruncated(c), Shutdown(c), id);
    DimsTrans(c, MarkAllUnconfirmedTruncated(c), Shutdown(c), id);
  }

  // ---------- Turns of a stopped Client ----------

  /** Output of another Command, or of one that has ended. */
  lemma EmitOtherHalts(c: ClientState, x: CommandId, stream: Stream, data: seq<Byte>, id: CommandId, h: Ledger)
    requires Halted(c, id, h) && !c.authenticated && x in c.running && x != id
    ensures Halted(Emit(c, x, stream, data).0, id, h)
  {
    hide Halted, Dims, Emit;
    assert OutputsHaveRow(c, id) by { HaltedOutputs(c, id, h); }
    EmitDims(c, x, stream, data, id);
    EmitRunning(c, x, stream, data, id);
    HaltedDims(c, Emit(c, x, stream, data).0, id, h);
  }

  lemma HaltedOutputs(c: ClientState, id: CommandId, h: Ledger)
    requires Halted(c, id, h)
    ensures OutputsHaveRow(c, id) && (id in c.unconfirmed ==> id in c.journal.rows) && (id in c.running ==> id in c.journal.rows)
  {
  }

  lemma {:induction false} EmitChunksRunning(c: ClientState, x: CommandId, stream: Stream, data: seq<Byte>, id: CommandId)
    requires x in c.running && id in c.running && x != id
    ensures EmitChunks(c, x, stream, data).0.running[id] == c.running[id]
    decreases |data|
  {
    hide Deliver, MarkMessages, J.TruncateRows;
    if data != [] {
      var chunk := NextChunk(stream, data);
      var (c1, ok) := EmitChunk(c, x, chunk);
      if ok {
        EmitChunksRunning(c1, x, stream, data[|chunk.data|..], id);
      }
    }
  }

  lemma EmitRunning(c: ClientState, x: CommandId, stream: Stream, data: seq<Byte>, id: CommandId)
    requires x in c.running && x != id
    ensures var d := Emit(c, x, stream, data).0;
            (id in d.running <==> id in c.running) && (id in c.running ==> d.running[id] == c.running[id])
  {
    hide EmitChunks, MarkMessages, J.TruncateRows;
    var e := c.running[x];
    if id in c.running && !(x in c.truncated || e.truncated || e.limit <= e.outputBytes) {
      EmitChunksRunning(c, x, stream, data[..Min(e.limit - e.outputBytes, |data|)], id);
    }
  }

  lemma LateHalts(c: ClientState, x: CommandId, stream: Stream, data: seq<Byte>, id: CommandId, h: Ledger)
    requires Halted(c, id, h) && !c.authenticated && x in c.orphans && x in c.journal.rows
    ensures Halted(EmitLate(c, x, stream, data), id, h)
  {
    hide Halted, Dims, Emit, OutputsHaveRow;
    var c1 := c.(running := c.running[x := c.orphans[x]]);
    var d1 := Emit(c1, x, stream, data).0;
    var d := EmitLate(c, x, stream, data);
    HaltedOutputs(c, id, h);
    DimsFrame(c, c1, id);
    DimsRows(c, c1, id);
    EmitDims(c1, x, stream, data, id);
    DimsTrans(c, c1, d1, id);
    DimsFrame(d1, d, id);
    DimsTrans(c, d1, d, id);
    HaltedDims(c, d, id, h);
  }

  /** What a loop of `emit` counts: one number and its bytes for each chunk. */
  ghost predicate Counts(e: Execution, f: Execution, chunks: seq<Chunk>) {
    && f.sequence == e.sequence + |chunks|
    && f.outputBytes == e.outputBytes + ByteCount(chunks)
    && f.limit == e.limit
    && (forall i | 0 <= i < |chunks| :: 0 < |chunks[i].data| <= CHUNK_BYTES)
  }

  lemma CountsMore(e: Execution, f: Execution, g: Execution, chunk: Chunk, rest: seq<Chunk>)
    requires Counts(f, g, rest) && 0 < |chunk.data| <= CHUNK_BYTES
    requires f.sequence == e.sequence + 1 && f.outputBytes == e.outputBytes + |chunk.data| && f.limit == e.limit
    ensures Counts(e, g, [chunk] + rest)
  {
    FirstChunk(chunk, rest);
  }

  lemma FirstChunk(chunk: Chunk, rest: seq<Chunk>)
    ensures ByteCount([chunk] + rest) == |chunk.data| + ByteCount(rest)
    ensures Flatten([chunk] + rest) == Tag(chunk.stream, chunk.data) + Flatten(rest)
  {
    hide Flatten, ByteCount;
    NothingFlattens();
    FlattenPush([], chunk);
    assert [] + [chunk] == [chunk];
    FlattenConcat([chunk], rest);
  }

  /** The row exists and nothing of the Command was lost. */
  lemma {:induction false} EmitChunksCounts(c: ClientState, id: CommandId, stream: Stream, data: seq<Byte>)
    requires !c.authenticated && id in c.running && id in c.journal.rows && OutputsHaveRow(c, id)
    ensures var (d, chunks) := EmitChunks(c, id, stream, data);
            && Counts(c.running[id], d.running[id], chunks)
            && ByteCount(chunks) <= |data|
            && (d.running[id].truncated ==> c.running[id].truncated || id in d.truncated)
            && (Clean(d, id) ==> Flatten(chunks) == Tag(stream, data) && (chunks != [] ==> id in d.unconfirmed))
    decreases |data|
  {
    hide EmitChunk, OutputsHaveRow, Dims, Flatten, ByteCount, Counts;
    if data == [] {
      assert Counts(c.running[id], c.running[id], []) && Flatten([]) == [] && ByteCount([]) == 0 by { NoChunks(c.running[id]); }
      assert Tag(stream, []) == [];
    } else {
      var chunk := NextChunk(stream, data);
      var n := |chunk.data|;
      var (c1, ok) := EmitChunk(c, id, chunk);
      EmitChunkDims(c, id, chunk, id);
      DimsRows(c, c1, id);
      EmitChunkCounts(c, id, chunk);
      if ok {
        var (d, rest) := EmitChunks(c1, id, stream, data[n..]);
        EmitChunksCounts(c1, id, stream, data[n..]);
        EmitChunksDims(c1, id, stream, data[n..], id);
        CountsMore(c.running[id], c1.running[id], d.running[id], chunk, rest);
        FirstChunk(chunk, rest);
        TagSplit(stream, data, n);
        assert Clean(d, id) ==> id in d.unconfirmed by { StaysUnconfirmed(c1, d, id); }
        assert c1.running[id].truncated ==> c.running[id].truncated;
      } else {
        assert Counts(c.running[id], c1.running[id], []) && ByteCount([]) == 0 by { NoChunks(c.running[id]); SameMeter(c.running[id], c1.running[id]); }
      }
    }
  }

  lemma NoChunks(e: Execution)
    ensures Counts(e, e, []) && Flatten([]) == [] && ByteCount([]) == 0
  {
  }

  lemma SameMeter(e: Execution, f: Execution)
    requires f == e.(truncated := f.truncated)
    ensures Counts(e, f, [])
  {
  }

  lemma StaysUnconfirmed(c: ClientState, d: ClientState, id: CommandId)
    requires Dims(c, d, id) && (Clean(c, id) ==> id in c.unconfirmed)
    ensures Clean(d, id) ==> id in d.unconfirmed
  {
    assert id in c.journal.rows ==> FadesRow(c.journal.rows[id], d.journal.rows[id]);
  }

  lemma EmitChunkCounts(c: ClientState, id: CommandId, chunk: Chunk)
    requires !c.authenticated && id in c.running && id in c.journal.rows
    ensures var (d, ok) := EmitChunk(c, id, chunk);
            var (e, f) := (c.running[id], d.running[id]);
            && (ok ==> f == e.(sequence := e.sequence + 1, outputBytes := e.outputBytes + |chunk.data|)
                       && (Clean(d, id) ==> id in d.unconfirmed))
            && (!ok ==> f == e.(truncated := true) && id in d.truncated && !Clean(d, id))
  {
    hide Enqueue, Deliver, Fades, J.MarkUnconfirmed;
    var m := CommandOutput(id, c.running[id].sequence, chunk);
    RejectedIsFlagged(c, m);
  }

  /** An output that is not sent is buffered as unconfirmed, or rejected and flagged. */
  lemma RejectedIsFlagged(c: ClientState, m: ClientMessage)
    requires m.CommandOutput? && !c.authenticated && m.commandId in c.journal.rows
    ensures var ((d, ok), id) := (Deliver(c, m), m.commandId);
            && id in d.journal.rows
            && (ok ==> id in d.unconfirmed)
            && (!ok ==> id in d.truncated && !Clean(d, id))
  {
    hide BufferedBytes, MarkMessages;
  }

  lemma EmitCounts(c: ClientState, id: CommandId, stream: Stream, data: seq<Byte>)
    requires !c.authenticated && id in c.running && id in c.journal.rows && OutputsHaveRow(c, id)
    requires (id in c.truncated || c.running[id].truncated) ==> !Clean(c, id)
    requires c.running[id].outputBytes <= c.running[id].limit
    ensures var (d, chunks) := Emit(c, id, stream, data);
            && Counts(c.running[id], d.running[id], chunks)
            && d.running[id].outputBytes <= d.running[id].limit
            && (d.running[id].truncated ==> c.running[id].truncated || id in d.truncated)
            && (Clean(d, id) ==> Flatten(chunks) == Tag(stream, data) && (chunks != [] ==> id in d.unconfirmed))
  {
    hide EmitChunks, OutputsHaveRow, Dims, Flatten, ByteCount, Counts, MarkMessages, J.TruncateRow;
    var e := c.running[id];
    NoChunks(e);
    if id in c.truncated || e.truncated {
      SameMeter(e, e.(truncated := true));
    } else if e.limit <= e.outputBytes {
      SameMeter(e, e.(truncated := true));
      TruncatedIsFlagged(c, id);
    } else {
      var taken := Min(e.limit - e.outputBytes, |data|);
      var (c1, chunks) := EmitChunks(c, id, stream, data[..taken]);
      EmitChunksCounts(c, id, stream, data[..taken]);
      EmitChunksDims(c, id, stream, data[..taken], id);
      DimsRows(c, c1, id);
      assert c1.running[id].outputBytes <= e.limit == c1.running[id].limit by { MeterOf(e, c1.running[id], chunks); }
      if taken < |data| {
        var d := TruncateExecution(c1, id);
        assert Counts(e, d.running[id], chunks) by { MeterKept(e, c1.running[id], d.running[id], chunks); }
        assert d.running[id].outputBytes <= e.limit == d.running[id].limit by { MeterOf(e, c1.running[id], chunks); }
        assert id in c1.truncated ==> !Clean(c1, id) by { FlaggedIsLost(c, c1, id); }
        assert !Clean(d, id) && id in d.truncated by { TruncatedIsFlagged(c1, id); }
      } else {
        assert data[..taken] == data;
      }
    }
  }

  lemma MeterOf(e: Execution, f: Execution, chunks: seq<Chunk>)
    requires Counts(e, f, chunks)
    ensures f.outputBytes == e.outputBytes + ByteCount(chunks) && f.limit == e.limit
  {
  }

  lemma MeterKept(e: Execution, f: Execution, g: Execution, chunks: seq<Chunk>)
    requires Counts(e, f, chunks) && g == f.(truncated := g.truncated)
    ensures Counts(e, g, chunks)
  {
  }

  lemma FlaggedIsLost(c: ClientState, d: ClientState, id: CommandId)
    requires Dims(c, d, id) && id !in c.truncated
    ensures id in d.truncated ==> !Clean(d, id)
  {
  }

  lemma TruncatedIsFlagged(c: ClientState, id: CommandId)
    requires id in c.running && id in c.journal.rows
    requires (c.running[id].truncated ==> id in c.truncated) && (id in c.truncated ==> !Clean(c, id))
    ensures !Clean(TruncateExecution(c, id), id) && id in TruncateExecution(c, id).truncated
  {
  }

  lemma HaltedMeter(c: ClientState, id: CommandId, h: Ledger)
    requires Halted(c, id, h) && id in c.running
    ensures id in c.journal.rows && OutputsHaveRow(c, id) && !Finished(c, id)
    ensures var e := c.running[id];
            && e.sequence == |h.emitted| && e.outputBytes == ByteCount(h.emitted)
            && e.outputBytes <= e.limit <= DEFAULT_COMMAND_OUTPUT_BYTES
            && (id in c.truncated || e.truncated ==> !Clean(c, id))
            && (c.running[id].truncated ==> id in c.truncated)
  {
  }

  /** Output of a Command still executing. */
  lemma EmitHalts(c: ClientState, id: CommandId, stream: Stream, data: seq<Byte>, h: Ledger)
    requires Halted(c, id, h) && !c.authenticated && id in c.running
    ensures var (d, chunks) := Emit(c, id, stream, data);
            Halted(d, id, h.(emitted := h.emitted + chunks, produced := h.produced + Tag(stream, data)))
  {
    hide Emit, Flatten, ByteCount, Sequences, Increasing, AtLeast, HasCompletion, HasClaim, ClaimsLast, OutputsHaveRow, Genuine;
    var (d, chunks) := Emit(c, id, stream, data);
    HaltedMeter(c, id, h);
    EmitCounts(c, id, stream, data);
    EmitDims(c, id, stream, data, id);
    FlattenConcat(h.emitted, chunks);
    LogGenuine(c.sent, id, h.emitted, chunks);
    assert FadesRow(c.journal.rows[id], d.journal.rows[id]);
    assert h.emitted + [] == h.emitted;
  }

  lemma CompleteHalts(c: ClientState, id: CommandId, result: CommandResult, h: Ledger)
    requires Halted(c, id, h) && id in c.running
    requires result.outputTruncated <==> !Clean(c, id)
    ensures var d := c.(journal := J.Complete(c.journal, id, result), running := c.running - {id});
            Halted(d, id, h)
  {
    hide Genuine, Sequences, HasClaim, HasCompletion, ClaimsLast, Flatten, ByteCount, WithinLimits, Increasing, AtLeast, Numbers;
  }

  lemma FlagIsHalted(c: ClientState, id: CommandId, h: Ledger)
    requires Halted(c, id, h) && id in c.running
    ensures (c.running[id].truncated || id in c.truncated) <==> !Clean(c, id)
  {
  }

  /** Sending a completion without a connection, and then perhaps shutting down. */
  lemma ReportHalts(c: ClientState, m: ClientMessage, id: CommandId, h: Ledger)
    requires Halted(c, id, h) && !c.authenticated && m.CommandCompleted?
    ensures Halted(Deliver(c, m).0, id, h) && !Deliver(c, m).0.authenticated
  {
    hide Halted, Dims, Deliver, OutputsHaveRow;
    HaltedOutputs(c, id, h);
    DeliverDims(c, m, id);
    HaltedDims(c, Deliver(c, m).0, id, h);
  }

  lemma ShutdownHalts(c: ClientState, id: CommandId, h: Ledger)
    requires Halted(c, id, h)
    ensures Halted(Shutdown(c), id, h)
  {
    hide Halted, Dims, MarkTruncated, OutputsHaveRow;
    HaltedOutputs(c, id, h);
    ShutdownDims(c, id);
    ShutdownStops(c);
    HaltedDims(c, Shutdown(c), id, h);
  }

  lemma OrphanHalts(c: ClientState, x: CommandId, e: Execution, id: CommandId, h: Ledger)
    requires Halted(c, id, h)
    ensures Halted(c.(orphans := c.orphans[x := e]), id, h)
  {
    hide Halted, Dims;
    var d := c.(orphans := c.orphans[x := e]);
    DimsFrame(c, d, id);
    HaltedDims(c, d, id, h);
  }

  /** Only the Command's own row and execution matter. */
  lemma OtherRowHalts(c: ClientState, d: ClientState, id: CommandId, h: Ledger)
    requires Halted(c, id, h)
    requires d == c.(journal := d.journal, running := d.running)
    requires (id in c.journal.rows <==> id in d.journal.rows) && (id in c.running <==> id in d.running)
    requires (id in c.journal.rows ==> d.journal.rows[id] == c.journal.rows[id]) && (id in c.running ==> d.running[id] == c.running[id])
    ensures Halted(d, id, h)
  {
    hide Genuine, Sequences, HasClaim, HasCompletion, ClaimsLast, Flatten, ByteCount, WithinLimits, Increasing, AtLeast, Numbers;
  }

  lemma FinishHalts(c: ClientState, x: CommandId, ending: Ending, id: CommandId, h: Ledger)
    requires Halted(c, id, h) && !c.authenticated && x in c.running
    ensures Halted(Finish(c, x, ending), id, h)
  {
    hide Halted, Deliver, Shutdown;
    var truncated := c.running[x].truncated || x in c.truncated;
    var result := FinalResult(ending, truncated);
    var c0 := c.(journal := J.Complete(c.journal, x, result));
    var d := c0.(running := c.running - {x});
    if x == id {
      FlagIsHalted(c, id, h);
      CompleteHalts(c, id, result, h);
    } else {
      OtherRowHalts(c, d, id, h);
    }
    var m := Completion(c0, x, result);
    RunningIrrelevant(c0, m, c.running - {x});
    ReportHalts(d, m, id, h);
    var e := Deliver(d, m).0;
    ShutdownHalts(e, id, h);
    ShutdownStops(e);
    OrphanHalts(Shutdown(e), x, c.running[x].(truncated := truncated), id, h);
  }

  lemma HaltedFloor(c: ClientState, id: CommandId, h: Ledger)
    requires Halted(c, id, h)
    ensures h.floor <= NextFloor(c, id, h) <= |h.emitted|
    ensures Below(Sequences(c.sent, id), NextFloor(c, id, h))
    ensures AtLeast(Sequences(c.sent, id), h.floor) && Increasing(Sequences(c.sent, id))
  {
    hide Sequences, HasClaim, HasCompletion, ClaimsLast, Flatten, ByteCount, WithinLimits, RowTracks, Genuine;
    GenuineBelow(c.sent, id, h.emitted);
  }

  lemma CloseHalts(c: ClientState, id: CommandId, h: Ledger)
    requires Halted(c, id, h)
    ensures Halted(CloseEvent(c), id, h.(floor := NextFloor(c, id, h)))
  {
    hide Halted, MarkTruncated, NextFloor, Dims;
    var marked := MarkAllUnconfirmedTruncated(c);
    HaltedOutputs(c, id, h);
    MarkDims(c, c.unconfirmed, id);
    assert marked.running == c.running by { MarkFrame(c, c.unconfirmed); }
    HaltedDims(c, marked, id, h);
    MarkedFloor(c, id, h);
    HaltedFloor(marked, id, h);
    ForgetSent(marked, CloseEvent(c), id, h, NextFloor(c, id, h));
  }

  lemma ForgetSent(c: ClientState, d: ClientState, id: CommandId, h: Ledger, floor: nat)
    requires Halted(c, id, h) && floor <= |h.emitted|
    requires d == c.(socket := d.socket, authenticated := d.authenticated, sent := [])
    ensures Halted(d, id, h.(floor := floor))
  {
    hide Genuine, Sequences, HasClaim, HasCompletion, ClaimsLast, Flatten, ByteCount, WithinLimits;
    LogEmpty(id, h.emitted);
  }

  /** The next start of the Client tracks again: nothing is buffered and every row completed. */
  lemma RestartTracks(c: ClientState, id: CommandId, h: Ledger)
    requires Halted(c, id, h)
    ensures Tracks(Restart(c), id, h.(floor := NextFloor(c, id, h)))
  {
    hide Genuine, Sequences, HasClaim, HasCompletion, ClaimsLast, Flatten, ByteCount, WithinLimits, Below, NextFloor;
    HaltedFloor(c, id, h);
    LogEmpty(id, h.emitted);
  }

  /** Halting does not look at the connection's state. */
  lemma HaltedFrame(c: ClientState, d: ClientState, id: CommandId, h: Ledger)
    requires Halted(c, id, h)
    requires d == c.(authenticated := d.authenticated, sendsLeft := d.sendsLeft, accepted := d.accepted, socket := d.socket,
                     stopped := d.stopped, orphans := d.orphans)
    ensures Halted(d, id, h)
  {
    hide Halted, Dims;
    DimsFrame(c, d, id);
    HaltedDims(c, d, id, h);
  }
}
