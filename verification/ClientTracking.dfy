/** What the Client's state says about one Command in the first lifetime of its journal
    row, and that every turn keeps it. */
module ClientTracking {
  import opened Wire
  import opened ClientOutput
  import opened OutputLogs
  import opened OutputProtocol
  import opened BufferBounds
  import opened ClientProgress
  import J = Journal

  /** What one lifetime of the row recorded, with a number no output still on this
      connection or in the buffer falls below. */
  datatype Ledger = Ledger(launches: nat, cancelledFirst: bool, emitted: seq<Chunk>, produced: seq<TaggedByte>, floor: nat)

  function LedgerOf(h: History, floor: nat): Ledger {
    Ledger(h.launches, h.cancelledFirst, h.emitted, h.produced, floor)
  }

  // ---------- The invariant ----------

  ghost predicate WithinLimits(emitted: seq<Chunk>) {
    && ByteCount(emitted) <= DEFAULT_COMMAND_OUTPUT_BYTES
    && (forall i | 0 <= i < |emitted| :: 0 < |emitted[i].data| <= CHUNK_BYTES)
  }

  predicate Clean(c: ClientState, id: CommandId) {
    id in c.journal.rows && !c.journal.rows[id].truncated
  }

  /** Before the row exists nothing has happened. */
  ghost predicate Untouched(c: ClientState, id: CommandId, h: Ledger) {
    && h == LedgerOf(NO_HISTORY, h.floor)
    && !HasCompletion(c.sent, id) && !HasCompletion(c.buffer, id)
    && id !in c.unconfirmed && id !in c.truncated && id !in c.running
  }

  ghost predicate RowTracks(c: ClientState, id: CommandId, h: Ledger)
    requires id in c.journal.rows
  {
    var row := c.journal.rows[id];
    && J.RowOk(row)
    && (id in c.running <==> row.state != J.Completed)
    && (id in c.truncated ==> row.truncated)
    && (id in c.unconfirmed ==> row.truncated || row.unconfirmed)
    && (row.truncated && id in c.running ==> id in c.truncated)
    && (id in c.running ==>
          var e := c.running[id];
          && e.sequence == |h.emitted| && e.outputBytes == ByteCount(h.emitted)
          && e.outputBytes <= e.limit <= DEFAULT_COMMAND_OUTPUT_BYTES
          && (e.truncated ==> id in c.truncated))
  }

  /** While nothing was lost: everything produced was emitted, and the emitted chunks are
      on this connection and in the buffer, in order. */
  ghost predicate CleanTracks(c: ClientState, id: CommandId, h: Ledger)
    requires id in c.journal.rows
  {
    && Flatten(h.emitted) == h.produced
    && (h.emitted != [] ==> id in c.unconfirmed)
    && Sequences(c.sent, id) + Sequences(c.buffer, id) == Numbers(|h.emitted|)
  }

  /** A buffered claim of complete output is only there while nothing was lost. */
  ghost predicate BufferTracks(c: ClientState, id: CommandId) {
    && (HasClaim(c.buffer, id) ==> Finished(c, id) && Clean(c, id))
    && ClaimsLast(c.buffer, id)
  }

  /** A claim already sent follows every output there will ever be. */
  ghost predicate SentTracks(c: ClientState, id: CommandId, h: Ledger) {
    && (HasClaim(c.sent, id) ==>
          && Finished(c, id)
          && Flatten(h.emitted) == h.produced
          && Sequences(c.sent, id) == Numbers(|h.emitted|)
          && Sequences(c.buffer, id) == [])
    && ClaimsLast(c.sent, id)
  }

  /** The outputs on this connection and then those in the buffer carry rising numbers. */
  ghost predicate OrderTracks(c: ClientState, id: CommandId, h: Ledger) {
    && h.floor <= |h.emitted|
    && Increasing(Sequences(c.sent, id) + Sequences(c.buffer, id))
    && AtLeast(Sequences(c.sent, id) + Sequences(c.buffer, id), h.floor)
  }

  ghost predicate Tracks(c: ClientState, id: CommandId, h: Ledger) {
    && WithinLimits(h.emitted)
    && OrderTracks(c, id, h)
    && Genuine(c.sent, id, h.emitted) && Genuine(c.buffer, id, h.emitted)
    && (if id in c.journal.rows then RowTracks(c, id, h) else Untouched(c, id, h))
    && (Clean(c, id) ==> CleanTracks(c, id, h))
    && BufferTracks(c, id)
    && SentTracks(c, id, h)
  }

  // ---------- Marks ----------

  /** A buffered output shows that its Command's row exists. */
  lemma OutputHasRow(c: ClientState, i: nat, id: CommandId, h: Ledger)
    requires Tracks(c, id, h) && i < |c.buffer| && OutputOf(c.buffer[i], id)
    ensures id in c.journal.rows
  {
  }

  lemma MarkKeeps(c: ClientState, ids: set<CommandId>, id: CommandId, h: Ledger)
    requires Tracks(c, id, h)
    requires id in ids ==> id in c.journal.rows
    ensures Tracks(MarkTruncated(c, ids), id, h)
    ensures id in ids ==> !Clean(MarkTruncated(c, ids), id)
  {
    hide Genuine, Sequences, HasClaim, HasCompletion, ClaimsLast, Flatten, ByteCount, WithinLimits, Increasing, AtLeast;
    LogMarked(c.buffer, ids, id, h.emitted);
  }

  lemma UnconfirmKeeps(c: ClientState, x: CommandId, id: CommandId, h: Ledger)
    requires Tracks(c, id, h)
    requires x == id ==> id in c.journal.rows
    ensures Tracks(MarkUnconfirmed(c, x), id, h)
  {
    hide Genuine, Sequences, HasClaim, HasCompletion, ClaimsLast, Flatten, ByteCount, WithinLimits, Increasing, AtLeast;
  }

  // ---------- Buffering and sending ----------

  /** Dropping a buffered message is harmless unless it is an output of a Command that is
      not flagged yet. */
  lemma DropKeeps(c: ClientState, i: nat, id: CommandId, h: Ledger)
    requires Tracks(c, id, h) && i < |c.buffer|
    requires OutputOf(c.buffer[i], id) ==> !Clean(c, id)
    ensures Tracks(c.(buffer := Without(c.buffer, i)), id, h)
  {
    hide Genuine, Sequences, HasClaim, HasCompletion, ClaimsLast, Flatten, ByteCount, WithinLimits, Increasing, AtLeast, Without;
    LogWithout(c.buffer, i, id, h.emitted);
    OrderWithout(Sequences(c.sent, id), c.buffer, i, id, h.floor);
  }

  /** Which messages may be appended without an entry in the Command's history. */
  predicate MayAppend(c: ClientState, m: ClientMessage, id: CommandId) {
    && !OutputOf(m, id)
    && (CompletionOf(m, id) ==> Finished(c, id))
    && (Claims(m, id) ==> Clean(c, id))
  }

  lemma PushKeeps(c: ClientState, m: ClientMessage, id: CommandId, h: Ledger)
    requires Tracks(c, id, h) && MayAppend(c, m, id)
    ensures Tracks(c.(buffer := c.buffer + [m]), id, h)
  {
    hide Genuine, Sequences, HasClaim, HasCompletion, ClaimsLast, Flatten, ByteCount, WithinLimits, Increasing, AtLeast;
    LogPush(c.buffer, m, id, h.emitted);
  }

  lemma SendKeeps(c: ClientState, m: ClientMessage, id: CommandId, h: Ledger)
    requires Tracks(c, id, h) && MayAppend(c, m, id)
    requires c.buffer == []
    ensures Tracks(c.(sent := c.sent + [m]), id, h)
  {
    hide Genuine, Sequences, HasClaim, HasCompletion, ClaimsLast, Flatten, ByteCount, WithinLimits, Increasing, AtLeast;
    LogPush(c.sent, m, id, h.emitted);
    LogEmpty(id, h.emitted);
  }

  lemma ShiftKeeps(c: ClientState, id: CommandId, h: Ledger)
    requires Tracks(c, id, h) && c.buffer != []
    ensures Tracks(c.(sent := c.sent + [c.buffer[0]], buffer := c.buffer[1..]), id, h)
  {
    hide Genuine, Sequences, HasClaim, HasCompletion, ClaimsLast, Flatten, ByteCount, WithinLimits, Increasing, AtLeast;
    LogPush(c.sent, c.buffer[0], id, h.emitted);
    LogShift(c.buffer, id, h.emitted);
    var (s, b) := (Sequences(c.sent, id), Sequences(c.buffer[1..], id));
    assert OutputOf(c.buffer[0], id) ==> (s + [c.buffer[0].sequence]) + b == s + ([c.buffer[0].sequence] + b);
    assert OutputOf(c.buffer[0], id) ==> c.buffer[0].sequence < |h.emitted| && h.emitted[c.buffer[0].sequence] == c.buffer[0].chunk by {
      GenuineAt(c.buffer, 0, id, h.emitted);
    }
  }

  lemma GenuineAt(ms: seq<ClientMessage>, i: nat, id: CommandId, emitted: seq<Chunk>)
    requires Genuine(ms, id, emitted) && i < |ms|
    ensures OutputOf(ms[i], id) ==> ms[i].sequence < |emitted| && emitted[ms[i].sequence] == ms[i].chunk
  {
  }

  lemma EvictKeeps(c: ClientState, m: ClientMessage, i: nat, id: CommandId, h: Ledger)
    requires Tracks(c, id, h) && MayAppend(c, m, id)
    requires i < |c.buffer| && IsOutput(c.buffer[i])
    ensures var ids := {c.buffer[i].commandId};
            var marked := MarkTruncated(c, ids);
            Tracks(marked.(buffer := MarkMessages(Without(marked.buffer, i) + [m], ids)), id, h)
  {
    hide Tracks;
    var ids := {c.buffer[i].commandId};
    var marked := MarkTruncated(c, ids);
    if id in ids {
      OutputHasRow(c, i, id, h);
    }
    MarkKeeps(c, ids, id, h);
    DropKeeps(marked, i, id, h);
    var kept := Without(marked.buffer, i);
    assert forall k | 0 <= k < |kept| :: kept[k] == marked.buffer[if k < i then k else k + 1];
    PushKeeps(marked.(buffer := kept), MarkMessage(m, ids), id, h);
    assert MarkMessages(kept + [m], ids) == kept + [MarkMessage(m, ids)];
  }

  /** `enqueue` of anything but an output of the Command itself. */
  lemma EnqueueKeeps(c: ClientState, m: ClientMessage, id: CommandId, h: Ledger)
    requires Tracks(c, id, h) && MayAppend(c, m, id)
    ensures Tracks(Enqueue(c, m).0, id, h)
  {
    hide Tracks, MarkTruncated, MarkMessages, Without;
    if IsOutput(m) {
      MarkKeeps(c, {m.commandId}, id, h);
      PushKeeps(c, m, id, h);
    } else if |c.buffer| < c.limits.messages || c.buffer == [] {
      PushKeeps(c, m, id, h);
      assert [] + [m] == [m];
    } else {
      var i := FirstOutput(c.buffer, 0);
      if i == |c.buffer| {
        DropKeeps(c, 0, id, h);
        PushKeeps(c.(buffer := Without(c.buffer, 0)), m, id, h);
      } else {
        EvictKeeps(c, m, i, id, h);
      }
    }
  }

  /** Tracking does not look at the authentication flag, the send budget or the history of
      accepted messages. */
  lemma TracksFrame(c: ClientState, d: ClientState, id: CommandId, h: Ledger)
    requires Tracks(c, id, h)
    requires d == c.(authenticated := d.authenticated, sendsLeft := d.sendsLeft, accepted := d.accepted, socket := d.socket,
                     stopped := d.stopped, orphans := d.orphans)
    ensures Tracks(d, id, h)
  {
    hide Genuine, Sequences, HasClaim, HasCompletion, ClaimsLast, Flatten, ByteCount, WithinLimits, Increasing, AtLeast;
  }

  lemma DeliverKeeps(c: ClientState, m: ClientMessage, id: CommandId, h: Ledger)
    requires Tracks(c, id, h) && Orderly(c) && MayAppend(c, m, id)
    ensures Tracks(Deliver(c, m).0, id, h)
  {
    hide Tracks, Enqueue, J.MarkUnconfirmed;
    var c1 := if IsOutput(m) then MarkUnconfirmed(c, m.commandId) else c;
    if IsOutput(m) {
      UnconfirmKeeps(c, m.commandId, id, h);
    }
    assert MayAppend(c1, m, id);
    if c1.authenticated && c1.socket == Open && c1.sendsLeft > 0 {
      SendKeeps(c1, m, id, h);
      TracksFrame(c1.(sent := c1.sent + [m]), Deliver(c, m).0, id, h);
    } else {
      var c2 := if c1.authenticated && c1.socket == Open then c1.(authenticated := false) else c1;
      TracksFrame(c1, c2, id, h);
      EnqueueKeeps(c2, m, id, h);
      TracksFrame(Enqueue(c2, m).0, Deliver(c, m).0, id, h);
    }
  }

  lemma {:induction false} FlushKeeps(c: ClientState, id: CommandId, h: Ledger)
    requires Tracks(c, id, h)
    ensures Tracks(Flush(c), id, h)
    ensures Flush(c).journal == c.journal && Flush(c).truncated == c.truncated && Flush(c).running == c.running
    decreases |c.buffer|
  {
    hide Tracks;
    if c.authenticated && c.socket == Open && c.buffer != [] {
      if c.sendsLeft == 0 {
        TracksFrame(c, c.(authenticated := false), id, h);
      } else {
        ShiftKeeps(c, id, h);
        var d := c.(sent := c.sent + [c.buffer[0]], sendsLeft := c.sendsLeft - 1, buffer := c.buffer[1..]);
        TracksFrame(c.(sent := c.sent + [c.buffer[0]], buffer := c.buffer[1..]), d, id, h);
        FlushKeeps(d, id, h);
      }
    }
  }

  // ---------- Emitting ----------

  function Extend(h: Ledger, chunk: Chunk): Ledger {
    h.(emitted := h.emitted + [chunk], produced := h.produced + Tag(chunk.stream, chunk.data))
  }

  lemma NumbersPush(n: nat)
    ensures Numbers(n + 1) == Numbers(n) + [n]
  {
  }

  lemma LimitsPush(emitted: seq<Chunk>, chunk: Chunk)
    requires WithinLimits(emitted) && 0 < |chunk.data| <= CHUNK_BYTES
    requires ByteCount(emitted) + |chunk.data| <= DEFAULT_COMMAND_OUTPUT_BYTES
    ensures WithinLimits(emitted + [chunk])
  {
    FlattenPush(emitted, chunk);
  }

  /** Whether the loop of `emit` may hand out another chunk. */
  ghost predicate Ready(c: ClientState, id: CommandId, chunk: Chunk) {
    && id in c.running && Clean(c, id)
    && 0 < |chunk.data| <= CHUNK_BYTES
    && c.running[id].outputBytes + |chunk.data| <= c.running[id].limit
  }

  /** Appending the next output of a clean Command to the connection or to the buffer. */
  lemma AppendOutput(c: ClientState, id: CommandId, chunk: Chunk, h: Ledger, sends: bool)
    requires Tracks(c, id, h) && Ready(c, id, chunk)
    requires id in c.unconfirmed
    requires sends ==> c.buffer == []
    ensures var e := c.running[id];
            var m := CommandOutput(id, e.sequence, chunk);
            var d := if sends then c.(sent := c.sent + [m]) else c.(buffer := c.buffer + [m]);
            var advanced := e.(sequence := e.sequence + 1, outputBytes := e.outputBytes + |chunk.data|);
            Tracks(d.(running := d.running[id := advanced]), id, Extend(h, chunk))
  {
    hide Genuine, Sequences, HasClaim, HasCompletion, ClaimsLast, Flatten, ByteCount, WithinLimits, Increasing, AtLeast, Numbers, Below;
    var m := CommandOutput(id, c.running[id].sequence, chunk);
    GenuineBelow(c.sent, id, h.emitted);
    GenuineBelow(c.buffer, id, h.emitted);
    BelowConcat(Sequences(c.sent, id), Sequences(c.buffer, id), |h.emitted|);
    OrderPush(Sequences(c.sent, id) + Sequences(c.buffer, id), |h.emitted|, h.floor);
    var emitted := h.emitted + [chunk];
    LogGenuine(c.sent, id, h.emitted, [chunk]);
    LogGenuine(c.buffer, id, h.emitted, [chunk]);
    LogPush(c.sent, m, id, emitted);
    LogPush(c.buffer, m, id, emitted);
    LogEmpty(id, emitted);
    NumbersPush(|h.emitted|);
    FlattenPush(h.emitted, chunk);
    LimitsPush(h.emitted, chunk);
    var (s, b) := (Sequences(c.sent, id), Sequences(c.buffer, id));
    assert s + (b + [m.sequence]) == (s + b) + [m.sequence];
    assert sends ==> (s + [m.sequence]) + b == (s + b) + [m.sequence];
  }

  /** One iteration of the loop either extends the history by the chunk or flags the Command. */
  lemma EmitChunkKeeps(c: ClientState, id: CommandId, chunk: Chunk, h: Ledger)
    requires Tracks(c, id, h) && Orderly(c) && Ready(c, id, chunk)
    ensures var (d, ok) := EmitChunk(c, id, chunk);
            if ok then Tracks(d, id, Extend(h, chunk)) && Clean(d, id)
            else Tracks(d, id, h) && !Clean(d, id)
  {
    hide Tracks, Enqueue, MarkTruncated, J.MarkUnconfirmed, SameButWire, SameButBuffer;
    var m := CommandOutput(id, c.running[id].sequence, chunk);
    var c1 := MarkUnconfirmed(c, id);
    UnconfirmKeeps(c, id, id, h);
    Confirms(c, id, h);
    var (d, ok) := EmitChunk(c, id, chunk);
    var c2 := if c1.authenticated && c1.socket == Open then c1.(authenticated := false) else c1;
    EnqueueOutput(c2, m);
    if c1.authenticated && c1.socket == Open && c1.sendsLeft > 0 {
      AppendOutput(c1, id, chunk, h, true);
    } else if Enqueue(c2, m).1 {
      AppendOutput(c1, id, chunk, h, false);
    } else {
      TracksFrame(c1, c2, id, h);
      MarkKeeps(c2, {id}, id, h);
      TruncateExecutionKeeps(MarkTruncated(c2, {id}), id, h);
    }
    if ok {
      var advanced := c.running[id].(sequence := c.running[id].sequence + 1, outputBytes := c.running[id].outputBytes + |chunk.data|);
      var appended := if c1.authenticated && c1.socket == Open && c1.sendsLeft > 0
                      then c1.(sent := c1.sent + [m]) else c1.(buffer := c1.buffer + [m]);
      TracksFrame(appended.(running := appended.running[id := advanced]), d, id, Extend(h, chunk));
    }
  }

  lemma EnqueueOutput(c: ClientState, m: ClientMessage)
    requires IsOutput(m)
    ensures Enqueue(c, m).0 == if Enqueue(c, m).1 then c.(buffer := c.buffer + [m]) else MarkTruncated(c, {m.commandId})
  {
    hide MarkTruncated, BufferedBytes;
  }

  lemma Confirms(c: ClientState, id: CommandId, h: Ledger)
    requires Tracks(c, id, h) && Clean(c, id)
    ensures var c1 := MarkUnconfirmed(c, id);
            Clean(c1, id) && id in c1.unconfirmed && c1.running == c.running
  {
  }

  lemma TruncateExecutionKeeps(c: ClientState, id: CommandId, h: Ledger)
    requires Tracks(c, id, h) && id in c.running
    ensures Tracks(TruncateExecution(c, id), id, h) && !Clean(TruncateExecution(c, id), id)
  {
    hide Genuine, Sequences, HasClaim, HasCompletion, ClaimsLast, Flatten, ByteCount, WithinLimits, Increasing, AtLeast, Numbers, MarkMessages;
    if !c.running[id].truncated && id !in c.truncated {
      MarkKeeps(c, {id}, id, h);
    }
  }

  /** What the process produced beyond what was emitted does not matter once output is flagged. */
  lemma ProduceKeeps(c: ClientState, id: CommandId, h: Ledger, produced: seq<TaggedByte>)
    requires Tracks(c, id, h) && id in c.running && !Clean(c, id)
    ensures Tracks(c, id, h.(produced := produced))
  {
  }

  function ExtendAll(h: Ledger, chunks: seq<Chunk>): Ledger
    decreases |chunks|
  {
    if chunks == [] then h else ExtendAll(Extend(h, chunks[0]), chunks[1..])
  }

  lemma {:induction false} ExtendAllEmitted(h: Ledger, chunks: seq<Chunk>)
    ensures ExtendAll(h, chunks) == h.(emitted := h.emitted + chunks, produced := ExtendAll(h, chunks).produced)
    decreases |chunks|
  {
    if chunks != [] {
      ExtendAllEmitted(Extend(h, chunks[0]), chunks[1..]);
      assert [chunks[0]] + chunks[1..] == chunks;
    }
  }

  lemma TagSplit(stream: Stream, data: seq<Byte>, n: nat)
    requires n <= |data|
    ensures Tag(stream, data[..n]) + Tag(stream, data[n..]) == Tag(stream, data)
  {
  }

  /** The loop of `emit` records every chunk it hands out; if the Command stays clean, the
      chunks carry all the data. */
  lemma {:induction false} EmitChunksKeeps(c: ClientState, id: CommandId, stream: Stream, data: seq<Byte>, h: Ledger)
    requires Tracks(c, id, h) && Orderly(c) && id in c.running && Clean(c, id)
    requires c.running[id].outputBytes + |data| <= c.running[id].limit
    ensures var (d, chunks) := EmitChunks(c, id, stream, data);
            && Tracks(d, id, ExtendAll(h, chunks))
            && (Clean(d, id) ==> ExtendAll(h, chunks).produced == h.produced + Tag(stream, data))
    decreases |data|
  {
    hide Tracks, EmitChunk;
    if data != [] {
      var chunk := NextChunk(stream, data);
      var n := |chunk.data|;
      EmitChunkKeeps(c, id, chunk, h);
      EmitChunkOrderly(c, id, chunk);
      EmitChunkFrame(c, id, chunk);
      var (c1, ok) := EmitChunk(c, id, chunk);
      if ok {
        EmitChunksKeeps(c1, id, stream, data[n..], Extend(h, chunk));
        TagSplit(stream, data, n);
        var (d, rest) := EmitChunks(c1, id, stream, data[n..]);
        assert ([chunk] + rest)[1..] == rest;
        assert h.produced + (Tag(stream, data[..n]) + Tag(stream, data[n..])) == h.produced + Tag(stream, data[..n]) + Tag(stream, data[n..]);
      }
    }
  }

  lemma EmitChunkFrame(c: ClientState, id: CommandId, chunk: Chunk)
    requires id in c.running
    ensures var (d, ok) := EmitChunk(c, id, chunk);
            ok ==> d.running[id].outputBytes == c.running[id].outputBytes + |chunk.data| && d.running[id].limit == c.running[id].limit
  {
  }

  lemma FlagExecutionKeeps(c: ClientState, id: CommandId, h: Ledger)
    requires Tracks(c, id, h) && id in c.running && (id in c.truncated || c.running[id].truncated)
    ensures var d := c.(running := c.running[id := c.running[id].(truncated := true)]);
            Tracks(d, id, h) && !Clean(d, id)
  {
    hide Genuine, Sequences, HasClaim, HasCompletion, ClaimsLast, Flatten, ByteCount, WithinLimits, Increasing, AtLeast, Numbers;
  }

  lemma NotFlaggedIsClean(c: ClientState, id: CommandId, h: Ledger)
    requires Tracks(c, id, h) && id in c.running && id !in c.truncated
    ensures Clean(c, id)
  {
  }

  /** `emit` records the chunks it handed out and the data it was given. */
  lemma EmitKeeps(c: ClientState, id: CommandId, stream: Stream, data: seq<Byte>, h: Ledger)
    requires Tracks(c, id, h) && Orderly(c) && id in c.running
    ensures var (d, chunks) := Emit(c, id, stream, data);
            Tracks(d, id, h.(emitted := h.emitted + chunks, produced := h.produced + Tag(stream, data)))
  {
    hide Tracks, EmitChunks, MarkTruncated;
    var e := c.running[id];
    var produced := h.produced + Tag(stream, data);
    if id in c.truncated || e.truncated {
      FlagExecutionKeeps(c, id, h);
      ProduceKeeps(c.(running := c.running[id := e.(truncated := true)]), id, h, produced);
      assert h.emitted + [] == h.emitted;
    } else if e.limit <= e.outputBytes {
      TruncateExecutionKeeps(c, id, h);
      ProduceKeeps(TruncateExecution(c, id), id, h, produced);
      assert h.emitted + [] == h.emitted;
    } else {
      NotFlaggedIsClean(c, id, h);
      var taken := Min(e.limit - e.outputBytes, |data|);
      var accepted := data[..taken];
      EmitChunksKeeps(c, id, stream, accepted, h);
      var (c1, chunks) := EmitChunks(c, id, stream, accepted);
      var h1 := ExtendAll(h, chunks);
      ExtendAllEmitted(h, chunks);
      if taken < |data| {
        TruncateExecutionKeeps(c1, id, h1);
        ProduceKeeps(TruncateExecution(c1, id), id, h1, produced);
      } else {
        assert accepted == data;
        if !Clean(c1, id) {
          ProduceKeeps(c1, id, h1, produced);
        }
      }
    }
  }

  // ---------- Turns about other Commands ----------

  lemma RunningFrame(c: ClientState, d: ClientState, id: CommandId, h: Ledger)
    requires Tracks(c, id, h)
    requires d == c.(running := d.running)
    requires (id in c.running <==> id in d.running) && (id in c.running ==> d.running[id] == c.running[id])
    ensures Tracks(d, id, h)
  {
    hide Genuine, Sequences, HasClaim, HasCompletion, ClaimsLast, Flatten, ByteCount, WithinLimits, Increasing, AtLeast, Numbers;
  }

  /** Tracking only looks at the Command's own journal row. */
  lemma JournalFrame(c: ClientState, d: ClientState, id: CommandId, h: Ledger)
    requires Tracks(c, id, h)
    requires d == c.(journal := d.journal)
    requires (id in c.journal.rows <==> id in d.journal.rows)
    requires id in c.journal.rows ==> d.journal.rows[id] == c.journal.rows[id]
    ensures Tracks(d, id, h)
  {
    hide Genuine, Sequences, HasClaim, HasCompletion, ClaimsLast, Flatten, ByteCount, WithinLimits, Increasing, AtLeast, Numbers;
  }

  lemma TruncateOtherKeeps(c: ClientState, x: CommandId, id: CommandId, h: Ledger)
    requires Tracks(c, id, h) && x in c.running && x != id
    ensures Tracks(TruncateExecution(c, x), id, h)
  {
    hide Tracks, MarkTruncated;
    MarkKeeps(c, {x}, id, h);
    var c1 := if x in c.truncated then c else MarkTruncated(c, {x});
    MarkFrame(c, {x});
    RunningFrame(c1, c1.(running := c1.running[x := c1.running[x].(truncated := true)]), id, h);
  }

  lemma MarkFrame(c: ClientState, ids: set<CommandId>)
    ensures MarkTruncated(c, ids).running == c.running
  {
  }

  lemma {:induction false} EmitChunksOtherKeeps(c: ClientState, x: CommandId, stream: Stream, data: seq<Byte>, id: CommandId, h: Ledger)
    requires Tracks(c, id, h) && Orderly(c) && x in c.running && x != id
    ensures Tracks(EmitChunks(c, x, stream, data).0, id, h)
    decreases |data|
  {
    hide Tracks, Deliver, TruncateExecution;
    if data != [] {
      var chunk := NextChunk(stream, data);
      var m := CommandOutput(x, c.running[x].sequence, chunk);
      DeliverKeeps(c, m, id, h);
      EmitChunkOrderly(c, x, chunk);
      var (c1, ok) := EmitChunk(c, x, chunk);
      if ok {
        RunningFrame(Deliver(c, m).0, c1, id, h);
        EmitChunksOtherKeeps(c1, x, stream, data[|chunk.data|..], id, h);
      } else {
        TruncateOtherKeeps(Deliver(c, m).0, x, id, h);
      }
    }
  }

  lemma EmitOtherKeeps(c: ClientState, x: CommandId, stream: Stream, data: seq<Byte>, id: CommandId, h: Ledger)
    requires Tracks(c, id, h) && Orderly(c) && x in c.running && x != id
    ensures Tracks(Emit(c, x, stream, data).0, id, h)
  {
    hide Tracks, EmitChunks, TruncateExecution;
    var e := c.running[x];
    RunningFrame(c, c.(running := c.running[x := e.(truncated := true)]), id, h);
    TruncateOtherKeeps(c, x, id, h);
    if !(x in c.truncated || e.truncated || e.limit <= e.outputBytes) {
      var taken := Min(e.limit - e.outputBytes, |data|);
      EmitChunksOtherKeeps(c, x, stream, data[..taken], id, h);
      TruncateOtherKeeps(EmitChunks(c, x, stream, data[..taken]).0, x, id, h);
    }
  }

  // ---------- Completion ----------

  /** `complete` keeps tracking: the stored result carries the row's flag. */
  lemma CompleteKeeps(c: ClientState, id: CommandId, result: CommandResult, h: Ledger)
    requires Tracks(c, id, h) && id in c.running
    requires result.outputTruncated <==> !Clean(c, id)
    ensures var d := c.(journal := J.Complete(c.journal, id, result), running := c.running - {id});
            Tracks(d, id, h) && Finished(d, id) && (Clean(d, id) <==> Clean(c, id))
  {
    hide Genuine, Sequences, HasClaim, HasCompletion, ClaimsLast, Flatten, ByteCount, WithinLimits, Increasing, AtLeast, Numbers;
  }

  lemma FlagIsMark(c: ClientState, id: CommandId, h: Ledger)
    requires Tracks(c, id, h) && id in c.running
    ensures (c.running[id].truncated || id in c.truncated) <==> !Clean(c, id)
  {
  }

  /** Resending a stored result never claims more than the journal row. */
  lemma ResendKeeps(c: ClientState, id: CommandId, result: CommandResult, h: Ledger)
    requires Tracks(c, id, h) && Orderly(c) && Finished(c, id)
    requires !Clean(c, id) ==> result.outputTruncated || id in c.truncated
    ensures Tracks(SendCompletion(c, id, result), id, h)
  {
    hide Tracks, Deliver;
    DeliverKeeps(c, Completion(c, id, result), id, h);
  }

  lemma ResendOtherKeeps(c: ClientState, x: CommandId, result: CommandResult, id: CommandId, h: Ledger)
    requires Tracks(c, id, h) && Orderly(c) && x != id
    ensures Tracks(SendCompletion(c, x, result), id, h)
  {
    hide Tracks, Deliver;
    DeliverKeeps(c, Completion(c, x, result), id, h);
  }

  lemma ShutdownKeeps(c: ClientState, id: CommandId, h: Ledger)
    requires Tracks(c, id, h)
    ensures Tracks(Shutdown(c), id, h)
  {
    hide Tracks, MarkTruncated;
    MarkAllKeeps(c, id, h);
    TracksFrame(MarkAllUnconfirmedTruncated(c), Shutdown(c), id, h);
  }

  lemma MarkAllKeeps(c: ClientState, id: CommandId, h: Ledger)
    requires Tracks(c, id, h)
    ensures var d := MarkAllUnconfirmedTruncated(c);
            Tracks(d, id, h) && (Clean(d, id) ==> h.emitted == [])
  {
    hide Tracks, MarkTruncated;
    if id in c.unconfirmed {
      UnconfirmedHasRow(c, id, h);
    }
    MarkKeeps(c, c.unconfirmed, id, h);
    CleanAfterMarks(c, id, h);
  }

  lemma CleanAfterMarks(c: ClientState, id: CommandId, h: Ledger)
    requires Tracks(c, id, h)
    ensures Clean(MarkAllUnconfirmedTruncated(c), id) ==> h.emitted == []
  {
  }

  lemma UnconfirmedHasRow(c: ClientState, id: CommandId, h: Ledger)
    requires Tracks(c, id, h) && id in c.unconfirmed
    ensures id in c.journal.rows
  {
  }

  /** What sending never does: reopen a finished Command, clear a flag, or flag a Command
      without remembering it. */
  ghost predicate Advances(c: ClientState, d: ClientState, id: CommandId) {
    && (Finished(c, id) ==> Finished(d, id))
    && (id in c.truncated ==> id in d.truncated)
    && (Clean(c, id) && !Clean(d, id) ==> id in d.truncated)
  }

  lemma DeliverAdvances(c: ClientState, m: ClientMessage, id: CommandId)
    ensures Advances(c, Deliver(c, m).0, id)
  {
    hide Deliver, Enqueue, Noted, SameButWire, SameButBuffer;
    var c1 := Noted(c, m);
    NotedAdvances(c, m, id);
    if c1.authenticated && c1.socket == Open && c1.sendsLeft > 0 {
      DeliverSent(c, m);
    } else {
      DeliverBuffered(c, m);
      EnqueueAdvances(if c1.authenticated && c1.socket == Open then c1.(authenticated := false) else c1, m, id);
    }
  }

  lemma NotedAdvances(c: ClientState, m: ClientMessage, id: CommandId)
    ensures Advances(c, Noted(c, m), id) && (Clean(Noted(c, m), id) <==> Clean(c, id))
  {
  }

  lemma EnqueueAdvances(c: ClientState, m: ClientMessage, id: CommandId)
    ensures Advances(c, Enqueue(c, m).0, id)
  {
    hide MarkMessages, Without, BufferedBytes, FirstOutput;
  }

  lemma {:induction false} ReconcileKeeps(c: ClientState, entries: seq<(CommandId, CommandResult)>, id: CommandId, h: Ledger)
    requires Tracks(c, id, h) && Orderly(c)
    requires forall i | 0 <= i < |entries| && entries[i].0 == id ::
               Finished(c, id) && (!Clean(c, id) ==> entries[i].1.outputTruncated || id in c.truncated)
    ensures Tracks(Reconcile(c, entries), id, h)
    decreases |entries|
  {
    hide Tracks, Deliver;
    if entries != [] {
      var (x, result) := entries[0];
      var m := Completion(c, x, result);
      if x == id {
        ResendKeeps(c, id, result, h);
      } else {
        ResendOtherKeeps(c, x, result, id, h);
      }
      DeliverOrderly(c, m);
      DeliverAdvances(c, m, id);
      assert forall i | 0 <= i < |entries[1..]| :: entries[1..][i] == entries[i + 1];
      ReconcileKeeps(Deliver(c, m).0, entries[1..], id, h);
    }
  }

  lemma RowResult(c: ClientState, id: CommandId, h: Ledger, result: CommandResult)
    requires Tracks(c, id, h) && J.ResultOf(c.journal, id) == Some(result)
    ensures Finished(c, id) && (!Clean(c, id) ==> result.outputTruncated)
  {
  }

  lemma {:induction false} ResultsAreStored(t: J.Table, ids: seq<CommandId>)
    ensures forall i | 0 <= i < |J.Results(t, ids)| ::
              J.ResultOf(t, J.Results(t, ids)[i].0) == Some(J.Results(t, ids)[i].1)
  {
    if ids != [] {
      ResultsAreStored(t, ids[1..]);
    }
  }

  lemma AuthenticatedKeeps(c: ClientState, id: CommandId, h: Ledger)
    requires Tracks(c, id, h) && Orderly(c) && c.socket != Absent && !c.stopped
    ensures Tracks(ClientOutput.Authenticated(c), id, h)
  {
    hide Tracks, Reconcile, Flush;
    var c0 := c.(authenticated := true);
    TracksFrame(c, c0, id, h);
    FlushKeeps(c0, id, h);
    FlushOrderly(c0);
    var c1 := Flush(c0);
    var entries := J.ResultsForReconciliation(c1.journal);
    ResultsAreStored(c1.journal, c1.journal.order);
    forall i | 0 <= i < |entries| && entries[i].0 == id
      ensures Finished(c1, id) && (!Clean(c1, id) ==> entries[i].1.outputTruncated || id in c1.truncated)
    {
      RowResult(c1, id, h, entries[i].1);
    }
    ReconcileKeeps(c1, entries, id, h);
  }

  lemma CleanIsComplete(c: ClientState, id: CommandId, h: Ledger)
    requires Tracks(c, id, h) && Clean(c, id)
    ensures Flatten(h.emitted) == h.produced
  {
  }

  lemma FinishKeeps(c: ClientState, id: CommandId, ending: Ending, h: Ledger)
    requires Tracks(c, id, h) && Orderly(c) && id in c.running
    ensures Tracks(Finish(c, id, ending), id, h)
    ensures var truncated := c.running[id].truncated || id in c.truncated;
            && (truncated <==> !Clean(c, id))
            && (!truncated ==> Flatten(h.emitted) == h.produced)
  {
    hide Tracks, Deliver, Shutdown, Flatten;
    if Clean(c, id) {
      CleanIsComplete(c, id, h);
    }
    var result := FinalResult(ending, c.running[id].truncated || id in c.truncated);
    FlagIsMark(c, id, h);
    CompleteKeeps(c, id, result, h);
    var c0 := c.(journal := J.Complete(c.journal, id, result));
    var d := c0.(running := c.running - {id});
    ResendKeeps(d, id, result, h);
    RunningIrrelevant(c0, Completion(c0, id, result), c.running - {id});
    var e := SendCompletion(d, id, result);
    ShutdownKeeps(e, id, h);
    TracksFrame(Shutdown(e), Shutdown(e).(orphans := Finish(c, id, ending).orphans), id, h);
  }

  lemma FinishOtherKeeps(c: ClientState, x: CommandId, ending: Ending, id: CommandId, h: Ledger)
    requires Tracks(c, id, h) && Orderly(c) && x in c.running && x != id
    ensures Tracks(Finish(c, x, ending), id, h)
  {
    hide Tracks, Deliver, Shutdown;
    var result := FinalResult(ending, c.running[x].truncated || x in c.truncated);
    var c0 := c.(journal := J.Complete(c.journal, x, result));
    JournalFrame(c, c0, id, h);
    ResendOtherKeeps(c0, x, result, id, h);
    var c1 := SendCompletion(c0, x, result);
    var c2 := c1.(running := c1.running - {x});
    RunningFrame(c1, c2, id, h);
    ShutdownKeeps(c2, id, h);
    TracksFrame(Shutdown(c2), Shutdown(c2).(orphans := Finish(c, x, ending).orphans), id, h);
  }

  // ---------- Messages from the Server ----------

  /** A fresh row that completes at once: a refused start or a cancellation before any start. */
  lemma FreshCompletionKeeps(c: ClientState, id: CommandId, result: CommandResult, h: Ledger, h1: Ledger)
    requires Tracks(c, id, h) && Orderly(c) && id !in c.journal.rows && !result.outputTruncated
    requires h1.emitted == [] && h1.produced == [] && h1.floor == 0
    ensures Tracks(CompleteAndSend(c.(journal := J.Receive(c.journal, id).0), id, result), id, h1)
  {
    hide Deliver;
    var c0 := c.(journal := J.Complete(J.Receive(c.journal, id).0, id, result));
    FreshRowKeeps(c, id, result, h, h1);
    ResendKeeps(c0, id, result, h1);
  }

  lemma FreshRowKeeps(c: ClientState, id: CommandId, result: CommandResult, h: Ledger, h1: Ledger)
    requires Tracks(c, id, h) && id !in c.journal.rows && !result.outputTruncated
    requires h1.emitted == [] && h1.produced == [] && h1.floor == 0
    ensures Tracks(c.(journal := J.Complete(J.Receive(c.journal, id).0, id, result)), id, h1)
  {
    hide Sequences, ByteCount;
    LogGenuine(c.sent, id, [], []);
    LogGenuine(c.buffer, id, [], []);
  }

  lemma NothingClaimed(c: ClientState, id: CommandId, h: Ledger)
    requires Tracks(c, id, h) && id !in c.journal.rows
    ensures !HasClaim(c.sent, id) && !HasClaim(c.buffer, id)
  {
  }

  lemma LaunchKeeps(c: ClientState, id: CommandId, limit: nat, h: Ledger, h1: Ledger)
    requires Tracks(c, id, h) && id !in c.journal.rows && limit <= DEFAULT_COMMAND_OUTPUT_BYTES
    requires h1.emitted == [] && h1.produced == [] && h1.floor == 0
    ensures Tracks(c.(journal := J.MarkRunning(J.Receive(c.journal, id).0, id),
                      running := c.running[id := Execution(0, 0, false, limit)]), id, h1)
  {
    hide Sequences, Genuine, HasClaim, HasCompletion, ClaimsLast, Increasing, AtLeast;
    LogGenuine(c.sent, id, [], []);
    LogGenuine(c.buffer, id, [], []);
    NothingClaimed(c, id, h);
  }

  /** The history a `command.start` leaves. */
  function Started(c: ClientState, id: CommandId, admission: Option<string>, h: Ledger): Ledger {
    if Launches(c, id, admission) then h.(launches := h.launches + 1) else h
  }

  lemma UntouchedHistory(c: ClientState, id: CommandId, h: Ledger)
    requires Tracks(c, id, h) && id !in c.journal.rows
    ensures h == LedgerOf(NO_HISTORY, 0)
  {
  }

  lemma StartKeeps(c: ClientState, id: CommandId, admission: Option<string>, h: Ledger)
    requires Tracks(c, id, h) && Orderly(c)
    ensures Tracks(Start(c, id, admission), id, Started(c, id, admission, h))
  {
    hide Tracks, Deliver;
    var (journal, receipt) := J.Receive(c.journal, id);
    if receipt == J.New {
      UntouchedHistory(c, id, h);
      var limit := Min(DEFAULT_COMMAND_OUTPUT_BYTES, c.limits.commandBytes);
      var h1 := Started(c, id, admission, h);
      if admission.Some? || limit < 1 {
        FreshCompletionKeeps(c, id, CommandResult(Failed, None, Some(admission.GetOr(EXCEEDS_POLICY)), false), h, h1);
      } else {
        LaunchKeeps(c, id, limit, h, h1);
        var d := c.(journal := J.MarkRunning(journal, id), running := c.running[id := Execution(0, 0, false, limit)]);
        DeliverKeeps(d, CommandStarted(id), id, h1);
      }
    } else {
      assert c.(journal := journal) == c;
      var previous := J.ResultOf(journal, id);
      if previous.Some? {
        RowResult(c, id, h, previous.value);
        ResendKeeps(c, id, previous.value, h);
      }
    }
  }

  lemma StartOtherKeeps(c: ClientState, x: CommandId, admission: Option<string>, id: CommandId, h: Ledger)
    requires Tracks(c, id, h) && Orderly(c) && x != id
    ensures Tracks(Start(c, x, admission), id, h)
  {
    hide Tracks, Deliver, SendCompletion, CompleteAndSend;
    var (journal, receipt) := J.Receive(c.journal, x);
    var c1 := c.(journal := journal);
    JournalFrame(c, c1, id, h);
    if receipt == J.New {
      FreshOtherKeeps(c, x, CommandResult(Failed, None, Some(admission.GetOr(EXCEEDS_POLICY)), false), id, h);
      var limit := Min(DEFAULT_COMMAND_OUTPUT_BYTES, c.limits.commandBytes);
      var c3 := c1.(journal := J.MarkRunning(journal, x));
      JournalFrame(c1, c3, id, h);
      var c4 := c3.(running := c.running[x := Execution(0, 0, false, limit)]);
      RunningFrame(c3, c4, id, h);
      DeliverKeeps(c4, CommandStarted(x), id, h);
    } else {
      var previous := J.ResultOf(journal, x);
      if previous.Some? {
        ResendOtherKeeps(c1, x, previous.value, id, h);
      }
    }
  }

  /** The history a `command.cancel` leaves. */
  function CancelledBefore(c: ClientState, id: CommandId, h: Ledger): Ledger {
    if id !in c.journal.rows && id !in c.running then h.(cancelledFirst := true) else h
  }

  /** A cancellation only ever completes a Command that was never received: the branch that
      reports an unavailable execution state is never taken. */
  lemma CancelKnowsTheState(c: ClientState, id: CommandId, h: Ledger)
    requires Tracks(c, id, h) && id !in c.running && J.ResultOf(c.journal, id).None?
    ensures id !in c.journal.rows
  {
  }

  lemma CancelKeeps(c: ClientState, id: CommandId, h: Ledger)
    requires Tracks(c, id, h) && Orderly(c)
    ensures Tracks(Cancel(c, id), id, CancelledBefore(c, id, h))
  {
    hide Tracks, Deliver;
    if id !in c.running {
      var previous := J.ResultOf(c.journal, id);
      if previous.Some? {
        RowResult(c, id, h, previous.value);
        ResendKeeps(c, id, previous.value, h);
      } else {
        CancelKnowsTheState(c, id, h);
        UntouchedHistory(c, id, h);
        FreshCompletionKeeps(c, id, CommandResult(Cancelled, None, Some("Command was cancelled before execution started"), false), h,
                             CancelledBefore(c, id, h));
      }
    }
  }

  lemma CancelOtherKeeps(c: ClientState, x: CommandId, id: CommandId, h: Ledger)
    requires Tracks(c, id, h) && Orderly(c) && x != id
    ensures Tracks(Cancel(c, x), id, h)
  {
    hide Tracks, Orderly, SendCompletion, CompleteAndSend;
    if x !in c.running {
      var previous := J.ResultOf(c.journal, x);
      if previous.Some? {
        ResendOtherKeeps(c, x, previous.value, id, h);
      } else {
        FreshOtherKeeps(c, x, CommandResult(Cancelled, None, Some("Command was cancelled before execution started"), false), id, h);
        FreshOtherKeeps(c, x, CommandResult(ExecutionUnknown, None,
                                            Some("Command execution state was unavailable when cancellation arrived"), false), id, h);
      }
    }
  }

  /** Receiving another Command and completing it at once. */
  lemma FreshOtherKeeps(c: ClientState, x: CommandId, result: CommandResult, id: CommandId, h: Ledger)
    requires Tracks(c, id, h) && Orderly(c) && x != id
    ensures Tracks(CompleteAndSend(c.(journal := J.Receive(c.journal, x).0), x, result), id, h)
  {
    hide Tracks, SendCompletion;
    var c1 := c.(journal := J.Receive(c.journal, x).0);
    var c2 := c1.(journal := J.Complete(c1.journal, x, result));
    JournalFrame(c, c1, id, h);
    JournalFrame(c1, c2, id, h);
    ResendOtherKeeps(c2, x, result, id, h);
  }

  lemma AcknowledgedOtherKeeps(c: ClientState, x: CommandId, id: CommandId, h: Ledger)
    requires Tracks(c, id, h) && x != id
    ensures Tracks(Acknowledged(c, x), id, h)
  {
    hide Genuine, Sequences, HasClaim, HasCompletion, ClaimsLast, Flatten, ByteCount, WithinLimits, Increasing, AtLeast, Numbers;
  }

  // ---------- Losing the connection or the process ----------

  /** The lowest number an output still in the buffer may have. */
  function NextFloor(c: ClientState, id: CommandId, h: Ledger): nat {
    var s := Sequences(c.sent, id);
    if s == [] then h.floor else s[|s| - 1] + 1
  }

  lemma FloorRises(c: ClientState, id: CommandId, h: Ledger)
    requires Tracks(c, id, h)
    ensures h.floor <= NextFloor(c, id, h) <= |h.emitted|
    ensures Below(Sequences(c.sent, id), NextFloor(c, id, h))
    ensures AtLeast(Sequences(c.buffer, id), NextFloor(c, id, h))
    ensures Increasing(Sequences(c.sent, id)) && Increasing(Sequences(c.buffer, id))
  {
    hide Sequences, HasClaim, HasCompletion, ClaimsLast, Flatten, ByteCount, WithinLimits, RowTracks, Untouched, CleanTracks, BufferTracks, SentTracks, Genuine;
    var (s, b) := (Sequences(c.sent, id), Sequences(c.buffer, id));
    GenuineBelow(c.sent, id, h.emitted);
    assert forall i | 0 <= i < |s| :: s[i] == (s + b)[i];
    assert forall i | 0 <= i < |b| :: b[i] == (s + b)[|s| + i];
  }

  /** After a close event a Command that is still clean has emitted nothing. */
  lemma CloseKeeps(c: ClientState, id: CommandId, h: Ledger)
    requires Tracks(c, id, h)
    ensures Tracks(CloseEvent(c), id, h.(floor := NextFloor(c, id, h)))
    ensures Clean(CloseEvent(c), id) ==> h.emitted == []
  {
    hide Tracks, MarkTruncated, NextFloor;
    MarkAllKeeps(c, id, h);
    MarkedFloor(c, id, h);
    DisconnectKeeps(MarkAllUnconfirmedTruncated(c), CloseEvent(c), id, h);
  }

  lemma MarkedFloor(c: ClientState, id: CommandId, h: Ledger)
    ensures NextFloor(MarkAllUnconfirmedTruncated(c), id, h) == NextFloor(c, id, h)
  {
  }

  lemma DisconnectKeeps(c: ClientState, d: ClientState, id: CommandId, h: Ledger)
    requires Tracks(c, id, h) && (Clean(c, id) ==> h.emitted == [])
    requires d == c.(socket := d.socket, authenticated := d.authenticated, sent := [])
    ensures Tracks(d, id, h.(floor := NextFloor(c, id, h))) && (Clean(d, id) ==> h.emitted == [])
  {
    hide Genuine, Sequences, HasClaim, HasCompletion, ClaimsLast, Flatten, ByteCount, WithinLimits, Increasing, AtLeast, Below, NextFloor;
    FloorRises(c, id, h);
    LogEmpty(id, h.emitted);
    LogGenuine(c.buffer, id, h.emitted, []);
    assert [] + Sequences(c.buffer, id) == Sequences(c.buffer, id);
  }

  /** After a crash and recovery every row is completed, and one that is still clean has
      emitted nothing. */
  lemma RestartKeeps(c: ClientState, id: CommandId, h: Ledger)
    requires Tracks(c, id, h)
    ensures Tracks(Restart(c), id, h.(floor := NextFloor(c, id, h)))
    ensures Clean(Restart(c), id) ==> h.emitted == []
  {
    hide Genuine, Sequences, HasClaim, HasCompletion, ClaimsLast, Flatten, ByteCount, WithinLimits, Below, NextFloor;
    FloorRises(c, id, h);
    LogEmpty(id, h.emitted);
  }
}
