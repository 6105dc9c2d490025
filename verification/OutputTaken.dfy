/** What the Client takes: every message for which the connection or the buffer has room, and
    of an execution's output as much as its limit allows, whole, in order and without a flag. */
module OutputTaken {
  import opened Wire
  import opened ClientOutput
  import opened BufferBounds
  import opened ClientProgress
  import J = Journal

  // ---------- One message ----------

  predicate Usable(c: ClientState) {
    c.authenticated && c.socket == Open && c.sendsLeft > 0
  }

  /** Nothing is flagged: the journal's rows are at most noted as unconfirmed. */
  ghost predicate Unflagged(c: ClientState, d: ClientState) {
    && d.truncated == c.truncated && d.journal.order == c.journal.order && d.journal.rows.Keys == c.journal.rows.Keys
    && forall id | id in c.journal.rows ::
         d.journal.rows[id] == c.journal.rows[id].(unconfirmed := d.journal.rows[id].unconfirmed)
  }

  lemma UnflaggedTrans(a: ClientState, b: ClientState, c: ClientState)
    requires Unflagged(a, b) && Unflagged(b, c)
    ensures Unflagged(a, c)
  {
  }

  lemma NotingFlagsNothing(c: ClientState, m: ClientMessage)
    ensures Unflagged(c, Noted(c, m))
    ensures var n := Noted(c, m);
            n == c.(journal := n.journal, unconfirmed := c.unconfirmed + if m.CommandOutput? then {m.commandId} else {})
  {
    assert c.unconfirmed + {} == c.unconfirmed;
    assert m.CommandOutput? && m.commandId in c.unconfirmed ==> c.unconfirmed + {m.commandId} == c.unconfirmed;
  }

  /** On a usable connection a message is sent, and nothing waits; otherwise one for which the
      buffer has room is appended to it.  Either way it is accepted and nothing is flagged. */
  lemma DeliverTakes(c: ClientState, m: ClientMessage)
    requires Usable(c) || (if m.CommandOutput? then HasRoom(c, 1, |m.chunk.data|) else |c.buffer| < c.limits.messages)
    ensures var (d, ok) := Deliver(c, m);
            && ok && d.accepted == c.accepted + [m] && Unflagged(c, d) && d.socket == c.socket
            && d.unconfirmed == c.unconfirmed + (if m.CommandOutput? then {m.commandId} else {})
            && (if Usable(c) then d.sent == c.sent + [m] && d.buffer == c.buffer && d.authenticated && d.sendsLeft == c.sendsLeft - 1
                else d.sent == c.sent && d.buffer == c.buffer + [m] && !Usable(d) && d.sendsLeft == c.sendsLeft
                     && (d.authenticated ==> c.authenticated && c.socket != Open))
  {
    hide Enqueue, Unflagged, MarkUnconfirmed, OutputData;
    NotingFlagsNothing(c, m);
    var c1 := Noted(c, m);
    var c2 := if c1.authenticated && c1.socket == Open then c1.(authenticated := false) else c1;
    EnqueuesExactly(c2, m);
    FlagsIgnoreConnection(c, c1, Deliver(c, m).0);
  }

  /** An output for which there is room nowhere is refused, and its Command flagged. */
  lemma DeliverRefuses(c: ClientState, m: ClientMessage)
    requires !Usable(c) && m.CommandOutput? && !HasRoom(c, 1, |m.chunk.data|)
    ensures var (d, ok) := Deliver(c, m);
            !ok && d.accepted == c.accepted && d.sent == c.sent && |d.buffer| == |c.buffer| && d.truncated == c.truncated + {m.commandId}
  {
    hide Enqueue, Unflagged, MarkUnconfirmed, OutputData;
    NotingFlagsNothing(c, m);
    var c1 := Noted(c, m);
    EnqueuesExactly(if c1.authenticated && c1.socket == Open then c1.(authenticated := false) else c1, m);
    FlagsNothing(c, c1);
  }

  lemma FlagsIgnoreConnection(c: ClientState, n: ClientState, d: ClientState)
    requires Unflagged(c, n) && d.journal == n.journal && d.truncated == n.truncated
    ensures Unflagged(c, d)
  {
  }

  /** What a delivery did: sent on a usable connection; otherwise buffered, unless it was an
      output for which there was no room. */
  ghost predicate Delivered(c: ClientState, m: ClientMessage, d: ClientState, ok: bool) {
    && d.accepted == (if ok then c.accepted + [m] else c.accepted)
    && (if Usable(c) then ok && d.authenticated && d.sent == c.sent + [m] && d.buffer == c.buffer && d.truncated == c.truncated
        else
          && d.sent == c.sent
          && (ok <==> (m.CommandOutput? ==> HasRoom(c, 1, |m.chunk.data|)))
          && (ok && |c.buffer| < c.limits.messages ==> d.buffer == c.buffer + [m] && d.truncated == c.truncated)
          && (!ok ==> |d.buffer| == |c.buffer| && d.truncated == c.truncated + {m.commandId}))
  }

  lemma DeliversExactly(c: ClientState, m: ClientMessage)
    ensures Delivered(c, m, Deliver(c, m).0, Deliver(c, m).1)
  {
    hide Deliver, Unflagged, OutputData;
    if Usable(c) || (if m.CommandOutput? then HasRoom(c, 1, |m.chunk.data|) else |c.buffer| < c.limits.messages) {
      DeliverTakes(c, m);
      FlagsNothing(c, Deliver(c, m).0);
    } else if m.CommandOutput? {
      DeliverRefuses(c, m);
    } else {
      MakesRoom(c, m);
    }
  }

  /** A message that is not output is taken even if another one has to go. */
  lemma MakesRoom(c: ClientState, m: ClientMessage)
    requires !m.CommandOutput? && !Usable(c)
    ensures var (d, ok) := Deliver(c, m);
            ok && d.accepted == c.accepted + [m] && d.sent == c.sent
  {
    hide MarkMessages, J.TruncateRows, BufferedBytes;
  }

  // ---------- The chunks of one output ----------

  /** How many chunks so many bytes take. */
  function Pieces(bytes: nat): nat {
    (bytes + CHUNK_BYTES - 1) / CHUNK_BYTES
  }

  /** The connection takes `n` more messages, or the buffer has room for all of them. */
  predicate Fits(c: ClientState, n: nat, bytes: nat) {
    (c.authenticated && c.socket == Open && c.sendsLeft >= n) || HasRoom(c, n, bytes)
  }

  function Outputs(id: CommandId, first: nat, chunks: seq<Chunk>): (ms: seq<ClientMessage>)
    ensures |ms| == |chunks|
    ensures forall i | 0 <= i < |chunks| :: ms[i] == CommandOutput(id, first + i, chunks[i])
  {
    seq(|chunks|, i requires 0 <= i < |chunks| => CommandOutput(id, first + i, chunks[i]))
  }

  /** Nothing waits behind a usable connection. */
  predicate Prompt(c: ClientState) {
    c.authenticated && c.socket == Open ==> c.buffer == []
  }

  /** The Client took the messages and flagged nothing. */
  ghost predicate Took(c: ClientState, d: ClientState, ms: seq<ClientMessage>) {
    && d.accepted == c.accepted + ms
    && d.sent + d.buffer == c.sent + c.buffer + ms
    && Unflagged(c, d)
  }

  lemma TookTrans(a: ClientState, b: ClientState, c: ClientState, ms: seq<ClientMessage>, ns: seq<ClientMessage>)
    requires Took(a, b, ms) && Took(b, c, ns)
    ensures Took(a, c, ms + ns)
  {
    hide Unflagged;
    UnflaggedTrans(a, b, c);
    assert a.accepted + (ms + ns) == (a.accepted + ms) + ns;
    assert a.sent + a.buffer + (ms + ns) == (a.sent + a.buffer + ms) + ns;
  }

  lemma TookNothing(c: ClientState)
    ensures Took(c, c, [])
  {
  }

  lemma DeliverTook(c: ClientState, m: ClientMessage, n: nat, bytes: nat)
    requires m.CommandOutput? && Prompt(c) && Fits(c, n + 1, |m.chunk.data| + bytes)
    ensures var (d, ok) := Deliver(c, m);
            ok && Took(c, d, [m]) && Prompt(d) && Fits(d, n, bytes)
  {
    hide Deliver, Unflagged, OutputData;
    DeliverTakes(c, m);
    var d := Deliver(c, m).0;
    assert d.limits == c.limits && d.socket == c.socket;
    if Usable(c) {
      assert d.sent + d.buffer == c.sent + c.buffer + [m];
      assert d.buffer == [] ==> OutputData(d.buffer) == [] by { NothingBuffered(); }
    } else {
      assert d.sent + d.buffer == c.sent + c.buffer + [m];
      DataPush(c.buffer, m);
    }
  }

  lemma NothingBuffered()
    ensures OutputData([]) == []
  {
  }

  lemma DataPush(ms: seq<ClientMessage>, m: ClientMessage)
    ensures OutputData(ms + [m]) == OutputData(ms) + if m.CommandOutput? then m.chunk.data else []
  {
    assert (ms + [m])[..|ms|] == ms;
  }

  /** What an execution has handed out after `chunks` more. */
  function Advanced(e: Execution, chunks: seq<Chunk>): Execution {
    e.(sequence := e.sequence + |chunks|, outputBytes := e.outputBytes + ByteCount(chunks))
  }

  lemma ChunkIsTaken(c: ClientState, id: CommandId, chunk: Chunk, n: nat, bytes: nat)
    requires id in c.running && Prompt(c) && Fits(c, n + 1, |chunk.data| + bytes)
    ensures var (d, ok) := EmitChunk(c, id, chunk);
            && ok && Took(c, d, Outputs(id, c.running[id].sequence, [chunk])) && Prompt(d) && Fits(d, n, bytes)
            && d.running == c.running[id := Advanced(c.running[id], [chunk])]
  {
    hide Deliver, Unflagged, OutputData, HasRoom;
    var m := CommandOutput(id, c.running[id].sequence, chunk);
    DeliverTook(c, m, n, bytes);
    assert Outputs(id, c.running[id].sequence, [chunk]) == [m];
    OneChunk(chunk);
    RunningAside(Deliver(c, m).0, EmitChunk(c, id, chunk).0);
  }

  lemma OneChunk(chunk: Chunk)
    ensures ByteCount([chunk]) == |chunk.data| && Flatten([chunk]) == Tag(chunk.stream, chunk.data)
  {
    NothingFlattens();
    FlattenPush([], chunk);
    assert [] + [chunk] == [chunk];
    assert [] + Tag(chunk.stream, chunk.data) == Tag(chunk.stream, chunk.data);
  }

  lemma RunningAside(d: ClientState, e: ClientState)
    requires e == d.(running := e.running)
    ensures forall c, ms | Took(c, d, ms) :: Took(c, e, ms)
    ensures Prompt(e) == Prompt(d) && forall n, bytes :: Fits(e, n, bytes) == Fits(d, n, bytes)
  {
  }

  lemma PiecesOfRest(stream: Stream, data: seq<Byte>)
    requires data != []
    ensures var chunk := NextChunk(stream, data);
            && 0 < |chunk.data| <= |data| && |data| == |chunk.data| + |data[|chunk.data|..]|
            && Pieces(|data|) == Pieces(|data[|chunk.data|..]|) + 1
            && Tag(stream, data) == Tag(stream, chunk.data) + Tag(stream, data[|chunk.data|..])
  {
  }

  /** Data that fits is taken whole, in chunks of at most 256 KiB. */
  lemma {:induction false} ChunksAreTaken(c: ClientState, id: CommandId, stream: Stream, data: seq<Byte>)
    requires id in c.running && Prompt(c) && Fits(c, Pieces(|data|), |data|)
    ensures var (d, chunks) := EmitChunks(c, id, stream, data);
            && Flatten(chunks) == Tag(stream, data) && ByteCount(chunks) == |data| && |chunks| == Pieces(|data|)
            && Took(c, d, Outputs(id, c.running[id].sequence, chunks)) && Prompt(d)
            && d.running == c.running[id := Advanced(c.running[id], chunks)]
    decreases |data|
  {
    hide EmitChunk, NextChunk, Took, Fits, Prompt, Flatten, ByteCount, Pieces, Tag, Advanced, Outputs;
    if data == [] {
      NothingFlattens();
      TookNothing(c);
      NoPieces(stream);
      assert Outputs(id, c.running[id].sequence, []) == [];
      AdvancedByNone(c.running[id]);
      assert c.running == c.running[id := c.running[id]];
    } else {
      var chunk := NextChunk(stream, data);
      var rest := data[|chunk.data|..];
      PiecesOfRest(stream, data);
      ChunkIsTaken(c, id, chunk, Pieces(|rest|), |rest|);
      var c1 := EmitChunk(c, id, chunk).0;
      ChunksAreTaken(c1, id, stream, rest);
      var (d, chunks) := EmitChunks(c1, id, stream, rest);
      var first := c.running[id].sequence;
      AdvancedTwice(c.running[id], chunk, chunks);
      OutputsSplit(id, first, chunk, chunks);
      TookTrans(c, c1, d, Outputs(id, first, [chunk]), Outputs(id, first + 1, chunks));
      OneChunk(chunk);
      FlattenConcat([chunk], chunks);
      StreamOfNext(stream, data);
    }
  }

  lemma AdvancedByNone(e: Execution)
    ensures Advanced(e, []) == e
  {
    NothingFlattens();
  }

  lemma AdvancedTwice(e: Execution, chunk: Chunk, chunks: seq<Chunk>)
    ensures Advanced(e, [chunk]).sequence == e.sequence + 1
    ensures Advanced(Advanced(e, [chunk]), chunks) == Advanced(e, [chunk] + chunks)
  {
    FlattenConcat([chunk], chunks);
  }

  lemma OutputsSplit(id: CommandId, first: nat, chunk: Chunk, chunks: seq<Chunk>)
    ensures Outputs(id, first, [chunk] + chunks) == Outputs(id, first, [chunk]) + Outputs(id, first + 1, chunks)
  {
  }

  lemma NoPieces(stream: Stream)
    ensures Pieces(0) == 0 && Tag(stream, []) == []
  {
  }

  lemma StreamOfNext(stream: Stream, data: seq<Byte>)
    ensures NextChunk(stream, data).stream == stream
  {
  }

  // ---------- The limit ----------

  /** How much of its data an execution may still hand out. */
  function Taken(e: Execution, data: seq<Byte>): seq<Byte>
    requires e.outputBytes <= e.limit
  {
    data[..Min(e.limit - e.outputBytes, |data|)]
  }

  /** The Client took the messages and then flagged the Command, and no other one. */
  ghost predicate FlaggedOnly(c: ClientState, d: ClientState, id: CommandId) {
    && d.truncated == c.truncated + {id} && d.journal.rows.Keys == c.journal.rows.Keys
    && (id in c.journal.rows ==> d.journal.rows[id].truncated)
    && forall x | x in c.journal.rows && x != id ::
         d.journal.rows[x] == c.journal.rows[x].(unconfirmed := d.journal.rows[x].unconfirmed)
  }

  lemma FlagsAfterwards(c: ClientState, d: ClientState, id: CommandId)
    requires Unflagged(c, d)
    ensures FlaggedOnly(c, MarkTruncated(d, {id}), id)
  {
  }

  /** Output of an execution that nothing is lost of, as far as the limit allows and as it
      fits, is taken; nothing is flagged unless there was more, or the limit had been reached. */
  lemma EmitTakes(c: ClientState, id: CommandId, stream: Stream, data: seq<Byte>)
    requires id in c.running && id !in c.truncated && !c.running[id].truncated && c.running[id].outputBytes <= c.running[id].limit
    requires Prompt(c)
    requires var taken := Taken(c.running[id], data); Fits(c, Pieces(|taken|), |taken|)
    ensures var (d, chunks) := Emit(c, id, stream, data);
            var e := c.running[id];
            && Flatten(chunks) == Tag(stream, Taken(e, data)) && ByteCount(chunks) == |Taken(e, data)|
            && d.accepted == c.accepted + Outputs(id, e.sequence, chunks)
            && d.running - {id} == c.running - {id}
            && (if e.outputBytes < e.limit && |data| <= e.limit - e.outputBytes then
                  && Took(c, d, Outputs(id, e.sequence, chunks))
                  && d.running[id] == Advanced(e, chunks)
                else
                  FlaggedOnly(c, d, id) && d.running[id] == Advanced(e, chunks).(truncated := true))
  {
    hide EmitChunks, MarkTruncated, Fits, Prompt, Flatten, ByteCount, Pieces, Tag, Unflagged, FlaggedOnly;
    var e := c.running[id];
    if e.limit <= e.outputBytes {
      assert Taken(e, data) == [];
      NothingFlattens();
      NoPieces(stream);
      assert Outputs(id, e.sequence, []) == [];
      UnflaggedSelf(c);
      FlagsAfterwards(c, c, id);
      MarkKeepsAccepted(c, id);
      FlaggedAside(c, MarkTruncated(c, {id}), TruncateExecution(c, id), id);
    } else {
      var taken := Taken(e, data);
      ChunksAreTaken(c, id, stream, taken);
      var (c1, chunks) := EmitChunks(c, id, stream, taken);
      if |taken| < |data| {
        assert id !in c1.truncated by { FlagsNothing(c, c1); }
        FlagsAfterwards(c, c1, id);
        MarkKeepsAccepted(c1, id);
        FlaggedAside(c, MarkTruncated(c1, {id}), TruncateExecution(c1, id), id);
      }
    }
  }

  lemma UnflaggedSelf(c: ClientState)
    ensures Unflagged(c, c)
  {
  }

  lemma FlagsNothing(c: ClientState, d: ClientState)
    requires Unflagged(c, d)
    ensures d.truncated == c.truncated
  {
  }

  lemma MarkKeepsAccepted(c: ClientState, id: CommandId)
    ensures MarkTruncated(c, {id}).accepted == c.accepted && MarkTruncated(c, {id}).running == c.running
  {
  }

  lemma FlaggedAside(c: ClientState, d: ClientState, e: ClientState, id: CommandId)
    requires FlaggedOnly(c, d, id) && e == d.(running := e.running)
    ensures FlaggedOnly(c, e, id)
  {
  }

  /** Output that arrives after its execution has ended is taken in the same way, on top of
      what the execution had handed out; the executions still going on are left alone. */
  lemma LateIsTaken(c: ClientState, id: CommandId, stream: Stream, data: seq<Byte>) returns (chunks: seq<Chunk>)
    requires id in c.orphans && id !in c.truncated && !c.orphans[id].truncated && c.orphans[id].outputBytes <= c.orphans[id].limit
    requires Prompt(c)
    requires var taken := Taken(c.orphans[id], data); Fits(c, Pieces(|taken|), |taken|)
    ensures Flatten(chunks) == Tag(stream, Taken(c.orphans[id], data))
    ensures var (d, e) := (EmitLate(c, id, stream, data), c.orphans[id]);
            && d.accepted == c.accepted + Outputs(id, e.sequence, chunks)
            && d.running == c.running && d.orphans.Keys == c.orphans.Keys
            && d.orphans[id] == Advanced(e, chunks).(truncated := d.orphans[id].truncated)
            && (d.orphans[id].truncated <==> !(e.outputBytes < e.limit && |data| <= e.limit - e.outputBytes))
  {
    hide Emit, Outputs, Flatten, Tag, Unflagged, FlaggedOnly, Advanced;
    var d := c.(running := c.running[id := c.orphans[id]]);
    RunningIsAside(c, d);
    EmitTakes(d, id, stream, data);
    chunks := Emit(d, id, stream, data).1;
    AdvancedKeepsFlag(c.orphans[id], chunks);
  }

  lemma RunningIsAside(c: ClientState, d: ClientState)
    requires d == c.(running := d.running)
    ensures Prompt(d) == Prompt(c) && forall n, bytes :: Fits(d, n, bytes) == Fits(c, n, bytes)
  {
  }

  lemma AdvancedKeepsFlag(e: Execution, chunks: seq<Chunk>)
    ensures Advanced(e, chunks).truncated == e.truncated
  {
  }

  // ---------- A new connection ----------

  /** A flush sends what waits, oldest first, until nothing is left or a send fails, and only
      then counts the connection as lost. */
  lemma {:induction false} FlushSends(c: ClientState)
    requires c.authenticated && c.socket == Open
    ensures var k := Min(c.sendsLeft, |c.buffer|);
            Flush(c) == c.(sent := c.sent + c.buffer[..k], buffer := c.buffer[k..], sendsLeft := c.sendsLeft - k,
                           authenticated := k == |c.buffer|)
    decreases |c.buffer|
  {
    hide SameButWire;
    if c.buffer == [] || c.sendsLeft == 0 {
      assert c.sent + c.buffer[..0] == c.sent;
    } else {
      var d := c.(sent := c.sent + [c.buffer[0]], sendsLeft := c.sendsLeft - 1, buffer := c.buffer[1..]);
      FlushSends(d);
      var k := Min(d.sendsLeft, |d.buffer|);
      assert d.sent + d.buffer[..k] == c.sent + c.buffer[..k + 1];
      assert d.buffer[k..] == c.buffer[k + 1..];
    }
  }

  /** What a flush did: nothing without an authenticated open connection. */
  ghost predicate Flushed(c: ClientState, d: ClientState) {
    if c.authenticated && c.socket == Open then
      var k := Min(c.sendsLeft, |c.buffer|);
      && d.sent == c.sent + c.buffer[..k] && d.buffer == c.buffer[k..] && (d.authenticated <==> k == |c.buffer|)
      && d.truncated == c.truncated && d.journal == c.journal
    else d == c
  }

  lemma FlushesExactly(c: ClientState)
    ensures Flushed(c, Flush(c))
  {
    hide SameButWire;
    if c.authenticated && c.socket == Open {
      FlushSends(c);
    }
  }

  /** While the connection takes them, the results are sent one after the other. */
  lemma {:induction false} ResultsAreSent(c: ClientState, entries: seq<(CommandId, CommandResult)>)
    requires c.authenticated && c.socket == Open && c.sendsLeft >= |entries|
    ensures var d := Reconcile(c, entries);
            && d.authenticated && d.buffer == c.buffer && d.truncated == c.truncated
            && |d.sent| == |c.sent| + |entries| && c.sent <= d.sent
            && forall i | 0 <= i < |entries| :: d.sent[|c.sent| + i] == Completion(c, entries[i].0, entries[i].1)
    decreases |entries|
  {
    hide Deliver, Completion, SameButWire, Unflagged;
    if entries != [] {
      var m := Completion(c, entries[0].0, entries[0].1);
      DeliverTakes(c, m);
      var d := Deliver(c, m).0;
      assert d.truncated == c.truncated by { FlagsNothing(c, d); }
      forall e | e in entries
        ensures Completion(d, e.0, e.1) == Completion(c, e.0, e.1)
      {
        CompletionsAgree(c, d, e.0, e.1);
      }
      ResultsAreSent(d, entries[1..]);
      var f := Reconcile(d, entries[1..]);
      forall i | 0 <= i < |entries|
        ensures f.sent[|c.sent| + i] == Completion(c, entries[i].0, entries[i].1)
      {
        assert i > 0 ==> entries[i] == entries[1..][i - 1] && entries[i] in entries;
      }
    }
  }

  lemma CompletionsAgree(c: ClientState, d: ClientState, id: CommandId, result: CommandResult)
    requires d.truncated == c.truncated
    ensures Completion(d, id, result) == Completion(c, id, result)
  {
  }

  /** If the connection takes enough messages, everything that waited was sent and then the
      completion of every stored result, and nothing waits any more. */
  ghost predicate Reconnected(c: ClientState, d: ClientState) {
    var entries := J.ResultsForReconciliation(c.journal);
    c.socket == Open && c.sendsLeft >= |c.buffer| + |entries| ==>
      && d.authenticated && d.buffer == [] && |d.sent| == |c.sent| + |c.buffer| + |entries|
      && c.sent + c.buffer <= d.sent
      && forall i | 0 <= i < |entries| :: d.sent[|c.sent| + |c.buffer| + i] == Completion(c, entries[i].0, entries[i].1)
  }

  lemma AuthenticationDelivers(c: ClientState)
    ensures Reconnected(c, ClientOutput.Authenticated(c))
  {
    hide Flush, Reconcile, Completion;
    var entries := J.ResultsForReconciliation(c.journal);
    if c.socket == Open && c.sendsLeft >= |c.buffer| + |entries| {
      FlushSends(c.(authenticated := true));
      var d := Flush(c.(authenticated := true));
      assert c.buffer[..|c.buffer|] == c.buffer && c.buffer[|c.buffer|..] == [];
      ResultsAreSent(d, entries);
      forall i | 0 <= i < |entries|
        ensures Completion(d, entries[i].0, entries[i].1) == Completion(c, entries[i].0, entries[i].1)
      {
        CompletionsAgree(c, d, entries[i].0, entries[i].1);
      }
    }
  }
}
