/** The Client's message buffer stays within its caps, and every turn leaves nothing
    buffered behind a usable connection. */
module BufferBounds {
  import opened Wire
  import opened ClientOutput
  import opened OutputProtocol
  import J = Journal

  ghost predicate Bounded(c: ClientState) {
    && |c.buffer| <= Max(c.limits.messages, 1)
    && BufferedBytes(c.buffer) <= c.limits.bytes
  }

  /** Outside a flush an authenticated open socket leaves nothing buffered. */
  ghost predicate Orderly(c: ClientState) {
    && Bounded(c)
    && (c.authenticated && c.socket == Open ==> c.buffer == [])
    && (c.socket == Absent ==> !c.authenticated && c.sent == [])
    && (c.stopped ==> !c.authenticated && c.socket != Open)
  }

  lemma BytesPush(ms: seq<ClientMessage>, m: ClientMessage)
    ensures BufferedBytes(ms + [m]) == BufferedBytes(ms) + OutputBytes(m)
  {
    assert (ms + [m])[..|ms|] == ms;
  }

  lemma {:induction false} BytesConcat(a: seq<ClientMessage>, b: seq<ClientMessage>)
    ensures BufferedBytes(a + b) == BufferedBytes(a) + BufferedBytes(b)
  {
    if b == [] {
      assert a + b == a;
    } else {
      var front := b[..|b| - 1];
      BytesConcat(a, front);
      assert a + b == (a + front) + [b[|b| - 1]];
      BytesPush(a + front, b[|b| - 1]);
    }
  }

  lemma {:induction false} BytesMarked(ms: seq<ClientMessage>, ids: set<CommandId>)
    ensures BufferedBytes(MarkMessages(ms, ids)) == BufferedBytes(ms)
  {
    if ms != [] {
      var front := ms[..|ms| - 1];
      BytesMarked(front, ids);
      assert MarkMessages(ms, ids)[..|ms| - 1] == MarkMessages(front, ids);
    }
  }

  /** Marking flags the completions of the given Commands, and changes no other message. */
  lemma MarkedExactly(ms: seq<ClientMessage>, ids: set<CommandId>)
    ensures |MarkMessages(ms, ids)| == |ms|
    ensures forall i | 0 <= i < |ms| ::
              MarkMessages(ms, ids)[i] == if ms[i].CommandCompleted? && ms[i].commandId in ids
                                          then CommandCompleted(ms[i].commandId, TruncatedResult(ms[i].result)) else ms[i]
  {
  }

  lemma BytesWithout(ms: seq<ClientMessage>, i: nat)
    requires i < |ms|
    ensures BufferedBytes(Without(ms, i)) == BufferedBytes(ms) - OutputBytes(ms[i])
    ensures |Without(ms, i)| == |ms| - 1
  {
    assert ms[..i + 1] == ms[..i] + [ms[i]];
    BytesPush(ms[..i], ms[i]);
    BytesConcat(ms[..i + 1], ms[i + 1..]);
    assert ms == ms[..i + 1] + ms[i + 1..];
    BytesConcat(ms[..i], ms[i + 1..]);
  }

  /** The output the messages carry, one after the other. */
  function OutputData(ms: seq<ClientMessage>): seq<Byte> {
    if ms == [] then []
    else OutputData(ms[..|ms| - 1]) + match ms[|ms| - 1] case CommandOutput(_, _, chunk) => chunk.data case _ => []
  }

  lemma {:induction false} BytesAreData(ms: seq<ClientMessage>)
    ensures BufferedBytes(ms) == |OutputData(ms)|
  {
    if ms != [] {
      BytesAreData(ms[..|ms| - 1]);
    }
  }

  /** There is room for `n` more messages with so many bytes of output in all. */
  predicate HasRoom(c: ClientState, n: nat, bytes: nat) {
    |c.buffer| + n <= c.limits.messages && |OutputData(c.buffer)| + bytes <= c.limits.bytes
  }

  /** What `enqueue` did: an output is taken if and only if its bytes and one more message have
      room, and any other message always; a message that has room is appended, and nothing is
      flagged. */
  predicate Enqueued(c: ClientState, m: ClientMessage, d: ClientState, ok: bool) {
    && (ok <==> (m.CommandOutput? ==> HasRoom(c, 1, |m.chunk.data|)))
    && (ok && |c.buffer| < c.limits.messages ==> d == c.(buffer := c.buffer + [m]))
    && (!ok ==> d.truncated == c.truncated + {m.commandId} && |d.buffer| == |c.buffer|)
  }

  lemma EnqueuesExactly(c: ClientState, m: ClientMessage)
    ensures Enqueued(c, m, Enqueue(c, m).0, Enqueue(c, m).1)
  {
    hide MarkMessages, J.TruncateRows, BufferedBytes, OutputData;
    BytesAreData(c.buffer);
  }

  lemma EnqueueBounded(c: ClientState, m: ClientMessage)
    requires Bounded(c)
    ensures Bounded(Enqueue(c, m).0)
  {
    hide BufferedBytes, Without, J.TruncateRows;
    BytesPush(c.buffer, m);
    if IsOutput(m) {
      BytesMarked(c.buffer, {m.commandId});
    } else if |c.buffer| >= c.limits.messages && c.buffer != [] {
      var i := FirstOutput(c.buffer, 0);
      if i < |c.buffer| {
        EvictBounded(c, m, i);
      } else {
        BytesWithout(c.buffer, 0);
        BytesPush(Without(c.buffer, 0), m);
      }
    } else {
      assert c.buffer == [] ==> [m] == c.buffer + [m];
    }
  }

  /** Replacing an output by a message without output bytes. */
  lemma EvictBounded(c: ClientState, m: ClientMessage, i: nat)
    requires Bounded(c) && !IsOutput(m) && i < |c.buffer| && IsOutput(c.buffer[i])
    ensures var ids := {c.buffer[i].commandId};
            var kept := MarkMessages(Without(MarkMessages(c.buffer, ids), i) + [m], ids);
            |kept| == |c.buffer| && BufferedBytes(kept) <= c.limits.bytes
  {
    hide BufferedBytes, Without;
    var ids := {c.buffer[i].commandId};
    var marked := MarkMessages(c.buffer, ids);
    BytesMarked(c.buffer, ids);
    BytesWithout(marked, i);
    BytesPush(Without(marked, i), m);
    BytesMarked(Without(marked, i) + [m], ids);
  }

  lemma EnqueueFrame(c: ClientState, m: ClientMessage)
    ensures var r := Enqueue(c, m).0;
            r.authenticated == c.authenticated && r.socket == c.socket && r.sent == c.sent && r.limits == c.limits
            && r.stopped == c.stopped
  {
  }

  lemma DeliverOrderly(c: ClientState, m: ClientMessage)
    requires Orderly(c)
    ensures Orderly(Deliver(c, m).0)
  {
    hide Enqueue, Bounded;
    var c1 := if IsOutput(m) then MarkUnconfirmed(c, m.commandId) else c;
    SameBounds(c, c1);
    if !(c1.authenticated && c1.socket == Open && c1.sendsLeft > 0) {
      var c2 := if c1.authenticated && c1.socket == Open then c1.(authenticated := false) else c1;
      SameBounds(c1, c2);
      EnqueueBounded(c2, m);
      EnqueueFrame(c2, m);
      SameBounds(Enqueue(c2, m).0, Deliver(c, m).0);
    } else {
      SameBounds(c1, Deliver(c, m).0);
    }
  }

  lemma {:induction false} FlushOrderly(c: ClientState)
    requires Bounded(c) && !c.stopped && (c.socket == Absent ==> !c.authenticated && c.sent == [])
    ensures Orderly(Flush(c))
    decreases |c.buffer|
  {
    if c.authenticated && c.socket == Open && c.buffer != [] && c.sendsLeft > 0 {
      assert c.buffer == [c.buffer[0]] + c.buffer[1..];
      BytesConcat([c.buffer[0]], c.buffer[1..]);
      FlushOrderly(c.(sent := c.sent + [c.buffer[0]], sendsLeft := c.sendsLeft - 1, buffer := c.buffer[1..]));
    }
  }

  lemma {:induction false} ReconcileOrderly(c: ClientState, entries: seq<(CommandId, CommandResult)>)
    requires Orderly(c)
    ensures Orderly(Reconcile(c, entries))
    decreases |entries|
  {
    if entries != [] {
      var m := Completion(c, entries[0].0, entries[0].1);
      DeliverOrderly(c, m);
      ReconcileOrderly(Deliver(c, m).0, entries[1..]);
    }
  }

  lemma TruncateExecutionOrderly(c: ClientState, id: CommandId)
    requires Orderly(c) && id in c.running
    ensures Orderly(TruncateExecution(c, id))
  {
    BytesMarked(c.buffer, {id});
  }

  lemma EmitChunkOrderly(c: ClientState, id: CommandId, chunk: Chunk)
    requires Orderly(c) && id in c.running
    ensures Orderly(EmitChunk(c, id, chunk).0)
  {
    var m := CommandOutput(id, c.running[id].sequence, chunk);
    DeliverOrderly(c, m);
    TruncateExecutionOrderly(Deliver(c, m).0, id);
  }

  lemma {:induction false} EmitChunksOrderly(c: ClientState, id: CommandId, stream: Stream, data: seq<Byte>)
    requires Orderly(c) && id in c.running
    ensures Orderly(EmitChunks(c, id, stream, data).0)
    decreases |data|
  {
    if data != [] {
      var chunk := NextChunk(stream, data);
      EmitChunkOrderly(c, id, chunk);
      var (c1, ok) := EmitChunk(c, id, chunk);
      if ok {
        EmitChunksOrderly(c1, id, stream, data[|chunk.data|..]);
      }
    }
  }

  /** Every turn keeps the buffer within its caps and empty behind a usable connection. */
  lemma StepOrderly(w: World, s: Step)
    requires Enabled(w, s) && Orderly(w.client)
    ensures Orderly(Apply(w, s).client)
  {
    var c := w.client;
    BytesMarked(c.buffer, c.unconfirmed);
    match s {
      case ReceiveStart(id, admission) =>
        StartOrderly(c, id, admission);
      case ReceiveCancel(id) =>
        CancelOrderly(c, id);
      case ProcessOutput(id, stream, data) =>
        EmitOrderly(c, id, stream, data);
      case LateOutput(life, stream, data) =>
        if life.id in c.orphans {
          LateOrderly(c, life.id, stream, data);
        }
      case ExecutionEnds(id, ending) =>
        FinishOrderly(c, id, ending);
      case ReceiveAuthenticated =>
        FlushOrderly(c.(authenticated := true));
        var c1 := Flush(c.(authenticated := true));
        ReconcileOrderly(c1, J.ResultsForReconciliation(c1.journal));
      case _ =>
    }
  }

  lemma StartOrderly(c: ClientState, id: CommandId, admission: Option<string>)
    requires Orderly(c)
    ensures Orderly(Start(c, id, admission))
  {
    var (journal, receipt) := J.Receive(c.journal, id);
    var c1 := c.(journal := journal);
    var previous := J.ResultOf(journal, id);
    if receipt == J.AlreadyCompleted && previous.Some? {
      DeliverOrderly(c1, Completion(c1, id, previous.value));
    } else if receipt == J.New {
      var limit := Min(DEFAULT_COMMAND_OUTPUT_BYTES, c.limits.commandBytes);
      DeliverOrderly(c1.(running := c1.running[id := Execution(0, 0, false, limit)],
                         journal := J.MarkRunning(c1.journal, id)), CommandStarted(id));
      var refused := CommandResult(Failed, None, Some(admission.GetOr(EXCEEDS_POLICY)), false);
      var c2 := c1.(journal := J.Complete(c1.journal, id, refused));
      DeliverOrderly(c2, Completion(c2, id, refused));
    }
  }

  lemma CompleteOrderly(c: ClientState, id: CommandId, result: CommandResult)
    requires Orderly(c)
    ensures Orderly(SendCompletion(c, id, result)) && Orderly(CompleteAndSend(c, id, result))
  {
    hide Deliver, Bounded;
    var d := c.(journal := J.Complete(c.journal, id, result));
    assert Bounded(d) by { SameBounds(c, d); }
    DeliverOrderly(c, Completion(c, id, result));
    DeliverOrderly(d, Completion(d, id, result));
  }

  lemma SameBounds(c: ClientState, d: ClientState)
    requires Bounded(c) && d.buffer == c.buffer && d.limits == c.limits
    ensures Bounded(d)
  {
  }

  lemma CancelOrderly(c: ClientState, id: CommandId)
    requires Orderly(c)
    ensures Orderly(Cancel(c, id))
  {
    hide SendCompletion, CompleteAndSend, Bounded;
    var previous := J.ResultOf(c.journal, id);
    if previous.Some? {
      CompleteOrderly(c, id, previous.value);
    }
    var c1 := c.(journal := J.Receive(c.journal, id).0);
    assert Bounded(c1) by { SameBounds(c, c1); }
    CompleteOrderly(c1, id, CommandResult(Cancelled, None, Some("Command was cancelled before execution started"), false));
    CompleteOrderly(c1, id, CommandResult(ExecutionUnknown, None,
                                          Some("Command execution state was unavailable when cancellation arrived"), false));
  }

  lemma EmitOrderly(c: ClientState, id: CommandId, stream: Stream, data: seq<Byte>)
    requires Orderly(c) && id in c.running
    ensures Orderly(Emit(c, id, stream, data).0)
  {
    hide EmitChunks, TruncateExecution, Bounded;
    SameBounds(c, c.(running := c.running[id := c.running[id].(truncated := true)]));
    TruncateExecutionOrderly(c, id);
    var e := c.running[id];
    if !(id in c.truncated || e.truncated || e.limit <= e.outputBytes) {
      var taken := Min(e.limit - e.outputBytes, |data|);
      EmitChunksOrderly(c, id, stream, data[..taken]);
      TruncateExecutionOrderly(EmitChunks(c, id, stream, data[..taken]).0, id);
    }
  }

  lemma FinishOrderly(c: ClientState, id: CommandId, ending: Ending)
    requires Orderly(c) && id in c.running
    ensures Orderly(Finish(c, id, ending))
  {
    var result := FinalResult(ending, c.running[id].truncated || id in c.truncated);
    var c0 := c.(journal := J.Complete(c.journal, id, result));
    DeliverOrderly(c0, Completion(c0, id, result));
    var c1 := CompleteAndSend(c, id, result);
    BytesMarked(c1.buffer, c1.unconfirmed);
  }

  lemma LateOrderly(c: ClientState, id: CommandId, stream: Stream, data: seq<Byte>)
    requires Orderly(c) && id in c.orphans
    ensures Orderly(EmitLate(c, id, stream, data))
  {
    hide Emit, Bounded;
    var e := c.(running := c.running[id := c.orphans[id]]);
    SameBounds(c, e);
    EmitOrderly(e, id, stream, data);
    SameBounds(Emit(e, id, stream, data).0, EmitLate(c, id, stream, data));
  }
}
