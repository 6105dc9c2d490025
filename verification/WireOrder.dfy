/** Messages travel in the order in which `deliver` accepted them: across all connections,
    what was sent and what is still buffered is a subsequence of what was accepted, apart
    from truncation flags raised on completions while they waited. */
module WireOrder {
  import opened Wire
  import opened ClientOutput
  import opened OutputProtocol
  import opened BufferBounds
  import opened OutputHonesty
  import J = Journal

  /** A message without what marking may change: its truncation flag counts as raised. */
  function Erased(m: ClientMessage): ClientMessage {
    if m.CommandCompleted? then m.(result := TruncatedResult(m.result)) else m
  }

  function ErasedAll(ms: seq<ClientMessage>): (r: seq<ClientMessage>)
    ensures |r| == |ms| && forall i | 0 <= i < |ms| :: r[i] == Erased(ms[i])
  {
    seq(|ms|, i requires 0 <= i < |ms| => Erased(ms[i]))
  }

  /** `a` is what remains of `b` after leaving out some elements. */
  predicate Subsequence<T(==)>(a: seq<T>, b: seq<T>)
    decreases |b|
  {
    if a == [] then true
    else if b == [] then false
    else
      || (a[|a| - 1] == b[|b| - 1] && Subsequence(a[..|a| - 1], b[..|b| - 1]))
      || Subsequence(a, b[..|b| - 1])
  }

  lemma SubsequencePush<T>(a: seq<T>, b: seq<T>, x: T)
    requires Subsequence(a, b)
    ensures Subsequence(a + [x], b + [x]) && Subsequence(a, b + [x])
  {
    assert (a + [x])[..|a|] == a && (b + [x])[..|b|] == b;
  }

  function Except<T>(a: seq<T>, i: nat): seq<T>
    requires i < |a|
  {
    a[..i] + a[i + 1..]
  }

  lemma ExceptLast<T>(a: seq<T>, i: nat)
    requires i < |a|
    ensures i == |a| - 1 ==> Except(a, i) == a[..|a| - 1]
    ensures i < |a| - 1 ==> Except(a, i) == Except(a[..|a| - 1], i) + [a[|a| - 1]]
  {
  }

  lemma {:induction false} SubsequenceWithout<T>(a: seq<T>, b: seq<T>, i: nat)
    requires Subsequence(a, b) && i < |a|
    ensures Subsequence(Except(a, i), b)
    decreases |b|
  {
    hide Except;
    var (m, n) := (|a| - 1, |b| - 1);
    assert b == b[..n] + [b[n]];
    if a[m] == b[n] && Subsequence(a[..m], b[..n]) {
      ExceptLast(a, i);
      if i == m {
        SubsequencePush(a[..m], b[..n], b[n]);
      } else {
        SubsequenceWithout(a[..m], b[..n], i);
        SubsequencePush(Except(a[..m], i), b[..n], a[m]);
      }
    } else {
      SubsequenceWithout(a, b[..n], i);
      SubsequencePush(Except(a, i), b[..n], b[n]);
    }
  }

  /** Everything the connections carried before this one. */
  function Carried(links: seq<Link>): seq<ClientMessage> {
    if links == [] then [] else Carried(links[..|links| - 1]) + links[|links| - 1].log
  }

  ghost predicate Ordered(before: seq<ClientMessage>, c: ClientState) {
    Subsequence(ErasedAll(before + c.sent + c.buffer), ErasedAll(c.accepted))
  }

  /** Only the wire, the buffer and the history matter. */
  lemma OrderedFrame(before: seq<ClientMessage>, c: ClientState, d: ClientState)
    requires Ordered(before, c) && d.sent == c.sent && d.accepted == c.accepted && ErasedAll(d.buffer) == ErasedAll(c.buffer)
    ensures Ordered(before, d)
  {
    assert |d.buffer| == |c.buffer|;
    forall i | 0 <= i < |d.buffer|
      ensures Erased(d.buffer[i]) == Erased(c.buffer[i])
    {
      assert ErasedAll(d.buffer)[i] == ErasedAll(c.buffer)[i];
    }
    assert ErasedAll(before + d.sent + d.buffer) == ErasedAll(before + c.sent + c.buffer);
  }

  lemma MarkedIsErased(ms: seq<ClientMessage>, ids: set<CommandId>)
    ensures ErasedAll(MarkMessages(ms, ids)) == ErasedAll(ms)
  {
  }

  lemma MarkOrdered(before: seq<ClientMessage>, c: ClientState, ids: set<CommandId>)
    requires Ordered(before, c)
    ensures Ordered(before, MarkTruncated(c, ids))
  {
    MarkedIsErased(c.buffer, ids);
    OrderedFrame(before, c, MarkTruncated(c, ids));
  }

  /** One more message at the end, of the buffer or of an empty buffer's connection. */
  lemma AcceptOrdered(before: seq<ClientMessage>, c: ClientState, m: ClientMessage)
    requires Ordered(before, c)
    ensures Ordered(before, c.(buffer := c.buffer + [m], accepted := c.accepted + [m]))
    ensures c.buffer == [] ==> Ordered(before, c.(sent := c.sent + [m], accepted := c.accepted + [m]))
  {
    var (a, b) := (before + c.sent + c.buffer, c.accepted);
    SubsequencePush(ErasedAll(a), ErasedAll(b), Erased(m));
    assert ErasedAll(a) + [Erased(m)] == ErasedAll(a + [m]);
    assert ErasedAll(b) + [Erased(m)] == ErasedAll(b + [m]);
    assert before + c.sent + (c.buffer + [m]) == a + [m];
    if c.buffer == [] {
      assert before + (c.sent + [m]) + c.buffer == a + [m];
    }
  }

  lemma DropOrdered(before: seq<ClientMessage>, c: ClientState, i: nat)
    requires Ordered(before, c) && i < |c.buffer|
    ensures Ordered(before, c.(buffer := Without(c.buffer, i)))
  {
    var all := before + c.sent + c.buffer;
    var k := |before + c.sent| + i;
    SubsequenceWithout(ErasedAll(all), ErasedAll(c.accepted), k);
    assert ErasedAll(before + c.sent + Without(c.buffer, i)) == Except(ErasedAll(all), k);
  }

  lemma EnqueueOrdered(before: seq<ClientMessage>, c: ClientState, m: ClientMessage)
    requires Ordered(before, c)
    ensures var (d, ok) := Enqueue(c, m);
            Ordered(before, if ok then d.(accepted := d.accepted + [m]) else d)
  {
    hide Ordered, ErasedAll, Subsequence;
    if IsOutput(m) && (BufferedBytes(c.buffer) + OutputBytes(m) > c.limits.bytes || |c.buffer| >= c.limits.messages) {
      MarkOrdered(before, c, {m.commandId});
    } else if |c.buffer| >= c.limits.messages && c.buffer != [] {
      var i := FirstOutput(c.buffer, 0);
      if i < |c.buffer| {
        EvictOrdered(before, c, m, i);
      } else {
        DropOrdered(before, c, 0);
        AcceptOrdered(before, c.(buffer := Without(c.buffer, 0)), m);
      }
    } else {
      AcceptOrdered(before, c, m);
      assert c.buffer == [] ==> c.buffer + [m] == [m];
    }
  }

  /** What `enqueue` leaves out: nothing; the output itself, which it rejects if and only if
      its bytes or the message have no room; or one message to make room for a message that is
      not output, namely the oldest output, or the oldest message when no output is waiting. */
  lemma DiscardsOneMessage(c: ClientState, m: ClientMessage)
    ensures var (d, ok) := Enqueue(c, m);
            && (!ok <==> m.CommandOutput? && !HasRoom(c, 1, |m.chunk.data|))
            && (!ok ==> ErasedAll(d.buffer) == ErasedAll(c.buffer))
            && (ok && d.buffer != c.buffer + [m] ==>
                  && !IsOutput(m) && |c.buffer| >= c.limits.messages && c.buffer != []
                  && var i := FirstOutput(c.buffer, 0);
                     ErasedAll(d.buffer) == Except(ErasedAll(c.buffer), if i < |c.buffer| then i else 0) + [Erased(m)])
  {
    hide ErasedAll, Erased, J.TruncateRows, HasRoom;
    EnqueuesExactly(c, m);
    if IsOutput(m) {
      MarkedIsErased(c.buffer, {m.commandId});
    }
    if !IsOutput(m) && |c.buffer| >= c.limits.messages && c.buffer != [] {
      var i := FirstOutput(c.buffer, 0);
      if i < |c.buffer| {
        var ids := {c.buffer[i].commandId};
        var marked := MarkMessages(c.buffer, ids);
        MarkedIsErased(c.buffer, ids);
        MarkedIsErased(Without(marked, i) + [m], ids);
        ErasedWithout(marked, i, m);
      } else {
        ErasedWithout(c.buffer, 0, m);
      }
    }
  }

  lemma ErasedWithout(ms: seq<ClientMessage>, i: nat, m: ClientMessage)
    requires i < |ms|
    ensures ErasedAll(Without(ms, i) + [m]) == Except(ErasedAll(ms), i) + [Erased(m)]
  {
  }

  /** The Command of an output that is left out is flagged in memory and in the journal, and
      no completion of it that stays in the buffer claims complete output. */
  lemma DiscardsAreFlagged(c: ClientState, m: ClientMessage, i: nat)
    ensures var (d, ok) := Enqueue(c, m);
            && (!ok ==> Flagged(d, m.commandId))
            && (i == FirstOutput(c.buffer, 0) && i < |c.buffer| && ok && d.buffer != c.buffer + [m] ==>
                  Flagged(d, c.buffer[i].commandId))
            && c.truncated <= d.truncated
  {
    hide J.TruncateRow;
    var d := Enqueue(c, m).0;
    if IsOutput(m) {
      MarkFlags(c, {m.commandId});
    } else if i == FirstOutput(c.buffer, 0) && i < |c.buffer| {
      MarkFlags(c, {c.buffer[i].commandId});
    }
  }

  ghost predicate Flagged(c: ClientState, id: CommandId) {
    && id in c.truncated
    && (id in c.journal.rows ==> c.journal.rows[id].truncated)
    && (forall k | 0 <= k < |c.buffer| && c.buffer[k].CommandCompleted? && c.buffer[k].commandId == id ::
          c.buffer[k].result.outputTruncated)
  }

  lemma MarkFlags(c: ClientState, ids: set<CommandId>)
    ensures forall id | id in ids && id in c.journal.rows :: MarkTruncated(c, ids).journal.rows[id].truncated
  {
  }

  lemma EvictOrdered(before: seq<ClientMessage>, c: ClientState, m: ClientMessage, i: nat)
    requires Ordered(before, c) && i < |c.buffer| && c.buffer[i].CommandOutput?
    ensures var ids := {c.buffer[i].commandId};
            var marked := MarkTruncated(c, ids);
            Ordered(before, marked.(buffer := MarkMessages(Without(marked.buffer, i) + [m], ids), accepted := c.accepted + [m]))
  {
    hide Ordered, Subsequence;
    var ids := {c.buffer[i].commandId};
    var marked := MarkTruncated(c, ids);
    MarkOrdered(before, c, ids);
    DropOrdered(before, marked, i);
    var dropped := marked.(buffer := Without(marked.buffer, i));
    AcceptOrdered(before, dropped, m);
    var accepted := dropped.(buffer := dropped.buffer + [m], accepted := c.accepted + [m]);
    MarkedIsErased(accepted.buffer, ids);
    OrderedFrame(before, accepted, accepted.(buffer := MarkMessages(accepted.buffer, ids)));
  }

  lemma DeliverOrdered(before: seq<ClientMessage>, c: ClientState, m: ClientMessage)
    requires Ordered(before, c) && Orderly(c)
    ensures Ordered(before, Deliver(c, m).0)
  {
    hide Ordered, ErasedAll, Enqueue;
    var c1 := if IsOutput(m) then MarkUnconfirmed(c, m.commandId) else c;
    OrderedFrame(before, c, c1);
    if c1.authenticated && c1.socket == Open && c1.sendsLeft > 0 {
      var c2 := c1.(sent := c1.sent + [m], accepted := c1.accepted + [m]);
      AcceptOrdered(before, c1, m);
      OrderedFrame(before, c2, c2.(sendsLeft := c1.sendsLeft - 1));
    } else {
      var c2 := if c1.authenticated && c1.socket == Open then c1.(authenticated := false) else c1;
      OrderedFrame(before, c1, c2);
      EnqueueOrdered(before, c2, m);
    }
  }

  lemma {:induction false} FlushOrdered(before: seq<ClientMessage>, c: ClientState)
    requires Ordered(before, c)
    ensures Ordered(before, Flush(c))
    decreases |c.buffer|
  {
    if c.authenticated && c.socket == Open && c.buffer != [] {
      if c.sendsLeft == 0 {
        OrderedFrame(before, c, c.(authenticated := false));
      } else {
        var d := c.(sent := c.sent + [c.buffer[0]], sendsLeft := c.sendsLeft - 1, buffer := c.buffer[1..]);
        assert before + d.sent + d.buffer == before + c.sent + c.buffer;
        FlushOrdered(before, d);
      }
    }
  }

  lemma {:induction false} ReconcileOrdered(before: seq<ClientMessage>, c: ClientState, entries: seq<(CommandId, CommandResult)>)
    requires Ordered(before, c) && Orderly(c)
    ensures Ordered(before, Reconcile(c, entries))
    decreases |entries|
  {
    hide Ordered, Orderly, Deliver;
    if entries != [] {
      var m := Completion(c, entries[0].0, entries[0].1);
      DeliverOrdered(before, c, m);
      DeliverOrderly(c, m);
      ReconcileOrdered(before, Deliver(c, m).0, entries[1..]);
    }
  }

  lemma TruncateExecutionOrdered(before: seq<ClientMessage>, c: ClientState, id: CommandId)
    requires Ordered(before, c) && id in c.running
    ensures Ordered(before, TruncateExecution(c, id))
  {
    MarkedIsErased(c.buffer, {id});
    OrderedFrame(before, c, TruncateExecution(c, id));
  }

  lemma EmitChunkOrdered(before: seq<ClientMessage>, c: ClientState, id: CommandId, chunk: Chunk)
    requires Ordered(before, c) && Orderly(c) && id in c.running
    ensures Ordered(before, EmitChunk(c, id, chunk).0)
  {
    hide Ordered, Orderly, Deliver, ErasedAll;
    var m := CommandOutput(id, c.running[id].sequence, chunk);
    DeliverOrdered(before, c, m);
    var (d, ok) := Deliver(c, m);
    if ok {
      OrderedFrame(before, d, EmitChunk(c, id, chunk).0);
    } else {
      TruncateExecutionOrdered(before, d, id);
    }
  }

  lemma {:induction false} EmitChunksOrdered(before: seq<ClientMessage>, c: ClientState, id: CommandId, stream: Stream, data: seq<Byte>)
    requires Ordered(before, c) && Orderly(c) && id in c.running
    ensures Ordered(before, EmitChunks(c, id, stream, data).0)
    decreases |data|
  {
    hide Ordered, Orderly, EmitChunk;
    if data != [] {
      var chunk := NextChunk(stream, data);
      EmitChunkOrdered(before, c, id, chunk);
      EmitChunkOrderly(c, id, chunk);
      var (c1, ok) := EmitChunk(c, id, chunk);
      if ok {
        EmitChunksOrdered(before, c1, id, stream, data[|chunk.data|..]);
      }
    }
  }

  lemma EmitOrdered(before: seq<ClientMessage>, c: ClientState, id: CommandId, stream: Stream, data: seq<Byte>)
    requires Ordered(before, c) && Orderly(c) && id in c.running
    ensures Ordered(before, Emit(c, id, stream, data).0)
  {
    hide Ordered, Orderly, EmitChunks, TruncateExecution, ErasedAll;
    var e := c.running[id];
    if id in c.truncated || e.truncated {
      OrderedFrame(before, c, Emit(c, id, stream, data).0);
    } else if e.limit <= e.outputBytes {
      TruncateExecutionOrdered(before, c, id);
    } else {
      var taken := Min(e.limit - e.outputBytes, |data|);
      EmitChunksOrdered(before, c, id, stream, data[..taken]);
      if taken < |data| {
        TruncateExecutionOrdered(before, EmitChunks(c, id, stream, data[..taken]).0, id);
      }
    }
  }

  lemma LateOrdered(before: seq<ClientMessage>, c: ClientState, id: CommandId, stream: Stream, data: seq<Byte>)
    requires Ordered(before, c) && Orderly(c) && id in c.orphans
    ensures Ordered(before, EmitLate(c, id, stream, data))
  {
    hide Ordered, Bounded, Emit, ErasedAll;
    var c1 := c.(running := c.running[id := c.orphans[id]]);
    OrderedFrame(before, c, c1);
    SameBounds(c, c1);
    EmitOrdered(before, c1, id, stream, data);
    OrderedFrame(before, Emit(c1, id, stream, data).0, EmitLate(c, id, stream, data));
  }

  lemma CompleteOrdered(before: seq<ClientMessage>, c: ClientState, id: CommandId, result: CommandResult)
    requires Ordered(before, c) && Orderly(c)
    ensures Ordered(before, CompleteAndSend(c, id, result))
    ensures Ordered(before, SendCompletion(c, id, result))
  {
    hide Ordered, Deliver, ErasedAll;
    var d := c.(journal := J.Complete(c.journal, id, result));
    OrderedFrame(before, c, d);
    DeliverOrdered(before, d, Completion(d, id, result));
    DeliverOrdered(before, c, Completion(c, id, result));
  }

  lemma ShutdownOrdered(before: seq<ClientMessage>, c: ClientState)
    requires Ordered(before, c)
    ensures Ordered(before, Shutdown(c))
  {
    hide Ordered, ErasedAll;
    MarkOrdered(before, c, c.unconfirmed);
    OrderedFrame(before, MarkAllUnconfirmedTruncated(c), Shutdown(c));
  }

  lemma FinishOrdered(before: seq<ClientMessage>, c: ClientState, id: CommandId, ending: Ending)
    requires Ordered(before, c) && Orderly(c) && id in c.running
    ensures Ordered(before, Finish(c, id, ending))
  {
    hide Ordered, Orderly, CompleteAndSend, Shutdown, ErasedAll;
    var result := FinalResult(ending, c.running[id].truncated || id in c.truncated);
    CompleteOrdered(before, c, id, result);
    var c1 := CompleteAndSend(c, id, result);
    var c2 := c1.(running := c1.running - {id});
    OrderedFrame(before, c1, c2);
    ShutdownOrdered(before, c2);
    if Unproved(ending) {
      OrderedFrame(before, Shutdown(c2), Finish(c, id, ending));
    }
  }

  lemma StartOrdered(before: seq<ClientMessage>, c: ClientState, id: CommandId, admission: Option<string>)
    requires Ordered(before, c) && Orderly(c)
    ensures Ordered(before, Start(c, id, admission))
  {
    hide Ordered, CompleteAndSend, SendCompletion, Deliver, ErasedAll;
    var (journal, receipt) := J.Receive(c.journal, id);
    var c1 := c.(journal := journal);
    OrderedFrame(before, c, c1);
    var previous := J.ResultOf(journal, id);
    if receipt == J.AlreadyCompleted && previous.Some? {
      CompleteOrdered(before, c1, id, previous.value);
    } else if receipt == J.New {
      var limit := Min(DEFAULT_COMMAND_OUTPUT_BYTES, c.limits.commandBytes);
      CompleteOrdered(before, c1, id, CommandResult(Failed, None, Some(admission.GetOr(EXCEEDS_POLICY)), false));
      var c2 := c1.(running := c1.running[id := Execution(0, 0, false, limit)], journal := J.MarkRunning(c1.journal, id));
      OrderedFrame(before, c1, c2);
      DeliverOrdered(before, c2, CommandStarted(id));
    }
  }

  /** Receiving a Command and completing it at once. */
  lemma FreshOrdered(before: seq<ClientMessage>, c: ClientState, id: CommandId, result: CommandResult)
    requires Ordered(before, c) && Orderly(c)
    ensures Ordered(before, CompleteAndSend(c.(journal := J.Receive(c.journal, id).0), id, result))
  {
    hide Ordered, CompleteAndSend, SendCompletion, ErasedAll, Bounded;
    var c1 := c.(journal := J.Receive(c.journal, id).0);
    OrderedFrame(before, c, c1);
    SameBounds(c, c1);
    CompleteOrdered(before, c1, id, result);
  }

  lemma CancelOrdered(before: seq<ClientMessage>, c: ClientState, id: CommandId)
    requires Ordered(before, c) && Orderly(c)
    ensures Ordered(before, Cancel(c, id))
  {
    hide Ordered, Orderly, CompleteAndSend, SendCompletion;
    var previous := J.ResultOf(c.journal, id);
    if previous.Some? {
      CompleteOrdered(before, c, id, previous.value);
    }
    FreshOrdered(before, c, id, CommandResult(Cancelled, None, Some("Command was cancelled before execution started"), false));
    FreshOrdered(before, c, id, CommandResult(ExecutionUnknown, None,
                                              Some("Command execution state was unavailable when cancellation arrived"), false));
  }

  /** A connection that is given up becomes the last of the past ones. */
  lemma DisconnectOrdered(links: seq<Link>, c: ClientState, d: ClientState, handled: nat)
    requires Ordered(Carried(links), c) && d.sent == [] && d.accepted == c.accepted
    requires d.buffer == [] || ErasedAll(d.buffer) == ErasedAll(c.buffer)
    ensures Ordered(Carried(links + [Link(c.sent, handled)]), d)
  {
    var link := Link(c.sent, handled);
    assert (links + [link])[..|links|] == links;
    var before := Carried(links) + c.sent;
    assert before + [] + c.buffer == Carried(links) + c.sent + c.buffer;
    var e := c.(sent := []);
    if d.buffer == [] {
      NothingBuffered(before, e);
      OrderedFrame(before, e.(buffer := []), d);
    } else {
      OrderedFrame(before, e, d);
    }
  }

  lemma {:induction false} NothingBuffered(before: seq<ClientMessage>, c: ClientState)
    requires Ordered(before, c)
    ensures Ordered(before, c.(buffer := []))
    decreases |c.buffer|
  {
    hide Ordered;
    if c.buffer == [] {
      assert c == c.(buffer := []);
    } else {
      DropOrdered(before, c, 0);
      NothingBuffered(before, c.(buffer := Without(c.buffer, 0)));
    }
  }

  lemma CarriedFrame(links: seq<Link>, k: nat, handled: nat)
    requires k < |links|
    ensures Carried(links[k := links[k].(handled := handled)]) == Carried(links)
  {
    var n := |links| - 1;
    var changed := links[k := links[k].(handled := handled)];
    if k < n {
      CarriedFrame(links[..n], k, handled);
      assert changed[..n] == links[..n][k := links[k].(handled := handled)];
    } else {
      assert changed[..n] == links[..n];
    }
  }

  lemma StepOrdered(w: World, s: Step)
    requires Enabled(w, s) && Orderly(w.client) && Ordered(Carried(w.past), w.client)
    ensures Ordered(Carried(Apply(w, s).past), Apply(w, s).client)
  {
    hide Ordered, Orderly, Carried, Start, Cancel, Emit, EmitLate, Finish, Shutdown, Flush, Reconcile, ErasedAll, Handle, Restart;
    var (c, before) := (w.client, Carried(w.past));
    match s {
      case ReceiveStart(id, admission) => StartOrdered(before, c, id, admission);
      case ReceiveCancel(id) => CancelOrdered(before, c, id);
      case ReceiveAcknowledged(id) => OrderedFrame(before, c, Acknowledged(c, id));
      case ProcessOutput(id, stream, data) => EmitOrdered(before, c, id, stream, data);
      case LateOutput(life, stream, data) =>
        if life.id in c.orphans {
          LateOrdered(before, c, life.id, stream, data);
        }
      case ExecutionEnds(id, ending) => FinishOrdered(before, c, id, ending);
      case SocketOpens(n) => OrderedFrame(before, c, c.(socket := Open, sendsLeft := n));
      case SocketCloses => OrderedFrame(before, c, c.(socket := Closing));
      case SendsLeft(n) => OrderedFrame(before, c, c.(sendsLeft := n));
      case Stop => ShutdownOrdered(before, c);
      case ReceiveAuthenticated => AuthenticatedOrdered(before, c);
      case SocketCloseEvent =>
        MarkedIsErased(c.buffer, c.unconfirmed);
        DisconnectOrdered(w.past, c, CloseEvent(c), w.handled);
      case CrashAndRestart =>
        RestartKeepsHistory(c);
        DisconnectOrdered(w.past, c, Restart(c), w.handled);
      case ServerHandles(k, at) =>
        if k < |w.past| {
          CarriedFrame(w.past, k, w.past[k].handled + 1);
        }
      case CreateCommand(_, _) =>
      case RequestCancellation(_) =>
    }
  }

  lemma RestartKeepsHistory(c: ClientState)
    ensures Restart(c).sent == [] && Restart(c).buffer == [] && Restart(c).accepted == c.accepted
  {
  }

  lemma AuthenticatedOrdered(before: seq<ClientMessage>, c: ClientState)
    requires Ordered(before, c) && Orderly(c) && c.socket != Absent && !c.stopped
    ensures Ordered(before, ClientOutput.Authenticated(c))
  {
    hide Ordered, Flush, Reconcile, ErasedAll, BufferedBytes;
    var c1 := c.(authenticated := true);
    OrderedFrame(before, c, c1);
    FlushOrdered(before, c1);
    FlushOrderly(c1);
    var c2 := Flush(c1);
    ReconcileOrdered(before, c2, J.ResultsForReconciliation(c2.journal));
  }

  lemma {:induction false} RunOrdered(w: World, steps: seq<Step>)
    requires IsRun(w, steps) && Orderly(w.client) && Ordered(Carried(w.past), w.client)
    ensures Ordered(Carried(After(w, steps).past), After(w, steps).client)
    decreases |steps|
  {
    hide Ordered, Orderly, Carried, Enabled, Apply;
    if steps != [] {
      StepOrdered(w, steps[0]);
      StepOrderly(w, steps[0]);
      RunOrdered(Apply(w, steps[0]), steps[1..]);
    }
  }

  /** In every reachable state, what all connections carried, in order, followed by what is
      buffered, is a subsequence of what `deliver` accepted. */
  lemma WireKeepsOrder(w: World)
    requires Reachable(w)
    ensures Subsequence(ErasedAll(Carried(w.past) + w.client.sent + w.client.buffer), ErasedAll(w.client.accepted))
  {
    hide IsRun, After;
    var limits, steps :| IsRun(InitialWorld(limits), steps) && After(InitialWorld(limits), steps) == w;
    RunOrdered(InitialWorld(limits), steps);
  }
}
