/** The Client's journal, message buffer and output path as the objects that hold them
    (apps/client/src/journal.ts, apps/client/src/index.ts), proved against the functions of
    Journal and ClientOutput. */
module ClientRuntime {
  import opened Wire
  import J = Journal
  import O = ClientOutput
  import B = BufferBounds
  import F = JournalFading
  import A = ClientAnswers
  import T = OutputTaken

  /** The journal as the Client holds it. */
  class CommandJournal {
    var rows: map<CommandId, J.Row>
    var order: seq<CommandId>

    constructor ()
      ensures Valid() && State() == J.EMPTY_TABLE
    {
      rows, order := map[], [];
    }

    function State(): J.Table
      reads this
    {
      J.Table(rows, order)
    }

    /** Every row is listed once and has a result exactly when it is completed. */
    ghost predicate Valid()
      reads this
    {
      J.TableOk(State())
    }

    method RecoverInterrupted() returns (interrupted: nat)
      requires Valid()
      modifies this
      ensures Valid() && State() == J.Recover(old(State()))
      ensures interrupted == J.CountInterrupted(old(State()), old(order)) == |J.Interrupted(old(State()))|
      ensures rows.Keys == old(rows.Keys)
      ensures forall id | id in rows ::
                && rows[id].state == J.Completed && !rows[id].unconfirmed && (rows[id].truncated <==> old(rows)[id].truncated || old(rows)[id].unconfirmed)
                && (old(rows)[id].state != J.Completed ==>
                      rows[id].result == Some(CommandResult(ExecutionUnknown, None,
                                                            Some("Client restarted before it could prove the Command outcome"),
                                                            rows[id].truncated)))
                && (old(rows)[id].state == J.Completed ==> J.SameOutcome(old(rows)[id].result.value, rows[id].result.value))
    {
      hide J.TableOk, J.Recover, J.RecoverEach, J.CountInterrupted, J.RecoverRow, J.Recoverable, J.SameOutcome;
      ghost var before := State();
      RecoveryIsLoop(before);
      interrupted := 0;
      var i := 0;
      while i < |order|
        invariant 0 <= i <= |order| && order == before.order
        invariant J.RecoverEach(State(), order[i..]).0 == J.RecoverEach(before, order).0
        invariant interrupted + J.RecoverEach(State(), order[i..]).1 == J.RecoverEach(before, order).1
      {
        var id := order[i];
        RecoverNext(State(), i);
        if id in rows {
          var row := rows[id];
          if row.state != J.Completed {
            interrupted := interrupted + 1;
          }
          if J.Recoverable(row) {
            rows := rows[id := J.RecoverRow(row)];
          }
        }
        i := i + 1;
      }
      RecoverNone(State());
    }

    /** Inserts the row of a Command the journal does not know; any other row is kept. */
    method Receive(id: CommandId) returns (receipt: J.Receipt)
      requires Valid()
      modifies this
      ensures Valid() && (State(), receipt) == J.Receive(old(State()), id)
      ensures id in rows && rows - {id} == old(rows) - {id}
      ensures receipt == J.New <==> id !in old(rows)
      ensures receipt != J.New ==> State() == old(State())
      ensures receipt == J.AlreadyCompleted <==> rows[id].result.Some?
      ensures receipt == J.New ==> rows[id].result.None? && !rows[id].truncated && !rows[id].unconfirmed && order == old(order) + [id]
    {
      J.StatementsKeepTable(State(), J.ReceiveS(id));
      J.RowOfTable(State(), id);
      if id !in rows {
        rows, order := rows[id := J.Row(J.Received, None, false, false)], order + [id];
        return J.New;
      }
      receipt := if rows[id].state == J.Completed then J.AlreadyCompleted else J.InProgress;
    }

    /** From here on a crash makes the outcome of the Command unknown. */
    method MarkRunning(id: CommandId)
      requires Valid()
      modifies this
      ensures State() == J.MarkRunning(old(State()), id)
      ensures rows.Keys == old(rows.Keys) && rows - {id} == old(rows) - {id}
      ensures id in rows ==>
                var recovered := J.RecoverRow(rows[id]).result;
                recovered.Some? && recovered.value.status == ExecutionUnknown && recovered.value.exitCode == None
      ensures (id in rows ==> rows[id].result.None?) ==> Valid()
    {
      J.RowOfTable(State(), id);
      if id in rows && rows[id].result.None? {
        J.StatementsKeepTable(State(), J.MarkRunningS(id));
      }
      if id in rows {
        rows := rows[id := rows[id].(state := J.Running)];
      }
    }

    /** From here on a crash flags the Command's output as incomplete; nothing else changes. */
    method MarkOutputUnconfirmed(id: CommandId)
      requires Valid()
      modifies this
      ensures Valid() && State() == J.MarkUnconfirmed(old(State()), id)
      ensures rows.Keys == old(rows.Keys) && rows - {id} == old(rows) - {id}
      ensures id in rows ==>
                && J.RecoverRow(rows[id]).truncated
                && rows[id] == old(rows)[id].(unconfirmed := rows[id].unconfirmed)
    {
      J.StatementsKeepTable(State(), J.MarkUnconfirmedS(id));
      J.RowOfTable(State(), id);
      if id in rows && !rows[id].truncated {
        rows := rows[id := rows[id].(unconfirmed := true)];
      }
    }

    method MarkOutputTruncated(id: CommandId)
      requires Valid()
      modifies this
      ensures Valid() && State() == J.MarkTruncated(old(State()), id)
      ensures rows.Keys == old(rows.Keys) && rows - {id} == old(rows) - {id}
      ensures id in rows ==> rows[id].truncated && !rows[id].unconfirmed && F.FadesRow(old(rows)[id], rows[id])
    {
      J.StatementsKeepTable(State(), J.MarkTruncatedS(id));
      if id !in rows {
        return;
      }
      var row := rows[id];
      var result := if row.result.Some? then Some(TruncatedResult(row.result.value)) else None;
      rows := rows[id := row.(result := result, truncated := true, unconfirmed := false)];
    }

    /** Stores how the Command ended; no crash takes the outcome or a truncation flag back. */
    method Complete(id: CommandId, result: CommandResult)
      requires Valid()
      modifies this
      ensures Valid() && State() == J.Complete(old(State()), id, result)
      ensures rows.Keys == old(rows.Keys) && rows - {id} == old(rows) - {id}
      ensures id in rows ==>
                && rows[id].result.Some? && rows[id].result.value.status == result.status
                && rows[id].result.value.exitCode == result.exitCode
                && (result.error.Some? || !rows[id].truncated ==> rows[id].result.value.error == result.error)
                && (rows[id].truncated <==> result.outputTruncated || old(rows)[id].truncated)
                && J.RecoverRow(rows[id]).result.Some?
                && J.SameOutcome(rows[id].result.value, J.RecoverRow(rows[id]).result.value)
    {
      J.StatementsKeepTable(State(), J.CompleteS(id, result));
      var durable := result;
      if id in rows && rows[id].truncated {
        durable := TruncatedResult(result);
      }
      if id in rows {
        rows := rows[id := rows[id].(state := J.Completed, result := Some(durable), truncated := durable.outputTruncated)];
      }
    }

    /** The stored result: what reconciliation would offer for the Command. */
    method Result(id: CommandId) returns (result: Option<CommandResult>)
      requires Valid()
      ensures result == J.ResultOf(State(), id)
      ensures forall r :: (id, r) in J.ResultsForReconciliation(State()) <==> result == Some(r)
      ensures result.Some? ==> result.value.outputTruncated == rows[id].truncated
    {
      J.RowOfTable(State(), id);
      result := if id in rows then rows[id].result else None;
      forall r
        ensures (id, r) in J.ResultsForReconciliation(State()) <==> result == Some(r)
      {
        J.OfferedIsStored(State(), id, r);
      }
    }

    method ResultsForReconciliation() returns (entries: seq<(CommandId, CommandResult)>)
      ensures entries == J.ResultsForReconciliation(State())
    {
      entries := [];
      var i := 0;
      while i < |order|
        invariant 0 <= i <= |order|
        invariant entries + J.Results(State(), order[i..]) == J.Results(State(), order)
      {
        var id := order[i];
        if id in rows && rows[id].state == J.Completed && rows[id].result.Some? {
          entries := entries + [(id, rows[id].result.value)];
        }
        assert order[i..][1..] == order[i + 1..];
        i := i + 1;
      }
    }

    /** Reconciliation stops offering the Command's result, and goes on offering all others;
        a row in progress stays. */
    method Acknowledge(id: CommandId)
      requires Valid()
      modifies this
      ensures Valid() && State() == J.Acknowledge(old(State()), id)
      ensures rows - {id} == old(rows) - {id}
      ensures id in rows <==> id in old(rows) && old(rows)[id].result.None?
      ensures forall e :: e in J.ResultsForReconciliation(State()) <==>
                            e in old(J.ResultsForReconciliation(State())) && e.0 != id
    {
      J.AcknowledgedIsNotOffered(State(), id);
      J.RowOfTable(State(), id);
      if id in rows && rows[id].state == J.Completed {
        rows, order := rows - {id}, J.Without(order, id);
      }
    }
  }

  lemma RecoveryIsLoop(t: J.Table)
    requires J.TableOk(t)
    ensures J.TableOk(J.Recover(t)) && J.RecoverEach(t, t.order) == (J.Recover(t), J.CountInterrupted(t, t.order))
    ensures J.CountInterrupted(t, t.order) == |J.Interrupted(t)| && J.Recover(t).rows.Keys == t.rows.Keys
    ensures forall id | id in t.rows ::
              var row := J.Recover(t).rows[id];
              && row.state == J.Completed && !row.unconfirmed && (row.truncated <==> t.rows[id].truncated || t.rows[id].unconfirmed)
              && (t.rows[id].state != J.Completed ==>
                    row.result == Some(CommandResult(ExecutionUnknown, None,
                                                     Some("Client restarted before it could prove the Command outcome"), row.truncated)))
              && (t.rows[id].state == J.Completed ==> J.SameOutcome(t.rows[id].result.value, row.result.value))
  {
    J.StatementsKeepTable(t, J.RecoverS);
    J.RecoverEachIsRecover(t);
    J.CountIsSize(t, t.order);
    J.InterruptedAmongAll(t);
    forall id | id in t.rows
      ensures J.RowOk(t.rows[id]) && J.Recover(t).rows[id] == J.RecoverRow(t.rows[id])
    {
      J.RowOfTable(t, id);
    }
  }

  /** One turn of the recovery loop. */
  lemma RecoverNext(t: J.Table, i: nat)
    requires i < |t.order|
    ensures var id := t.order[i];
            var u := if id in t.rows && J.Recoverable(t.rows[id]) then t.(rows := t.rows[id := J.RecoverRow(t.rows[id])]) else t;
            var n := if id in t.rows && t.rows[id].state != J.Completed then 1 else 0;
            J.RecoverEach(t, t.order[i..]) == (J.RecoverEach(u, t.order[i + 1..]).0, J.RecoverEach(u, t.order[i + 1..]).1 + n)
  {
    var id := t.order[i];
    assert t.order[i..][0] == id && t.order[i..][1..] == t.order[i + 1..];
    if id in t.rows && !J.Recoverable(t.rows[id]) {
      assert t.rows[id := J.RecoverRow(t.rows[id])] == t.rows;
    }
  }

  lemma RecoverNone(t: J.Table)
    ensures J.RecoverEach(t, t.order[|t.order|..]) == (t, 0)
  {
  }

  datatype BufferedMessage = BufferedMessage(message: ClientMessage, outputBytes: nat)

  function Messages(entries: seq<BufferedMessage>): (ms: seq<ClientMessage>)
    ensures |ms| == |entries|
    ensures forall i | 0 <= i < |entries| :: ms[i] == entries[i].message
  {
    seq(|entries|, i requires 0 <= i < |entries| => entries[i].message)
  }

  /** The bounded queue of messages waiting for a usable connection. */
  class ClientMessageBuffer {
    const maximumMessages: nat
    const maximumOutputBytes: nat
    var messages: seq<BufferedMessage>
    var outputBytes: nat

    constructor (maximumMessages: nat, maximumOutputBytes: nat)
      ensures Valid() && Contents() == []
      ensures this.maximumMessages == maximumMessages && this.maximumOutputBytes == maximumOutputBytes
    {
      this.maximumMessages, this.maximumOutputBytes := maximumMessages, maximumOutputBytes;
      messages, outputBytes := [], 0;
    }

    ghost function Contents(): seq<ClientMessage>
      reads this
    {
      Messages(messages)
    }

    /** Every entry carries its message's size, and the total is their sum. */
    ghost predicate Valid()
      reads this
    {
      && (forall i | 0 <= i < |messages| :: messages[i].outputBytes == O.OutputBytes(messages[i].message))
      && outputBytes == O.BufferedBytes(Contents())
    }

    method MarkOutputTruncated(id: CommandId)
      requires Valid()
      modifies this
      ensures Valid() && Contents() == O.MarkMessages(old(Contents()), {id})
      ensures |Contents()| == |old(Contents())|
      ensures forall i | 0 <= i < |Contents()| ::
                var m := old(Contents())[i];
                Contents()[i] == if m.CommandCompleted? && m.commandId == id then CommandCompleted(id, TruncatedResult(m.result)) else m
    {
      ghost var before := Contents();
      var i := 0;
      while i < |messages|
        invariant 0 <= i <= |messages| == |before| && outputBytes == old(outputBytes)
        invariant forall k | 0 <= k < |messages| ::
                    messages[k].message == if k < i then O.MarkMessage(before[k], {id}) else before[k]
        invariant forall k | 0 <= k < |messages| :: messages[k].outputBytes == O.OutputBytes(messages[k].message)
      {
        var m := messages[i].message;
        if m.CommandCompleted? && m.commandId == id && !m.result.outputTruncated {
          messages := messages[i := messages[i].(message := m.(result := TruncatedResult(m.result)))];
        }
        i := i + 1;
      }
      assert Contents() == O.MarkMessages(before, {id});
      B.BytesMarked(before, {id});
    }

    method Peek() returns (message: Option<ClientMessage>)
      ensures message == if Contents() == [] then None else Some(Contents()[0])
    {
      message := if messages == [] then None else Some(messages[0].message);
    }

    method Shift() returns (message: Option<ClientMessage>)
      requires Valid()
      modifies this
      ensures Valid()
      ensures old(Contents()) == [] ==> message == None && Contents() == []
      ensures old(Contents()) != [] ==> message == Some(old(Contents())[0]) && Contents() == old(Contents())[1..]
    {
      if messages == [] {
        return None;
      }
      var entry := messages[0];
      BytesHead(Contents());
      messages := messages[1..];
      assert Contents() == old(Contents())[1..];
      outputBytes := outputBytes - entry.outputBytes;
      message := Some(entry.message);
    }

    /** `enqueue`; `client` is the object whose discard hook the buffer was built with.  An output
        is taken exactly if it has room, any other message always; while there is room the
        message is appended and nothing else happens. */
    method Enqueue(message: ClientMessage, client: Client) returns (accepted: bool)
      requires client.Valid() && client.buffer == this
      modifies this, client, client.journal
      ensures client.Valid()
      ensures (client.State(), accepted) == O.Enqueue(old(client.State()), message)
      ensures client.accepted == old(client.accepted)
      ensures B.Enqueued(old(client.State()), message, client.State(), accepted)
    {
      hide O.BufferedBytes, O.MarkMessages, J.TruncateRows, O.Without, B.Enqueued;
      B.EnqueuesExactly(client.State(), message);
      var size := O.OutputBytes(message);
      if message.CommandOutput? && outputBytes + size > maximumOutputBytes {
        client.MarkCommandOutputTruncated(message.commandId);
        return false;
      }
      var discarded: Option<CommandId> := None;
      if |messages| >= maximumMessages {
        if message.CommandOutput? {
          client.MarkCommandOutputTruncated(message.commandId);
          return false;
        }
        discarded := MakeRoom(client);
      }
      assert [] + [message] == [message];
      Push(BufferedMessage(message, size));
      if discarded.Some? {
        MarkOutputTruncated(discarded.value);
      }
      accepted := true;
    }

    /** Removes the first output, or the first message if there is none. */
    method MakeRoom(client: Client) returns (discarded: Option<CommandId>)
      requires client.Valid() && client.buffer == this
      modifies this, client, client.journal
      ensures client.Valid() && client.accepted == old(client.accepted)
      ensures var c := old(client.State());
              var i := O.FirstOutput(c.buffer, 0);
              if i < |c.buffer| then
                var marked := O.MarkTruncated(c, {c.buffer[i].commandId});
                discarded == Some(c.buffer[i].commandId)
                && client.State() == marked.(buffer := O.Without(marked.buffer, i))
              else
                discarded == None
                && client.State() == c.(buffer := if c.buffer == [] then [] else O.Without(c.buffer, 0))
    {
      hide O.BufferedBytes, O.MarkMessages, J.TruncateRows;
      var outputIndex := FindOutput();
      var removeAt := 0;
      discarded := None;
      if outputIndex < |messages| {
        removeAt := outputIndex;
        discarded := Some(messages[removeAt].message.commandId);
        client.MarkCommandOutputTruncated(discarded.value);
      }
      if messages != [] {
        RemoveAt(removeAt);
      }
    }

    method FindOutput() returns (i: nat)
      ensures i == O.FirstOutput(Contents(), 0)
    {
      i := 0;
      while i < |messages| && !messages[i].message.CommandOutput?
        invariant i <= |messages|
        invariant O.FirstOutput(Contents(), 0) == O.FirstOutput(Contents(), i)
      {
        i := i + 1;
      }
    }

    method RemoveAt(i: nat)
      requires Valid() && i < |messages|
      modifies this
      ensures Valid() && Contents() == O.Without(old(Contents()), i)
    {
      ghost var before := Contents();
      B.BytesWithout(before, i);
      outputBytes := outputBytes - messages[i].outputBytes;
      messages := messages[..i] + messages[i + 1..];
      assert Contents() == O.Without(before, i);
    }

    method Push(entry: BufferedMessage)
      requires Valid() && entry.outputBytes == O.OutputBytes(entry.message)
      modifies this
      ensures Valid() && Contents() == old(Contents()) + [entry.message]
    {
      hide O.BufferedBytes;
      B.BytesPush(Contents(), entry.message);
      messages, outputBytes := messages + [entry], outputBytes + entry.outputBytes;
      assert Contents() == old(Contents()) + [entry.message];
    }
  }

  lemma BytesHead(ms: seq<ClientMessage>)
    requires ms != []
    ensures O.BufferedBytes(ms) == O.OutputBytes(ms[0]) + O.BufferedBytes(ms[1..])
  {
    assert ms == [ms[0]] + ms[1..];
    B.BytesConcat([ms[0]], ms[1..]);
  }

  /** Marking Commands one after the other is marking them together. */
  lemma MarksCompose(c: O.ClientState, a: set<CommandId>, b: set<CommandId>)
    ensures O.MarkTruncated(O.MarkTruncated(c, a), b) == O.MarkTruncated(c, a + b)
  {
    assert O.MarkMessages(O.MarkMessages(c.buffer, a), b) == O.MarkMessages(c.buffer, a + b);
    assert J.TruncateRows(J.TruncateRows(c.journal, a), b).rows == J.TruncateRows(c.journal, a + b).rows;
  }

  lemma NoMarks(c: O.ClientState)
    ensures O.MarkTruncated(c, {}) == c
  {
    assert O.MarkMessages(c.buffer, {}) == c.buffer;
    assert J.TruncateRows(c.journal, {}).rows == c.journal.rows;
  }

  lemma NextChunkAt(stream: Stream, data: seq<Byte>, offset: nat)
    requires offset < |data|
    ensures O.NextChunk(stream, data[offset..]) == Chunk(stream, data[offset..Min(offset + CHUNK_BYTES, |data|)])
  {
  }

  /** The Client's output path. */
  class Client {
    const journal: CommandJournal
    const buffer: ClientMessageBuffer
    const commandBytes: nat
    var outputTruncatedCommands: set<CommandId>
    var unconfirmedOutputCommands: set<CommandId>
    var running: map<CommandId, O.Execution>
    var authenticated: bool
    var socket: O.Socket
    var sendsLeft: nat
    var sent: seq<ClientMessage>
    ghost var accepted: seq<ClientMessage>
    var stopped: bool
    var orphans: map<CommandId, O.Execution>

    constructor (limits: O.Limits)
      ensures Valid() && fresh(journal) && fresh(buffer) && State() == O.NewClient(limits)
    {
      journal := new CommandJournal();
      buffer := new ClientMessageBuffer(limits.messages, limits.bytes);
      commandBytes := limits.commandBytes;
      outputTruncatedCommands, unconfirmedOutputCommands, running := {}, {}, map[];
      authenticated, socket, sendsLeft, sent, accepted := false, O.Absent, 0, [], [];
      stopped, orphans := false, map[];
    }

    ghost predicate Valid()
      reads this, journal, buffer
    {
      journal.Valid() && buffer.Valid()
    }

    ghost function State(): O.ClientState
      reads this, journal, buffer
    {
      O.ClientState(O.Limits(buffer.maximumMessages, buffer.maximumOutputBytes, commandBytes), journal.State(), buffer.Contents(),
               outputTruncatedCommands, unconfirmedOutputCommands, running, authenticated, socket, sendsLeft, sent, accepted, stopped, orphans)
    }

    method Send(message: ClientMessage) returns (ok: bool)
      modifies this`sent, this`sendsLeft
      ensures ok == (socket == O.Open && old(sendsLeft) > 0)
      ensures sent == if ok then old(sent) + [message] else old(sent)
      ensures sendsLeft == if ok then old(sendsLeft) - 1 else old(sendsLeft)
    {
      ok := socket == O.Open && sendsLeft > 0;
      if ok {
        sent, sendsLeft := sent + [message], sendsLeft - 1;
      }
    }

    /** Sends on a usable connection, and buffers otherwise; only an output without room is
        refused. */
    method Deliver(message: ClientMessage) returns (ok: bool)
      requires Valid()
      modifies this, journal, buffer
      ensures Valid() && (State(), ok) == O.Deliver(old(State()), message)
      ensures T.Delivered(old(State()), message, State(), ok)
    {
      hide J.TableOk, O.Enqueue, T.Delivered, B.Enqueued;
      T.DeliversExactly(State(), message);
      if message.CommandOutput? {
        MarkCommandOutputUnconfirmed(message.commandId);
      }
      if authenticated && socket == O.Open {
        ok := Send(message);
        if ok {
          accepted := accepted + [message];
          return;
        }
        authenticated := false;
      }
      ok := buffer.Enqueue(message, this);
      if ok {
        accepted := accepted + [message];
      }
    }

    method MarkCommandOutputTruncated(id: CommandId)
      requires Valid()
      modifies this, journal, buffer
      ensures Valid() && State() == O.MarkTruncated(old(State()), {id})
      ensures outputTruncatedCommands == old(outputTruncatedCommands) + {id}
      ensures unconfirmedOutputCommands == old(unconfirmedOutputCommands) - {id}
      ensures id in journal.rows ==> journal.rows[id].truncated
    {
      journal.MarkOutputTruncated(id);
      buffer.MarkOutputTruncated(id);
      unconfirmedOutputCommands := unconfirmedOutputCommands - {id};
      outputTruncatedCommands := outputTruncatedCommands + {id};
    }

    method MarkCommandOutputUnconfirmed(id: CommandId)
      requires Valid()
      modifies this`unconfirmedOutputCommands, journal
      ensures Valid() && State() == O.MarkUnconfirmed(old(State()), id)
      ensures unconfirmedOutputCommands == old(unconfirmedOutputCommands) + {id}
    {
      if id in unconfirmedOutputCommands {
        return;
      }
      journal.MarkOutputUnconfirmed(id);
      unconfirmedOutputCommands := unconfirmedOutputCommands + {id};
    }

    method MarkUnconfirmedOutputTruncated()
      requires Valid()
      modifies this, journal, buffer
      ensures Valid() && State() == O.MarkAllUnconfirmedTruncated(old(State()))
      ensures unconfirmedOutputCommands == {}
      ensures outputTruncatedCommands == old(outputTruncatedCommands) + old(unconfirmedOutputCommands)
    {
      var remaining := unconfirmedOutputCommands;
      ghost var marked: set<CommandId> := {};
      NoMarks(State());
      while remaining != {}
        invariant Valid()
        invariant marked + remaining == old(unconfirmedOutputCommands)
        invariant State() == O.MarkTruncated(old(State()), marked)
        decreases remaining
      {
        var id :| id in remaining;
        MarksCompose(old(State()), marked, {id});
        MarkCommandOutputTruncated(id);
        remaining, marked := remaining - {id}, marked + {id};
      }
    }

    method FlushBufferedMessages()
      requires Valid()
      modifies this, buffer
      ensures Valid() && State() == O.Flush(old(State()))
      ensures T.Flushed(old(State()), State())
    {
      hide T.Flushed;
      T.FlushesExactly(State());
      while authenticated && socket == O.Open
        invariant Valid() && O.Flush(State()) == O.Flush(old(State()))
        decreases authenticated, |buffer.messages|
      {
        var message := buffer.Peek();
        if message.None? {
          return;
        }
        var ok := Send(message.value);
        if ok {
          message := buffer.Shift();
        } else {
          authenticated := false;
          return;
        }
      }
    }

    /** A completion is never refused: exactly one message is accepted, and it reports the
        result, flagged as incomplete if output of the Command is known to be lost. */
    method SendCompletion(id: CommandId, result: CommandResult)
      requires Valid()
      modifies this, journal, buffer
      ensures Valid() && State() == O.SendCompletion(old(State()), id, result)
      ensures A.Answers(old(State()), State(), id, result, id in old(outputTruncatedCommands))
    {
      var truncated := result.outputTruncated || id in outputTruncatedCommands;
      var error := if result.error.Some? then result.error else if truncated then Some(OUTPUT_INCOMPLETE) else None;
      if error == Some("") {
        error := None;
      }
      A.SendAnswers(State(), id, result);
      var ok := Deliver(CommandCompleted(id, result.(error := error, outputTruncated := truncated)));
    }

    method ReconcileJournalResults()
      requires Valid()
      modifies this, journal, buffer
      ensures Valid() && State() == O.Reconcile(old(State()), J.ResultsForReconciliation(old(State()).journal))
    {
      var entries := journal.ResultsForReconciliation();
      ghost var all := O.Reconcile(State(), entries);
      var i := 0;
      while i < |entries|
        invariant 0 <= i <= |entries| && Valid()
        invariant O.Reconcile(State(), entries[i..]) == all
      {
        assert entries[i..][0] == entries[i] && entries[i..][1..] == entries[i + 1..];
        SendCompletion(entries[i].0, entries[i].1);
        i := i + 1;
      }
    }

    method HandleAuthenticated()
      requires Valid()
      modifies this, journal, buffer
      ensures Valid() && State() == O.Authenticated(old(State()))
      ensures T.Reconnected(old(State()), State())
    {
      hide T.Reconnected, T.Flushed;
      T.AuthenticationDelivers(State());
      authenticated := true;
      FlushBufferedMessages();
      ReconcileJournalResults();
    }

    method TruncateExecution(id: CommandId)
      requires Valid() && id in running
      modifies this, journal, buffer
      ensures Valid() && State() == O.TruncateExecution(old(State()), id)
    {
      if running[id].truncated {
        return;
      }
      if id !in outputTruncatedCommands {
        MarkCommandOutputTruncated(id);
      }
      running := running[id := running[id].(truncated := true)];
    }

    /** `emit`: hand out what the limit still allows in chunks of at most 256 KiB. */
    method Emit(id: CommandId, stream: Stream, data: seq<Byte>)
      requires Valid() && id in running
      modifies this, journal, buffer
      ensures Valid() && State() == O.Emit(old(State()), id, stream, data).0
    {
      hide O.EmitChunks, O.TruncateExecution, J.TruncateRows, O.MarkMessages;
      if id in outputTruncatedCommands {
        running := running[id := running[id].(truncated := true)];
      }
      if running[id].truncated {
        assert running[id := running[id].(truncated := true)] == running;
        return;
      }
      var remaining := running[id].limit - running[id].outputBytes;
      if remaining <= 0 {
        TruncateExecution(id);
        return;
      }
      var taken := data[..Min(remaining, |data|)];
      EmitChunks(id, stream, taken);
      if |taken| < |data| {
        TruncateExecution(id);
      }
    }

    /** The loop of `emit`. */
    method EmitChunks(id: CommandId, stream: Stream, data: seq<Byte>)
      requires Valid() && id in running
      modifies this, journal, buffer
      ensures Valid() && State() == O.EmitChunks(old(State()), id, stream, data).0
    {
      hide O.EmitChunk, O.NextChunk, O.SameButWire, J.TableOk, O.BufferedBytes, Messages;
      var offset := 0;
      assert data[0..] == data;
      while offset < |data|
        invariant 0 <= offset <= |data| && Valid() && id in running
        invariant O.EmitChunks(State(), id, stream, data[offset..]).0 == O.EmitChunks(old(State()), id, stream, data).0
      {
        var chunk := Chunk(stream, data[offset..Min(offset + CHUNK_BYTES, |data|)]);
        NextChunkAt(stream, data, offset);
        assert data[offset..][|chunk.data|..] == data[offset + |chunk.data|..];
        var ok := EmitChunk(id, chunk);
        if !ok {
          return;
        }
        offset := offset + |chunk.data|;
      }
    }

    method EmitChunk(id: CommandId, chunk: Chunk) returns (ok: bool)
      requires Valid() && id in running
      modifies this, journal, buffer
      ensures Valid() && (State(), ok) == O.EmitChunk(old(State()), id, chunk)
      ensures !ok ==> id in running && running[id].truncated
    {
      ok := Deliver(CommandOutput(id, running[id].sequence, chunk));
      if !ok {
        TruncateExecution(id);
        return;
      }
      var e := running[id];
      running := running[id := e.(sequence := e.sequence + 1, outputBytes := e.outputBytes + |chunk.data|)];
    }

    /** The outcome is journaled, and then reported as journaled. */
    method CompleteAndSend(id: CommandId, result: CommandResult)
      requires Valid()
      modifies this, journal, buffer
      ensures Valid() && State() == O.CompleteAndSend(old(State()), id, result)
      ensures A.Answers(old(State()), State(), id, result, id in old(outputTruncatedCommands))
      ensures id in old(journal.rows) ==> A.Holds(State(), id, result)
    {
      hide A.Answers, A.Holds, O.SendCompletion, O.Completion;
      A.CompleteAnswers(State(), id, result);
      journal.Complete(id, result);
      SendCompletion(id, result);
    }

    /** The end of a `startCommand` call: the final result is journaled and reported.  If the
        process may still be there, so is its `emit` closure, and the Client stops. */
    method FinishCommand(id: CommandId, ending: O.Ending)
      requires Valid() && id in running
      modifies this, journal, buffer
      ensures Valid() && State() == O.Finish(old(State()), id, ending)
      ensures A.Ended(old(State()), State(), id, ending)
    {
      hide A.Ended, A.Answers, A.Holds, O.FinalResult, O.CompleteAndSend, O.MarkMessages, J.TruncateRows;
      A.FinishAnswers(State(), id, ending);
      var e := running[id];
      var truncated := e.truncated || id in outputTruncatedCommands;
      CompleteAndSend(id, O.FinalResult(ending, truncated));
      running := running - {id};
      if ending.Aborted? && ending.unconfirmed {
        BeginTerminalShutdown();
        orphans := orphans[id := e.(truncated := truncated)];
      }
    }

    /** `emit` of an execution that has ended. */
    method EmitLate(id: CommandId, stream: Stream, data: seq<Byte>)
      requires Valid() && id in orphans
      modifies this, journal, buffer
      ensures Valid() && State() == O.EmitLate(old(State()), id, stream, data)
      ensures running == old(running) && F.Fades(old(State()).journal, State().journal)
    {
      F.LateFades(State(), id, stream, data);
      var others := running;
      running := running[id := orphans[id]];
      Emit(id, stream, data);
      running, orphans := others, orphans[id := running[id]];
    }

    method BeginTerminalShutdown()
      requires Valid()
      modifies this, journal, buffer
      ensures Valid() && State() == O.Shutdown(old(State()))
      ensures stopped && !authenticated && socket != O.Open && unconfirmedOutputCommands == {}
      ensures outputTruncatedCommands == old(outputTruncatedCommands) + old(unconfirmedOutputCommands)
    {
      MarkUnconfirmedOutputTruncated();
      authenticated, stopped := false, true;
      if socket == O.Open {
        socket := O.Closing;
      }
    }

    /** The synchronous part of `startCommand`.  A Command that has ended is answered with its
        stored result, one in progress not at all.  A new one that is admitted is reported as
        started and runs; one that is refused has failed, with the reason. */
    method StartCommand(id: CommandId, admission: Option<string>)
      requires Valid()
      modifies this, journal, buffer
      ensures Valid() && State() == O.Start(old(State()), id, admission)
      ensures id in old(journal.rows) && old(journal.rows)[id].state == J.Completed ==>
                old(journal.rows)[id].result.Some? && running == old(running)
                && A.Answers(old(State()), State(), id, old(journal.rows)[id].result.value, id in old(outputTruncatedCommands))
      ensures id in old(journal.rows) && old(journal.rows)[id].state != J.Completed ==> State() == old(State())
      ensures id !in old(journal.rows) && admission.None? && commandBytes > 0 ==>
                && accepted == old(accepted) + [CommandStarted(id)]
                && running == old(running)[id := O.Execution(0, 0, false, Min(1024 * 1024, commandBytes))]
                && id in journal.rows && journal.rows[id].state == J.Running && journal.rows[id].result.None?
      ensures id !in old(journal.rows) && (admission.Some? || commandBytes == 0) ==>
                var error := if admission.Some? then admission.value else "Command exceeds Local Policy or Session expiry";
                var result := CommandResult(Failed, None, Some(error), false);
                && running == old(running) && A.Holds(State(), id, result)
                && A.Answers(old(State()), State(), id, result, id in old(outputTruncatedCommands))
    {
      hide A.Answers, A.Holds, O.SendCompletion, O.CompleteAndSend, O.Deliver;
      J.RowOfTable(journal.State(), id);
      A.StartAnswers(State(), id, admission);
      var receipt := journal.Receive(id);
      if receipt == J.AlreadyCompleted {
        var previous := journal.Result(id);
        if previous.Some? {
          SendCompletion(id, previous.value);
        }
        return;
      }
      if receipt != J.New {
        return;
      }
      var limit := Min(DEFAULT_COMMAND_OUTPUT_BYTES, commandBytes);
      if admission.Some? || limit < 1 {
        CompleteAndSend(id, CommandResult(Failed, None, Some(admission.GetOr(O.EXCEEDS_POLICY)), false));
        return;
      }
      running := running[id := O.Execution(0, 0, false, limit)];
      journal.MarkRunning(id);
      var ok := Deliver(CommandStarted(id));
    }

    /** Leaves a Command that executes alone; for any other one exactly one completion is
        accepted, and it says what the journal now says: a stored outcome as it was, or, of a
        Command the journal did not know, that it was cancelled. */
    method CancelCommand(id: CommandId)
      requires Valid()
      modifies this, journal, buffer
      ensures Valid() && State() == O.Cancel(old(State()), id)
      ensures id in old(running) ==> State() == old(State())
      ensures running == old(running)
      ensures id !in old(running) && id in old(journal.rows) && old(journal.rows)[id].state == J.Completed ==>
                && old(journal.rows)[id].result.Some?
                && A.Answers(old(State()), State(), id, old(journal.rows)[id].result.value, id in old(outputTruncatedCommands))
      ensures id !in old(running) && !(id in old(journal.rows) && old(journal.rows)[id].state == J.Completed) ==>
                var result :=
                  if id in old(journal.rows) then
                    CommandResult(ExecutionUnknown, None, Some("Command execution state was unavailable when cancellation arrived"), false)
                  else CommandResult(Cancelled, None, Some("Command was cancelled before execution started"), false);
                A.Answers(old(State()), State(), id, result, id in old(outputTruncatedCommands)) && A.Holds(State(), id, result)
    {
      hide A.Answers, A.Holds, O.SendCompletion, O.CompleteAndSend;
      J.RowOfTable(journal.State(), id);
      A.CancelAnswers(State(), id);
      if id in running {
        return;
      }
      var previous := journal.Result(id);
      if previous.Some? {
        SendCompletion(id, previous.value);
        return;
      }
      var receipt := journal.Receive(id);
      var result :=
        if receipt == J.New then
          CommandResult(Cancelled, None, Some("Command was cancelled before execution started"), false)
        else
          CommandResult(ExecutionUnknown, None, Some("Command execution state was unavailable when cancellation arrived"), false);
      CompleteAndSend(id, result);
    }

    /** Forgets what was lost of the Command, and reconciles its result no more; nothing
        else is forgotten. */
    method HandleAcknowledged(id: CommandId)
      requires Valid()
      modifies this, journal
      ensures Valid() && State() == O.Acknowledged(old(State()), id)
      ensures outputTruncatedCommands == old(outputTruncatedCommands) - {id}
      ensures unconfirmedOutputCommands == old(unconfirmedOutputCommands) - {id}
      ensures forall e :: e in J.ResultsForReconciliation(journal.State()) <==>
                            e in old(J.ResultsForReconciliation(journal.State())) && e.0 != id
      ensures forall result :: O.Completion(State(), id, result).result.outputTruncated == result.outputTruncated
      ensures forall x, result | x != id :: O.Completion(State(), x, result) == O.Completion(old(State()), x, result)
    {
      journal.Acknowledge(id);
      unconfirmedOutputCommands := unconfirmedOutputCommands - {id};
      outputTruncatedCommands := outputTruncatedCommands - {id};
    }

    method HandleClose()
      requires Valid()
      modifies this, journal, buffer
      ensures Valid() && State() == O.CloseEvent(old(State()))
      ensures socket == O.Absent && !authenticated && sent == [] && unconfirmedOutputCommands == {}
      ensures outputTruncatedCommands == old(outputTruncatedCommands) + old(unconfirmedOutputCommands)
      ensures |buffer.Contents()| == |old(buffer.Contents())| && running == old(running) && stopped == old(stopped)
    {
      MarkUnconfirmedOutputTruncated();
      socket, authenticated, sent := O.Absent, false, [];
    }
  }
}
