/** The Client's output path as functions on its state: the bounded message buffer,
    `deliver`, the truncation marks, `emit`, completion and reconciliation
    (apps/client/src/index.ts).  Each function is one JavaScript turn, or a part of
    one that contains no `await`. */
module ClientOutput {
  import opened Wire
  import J = Journal

  const OUTPUT_LIMIT := "Output limit reached"
  const EXCEEDS_POLICY := "Command exceeds Local Policy or Session expiry"

  /** `Closing` covers every ready state after `OPEN` until the close event is handled. */
  datatype Socket = Absent | Open | Closing

  /** The locals one `startCommand` call shares with its `emit` closure. */
  datatype Execution = Execution(sequence: nat, outputBytes: nat, truncated: bool, limit: nat)

  datatype Limits = Limits(messages: nat, bytes: nat, commandBytes: nat)

  /** `sendsLeft` is how many more sends the open socket accepts before one throws, chosen
      by the environment.  `sent` is what this socket accepted; `accepted` is the history
      of every message `deliver` accepted.  `orphans` holds the `emit` closures of executions
      that ended without proof that their process did. */
  datatype ClientState = ClientState(
    limits: Limits,
    journal: J.Table,
    buffer: seq<ClientMessage>,
    truncated: set<CommandId>,
    unconfirmed: set<CommandId>,
    running: map<CommandId, Execution>,
    authenticated: bool,
    socket: Socket,
    sendsLeft: nat,
    sent: seq<ClientMessage>,
    accepted: seq<ClientMessage>,
    stopped: bool,
    orphans: map<CommandId, Execution>)

  // ---------- The message buffer ----------

  predicate IsOutput(m: ClientMessage) {
    m.CommandOutput?
  }

  function OutputBytes(m: ClientMessage): nat {
    if m.CommandOutput? then |m.chunk.data| else 0
  }

  function BufferedBytes(ms: seq<ClientMessage>): nat {
    if ms == [] then 0 else BufferedBytes(ms[..|ms| - 1]) + OutputBytes(ms[|ms| - 1])
  }

  /** The index of the first output at or after `from`, or the length. */
  function FirstOutput(ms: seq<ClientMessage>, from: nat): (i: nat)
    requires from <= |ms|
    ensures from <= i <= |ms|
    ensures i < |ms| ==> IsOutput(ms[i])
    ensures forall k | from <= k < i :: !IsOutput(ms[k])
    decreases |ms| - from
  {
    if from == |ms| || IsOutput(ms[from]) then from else FirstOutput(ms, from + 1)
  }

  function Without(ms: seq<ClientMessage>, i: nat): seq<ClientMessage>
    requires i < |ms|
  {
    ms[..i] + ms[i + 1..]
  }

  function MarkMessage(m: ClientMessage, ids: set<CommandId>): ClientMessage {
    if m.CommandCompleted? && m.commandId in ids && !m.result.outputTruncated then
      m.(result := TruncatedResult(m.result))
    else m
  }

  function MarkMessages(ms: seq<ClientMessage>, ids: set<CommandId>): (r: seq<ClientMessage>)
    ensures |r| == |ms|
    ensures forall i | 0 <= i < |ms| :: r[i] == MarkMessage(ms[i], ids)
  {
    seq(|ms|, i requires 0 <= i < |ms| => MarkMessage(ms[i], ids))
  }

  /** `markCommandOutputTruncated`, for a set of Commands at once. */
  function MarkTruncated(c: ClientState, ids: set<CommandId>): ClientState {
    c.(journal := J.TruncateRows(c.journal, ids),
       buffer := MarkMessages(c.buffer, ids),
       unconfirmed := c.unconfirmed - ids,
       truncated := c.truncated + ids)
  }

  function MarkUnconfirmed(c: ClientState, id: CommandId): ClientState {
    if id in c.unconfirmed then c
    else c.(journal := J.MarkUnconfirmed(c.journal, id), unconfirmed := c.unconfirmed + {id})
  }

  function MarkAllUnconfirmedTruncated(c: ClientState): ClientState {
    MarkTruncated(c, c.unconfirmed)
  }

  /** What buffering leaves alone. */
  predicate SameButBuffer(c: ClientState, d: ClientState) {
    d == c.(journal := d.journal, buffer := d.buffer, truncated := d.truncated, unconfirmed := d.unconfirmed)
  }

  /** What sending and buffering leave alone. */
  predicate SameButWire(c: ClientState, d: ClientState) {
    && d == c.(journal := d.journal, buffer := d.buffer, truncated := d.truncated, unconfirmed := d.unconfirmed,
               authenticated := d.authenticated, sendsLeft := d.sendsLeft, sent := d.sent, accepted := d.accepted)
    && c.sent <= d.sent
    && (d.authenticated ==> c.authenticated)
  }

  /** `enqueue` with the Client's discard hook: the hook runs before anything is removed. */
  function Enqueue(c: ClientState, m: ClientMessage): (r: (ClientState, bool))
    ensures SameButBuffer(c, r.0)
  {
    if IsOutput(m) && BufferedBytes(c.buffer) + OutputBytes(m) > c.limits.bytes then
      (MarkTruncated(c, {m.commandId}), false)
    else if |c.buffer| >= c.limits.messages then
      if IsOutput(m) then
        (MarkTruncated(c, {m.commandId}), false)
      else
        var i := FirstOutput(c.buffer, 0);
        if i < |c.buffer| then
          var id := c.buffer[i].commandId;
          var marked := MarkTruncated(c, {id});
          (marked.(buffer := MarkMessages(Without(marked.buffer, i) + [m], {id})), true)
        else if c.buffer == [] then
          (c.(buffer := [m]), true)
        else
          (c.(buffer := Without(c.buffer, 0) + [m]), true)
    else
      (c.(buffer := c.buffer + [m]), true)
  }

  // ---------- Delivery ----------

  function Deliver(c: ClientState, m: ClientMessage): (r: (ClientState, bool))
    ensures SameButWire(c, r.0)
  {
    var c1 := if IsOutput(m) then MarkUnconfirmed(c, m.commandId) else c;
    if c1.authenticated && c1.socket == Open && c1.sendsLeft > 0 then
      (c1.(sent := c1.sent + [m], sendsLeft := c1.sendsLeft - 1, accepted := c1.accepted + [m]), true)
    else
      var c2 := if c1.authenticated && c1.socket == Open then c1.(authenticated := false) else c1;
      var (c3, ok) := Enqueue(c2, m);
      (if ok then c3.(accepted := c3.accepted + [m]) else c3, ok)
  }

  function Flush(c: ClientState): (r: ClientState)
    ensures SameButWire(c, r)
    decreases |c.buffer|
  {
    if !c.authenticated || c.socket != Open || c.buffer == [] then c
    else if c.sendsLeft == 0 then c.(authenticated := false)
    else Flush(c.(sent := c.sent + [c.buffer[0]], sendsLeft := c.sendsLeft - 1, buffer := c.buffer[1..]))
  }

  function Completion(c: ClientState, id: CommandId, result: CommandResult): ClientMessage {
    var truncated := result.outputTruncated || id in c.truncated;
    var error :=
      if result.error.Some? then result.error
      else if truncated then Some(OUTPUT_INCOMPLETE) else None;
    CommandCompleted(id, result.(error := if error == Some("") then None else error, outputTruncated := truncated))
  }

  function SendCompletion(c: ClientState, id: CommandId, result: CommandResult): (r: ClientState)
    ensures SameButWire(c, r)
  {
    Deliver(c, Completion(c, id, result)).0
  }

  function Reconcile(c: ClientState, entries: seq<(CommandId, CommandResult)>): (r: ClientState)
    ensures SameButWire(c, r)
    decreases |entries|
  {
    if entries == [] then c
    else Reconcile(SendCompletion(c, entries[0].0, entries[0].1), entries[1..])
  }

  /** The `authenticated` message: flush the buffer, then resend every stored result. */
  function Authenticated(c: ClientState): ClientState {
    var c1 := Flush(c.(authenticated := true));
    Reconcile(c1, J.ResultsForReconciliation(c1.journal))
  }

  // ---------- Executions ----------

  /** The `markOutputTruncated` closure of one execution. */
  function TruncateExecution(c: ClientState, id: CommandId): (r: ClientState)
    requires id in c.running
    ensures r.running.Keys == c.running.Keys && SameButWire(c, r.(running := c.running))
  {
    if c.running[id].truncated then c
    else
      var c1 := if id in c.truncated then c else MarkTruncated(c, {id});
      c1.(running := c1.running[id := c1.running[id].(truncated := true)])
  }

  function NextChunk(stream: Stream, data: seq<Byte>): (chunk: Chunk)
    ensures |chunk.data| == Min(CHUNK_BYTES, |data|)
  {
    Chunk(stream, data[..Min(CHUNK_BYTES, |data|)])
  }

  /** One iteration of the loop of `emit`. */
  function EmitChunk(c: ClientState, id: CommandId, chunk: Chunk): (r: (ClientState, bool))
    requires id in c.running
    ensures r.0.running.Keys == c.running.Keys && SameButWire(c, r.0.(running := c.running))
  {
    var e := c.running[id];
    var (c1, ok) := Deliver(c, CommandOutput(id, e.sequence, chunk));
    if ok then
      var advanced := e.(sequence := e.sequence + 1, outputBytes := e.outputBytes + |chunk.data|);
      (c1.(running := c1.running[id := advanced]), true)
    else (TruncateExecution(c1, id), false)
  }

  /** The loop of `emit`; also returns the chunks `deliver` accepted. */
  function EmitChunks(c: ClientState, id: CommandId, stream: Stream, data: seq<Byte>): (r: (ClientState, seq<Chunk>))
    requires id in c.running
    ensures r.0.running.Keys == c.running.Keys && SameButWire(c, r.0.(running := c.running))
    decreases |data|
  {
    if data == [] then (c, [])
    else
      var chunk := NextChunk(stream, data);
      var (c1, ok) := EmitChunk(c, id, chunk);
      if !ok then (c1, [])
      else
        var (c2, rest) := EmitChunks(c1, id, stream, data[|chunk.data|..]);
        (c2, [chunk] + rest)
  }

  function Emit(c: ClientState, id: CommandId, stream: Stream, data: seq<Byte>): (r: (ClientState, seq<Chunk>))
    requires id in c.running
    ensures r.0.running.Keys == c.running.Keys && SameButWire(c, r.0.(running := c.running))
  {
    var e := c.running[id];
    if id in c.truncated || e.truncated then
      (c.(running := c.running[id := e.(truncated := true)]), [])
    else if e.limit <= e.outputBytes then
      (TruncateExecution(c, id), [])
    else
      var taken := Min(e.limit - e.outputBytes, |data|);
      var (c1, chunks) := EmitChunks(c, id, stream, data[..taken]);
      (if taken < |data| then TruncateExecution(c1, id) else c1, chunks)
  }

  /** How an execution ends: its process closed, or the `catch` branch was taken. */
  datatype Ending =
    | Exited(exitCode: Option<int>, timedOut: bool, cancelRequested: bool)
    | Aborted(message: string, unconfirmed: bool, timedOut: bool, cancelRequested: bool)

  function FinalResult(ending: Ending, truncated: bool): CommandResult {
    match ending
    case Exited(exitCode, timedOut, cancelRequested) =>
      CommandResult(
        if timedOut then TimedOut else if cancelRequested then Cancelled
        else if exitCode == Some(0) then Succeeded else Failed,
        exitCode, if truncated then Some(OUTPUT_LIMIT) else None, truncated)
    case Aborted(message, unconfirmed, timedOut, cancelRequested) =>
      CommandResult(
        if unconfirmed then ExecutionUnknown else if timedOut then TimedOut
        else if cancelRequested then Cancelled else Failed,
        None, Some(message), truncated)
  }

  function CompleteAndSend(c: ClientState, id: CommandId, result: CommandResult): (r: ClientState)
    ensures SameButWire(c, r)
  {
    SendCompletion(c.(journal := J.Complete(c.journal, id, result)), id, result)
  }

  /** The shutdown an unprovable termination or `stop` begins: whatever is unconfirmed
      counts as lost, the socket is closed and no other one is opened. */
  function Shutdown(c: ClientState): ClientState {
    MarkAllUnconfirmedTruncated(c).(authenticated := false, socket := if c.socket == Open then Closing else c.socket,
                                    stopped := true)
  }

  predicate Unproved(ending: Ending) {
    ending.Aborted? && ending.unconfirmed
  }

  /** A process whose termination is unproved may go on writing to its `emit` closure. */
  function Finish(c: ClientState, id: CommandId, ending: Ending): ClientState
    requires id in c.running
  {
    var truncated := c.running[id].truncated || id in c.truncated;
    var result := FinalResult(ending, truncated);
    var c1 := CompleteAndSend(c, id, result);
    var c2 := c1.(running := c1.running - {id});
    if Unproved(ending) then
      Shutdown(c2).(orphans := c.orphans[id := c.running[id].(truncated := truncated)])
    else c2
  }

  /** Output that arrives after its execution has ended runs through the same closure. */
  function EmitLate(c: ClientState, id: CommandId, stream: Stream, data: seq<Byte>): ClientState
    requires id in c.orphans
  {
    var d := Emit(c.(running := c.running[id := c.orphans[id]]), id, stream, data).0;
    d.(running := c.running, orphans := c.orphans[id := d.running[id]])
  }

  // ---------- Messages from the Server ----------

  /** `command.start`.  `admission` is what the Session and Local Policy checks decided:
      None admits the Command, Some(error) refuses it. */
  function Start(c: ClientState, id: CommandId, admission: Option<string>): ClientState {
    var (journal, receipt) := J.Receive(c.journal, id);
    var c1 := c.(journal := journal);
    match receipt
    case AlreadyCompleted =>
      var previous := J.ResultOf(journal, id);
      if previous.Some? then SendCompletion(c1, id, previous.value) else c1
    case InProgress => c1
    case New =>
      var limit := Min(DEFAULT_COMMAND_OUTPUT_BYTES, c.limits.commandBytes);
      if admission.Some? || limit < 1 then
        CompleteAndSend(c1, id, CommandResult(Failed, None, Some(admission.GetOr(EXCEEDS_POLICY)), false))
      else
        var c2 := c1.(running := c1.running[id := Execution(0, 0, false, limit)],
                      journal := J.MarkRunning(c1.journal, id));
        Deliver(c2, CommandStarted(id)).0
  }

  /** Whether a `command.start` reaches the executor. */
  predicate Launches(c: ClientState, id: CommandId, admission: Option<string>) {
    id !in c.journal.rows && admission.None? && c.limits.commandBytes >= 1
  }

  function Cancel(c: ClientState, id: CommandId): ClientState {
    if id in c.running then c
    else
      var previous := J.ResultOf(c.journal, id);
      if previous.Some? then SendCompletion(c, id, previous.value)
      else
        var (journal, receipt) := J.Receive(c.journal, id);
        var result :=
          if receipt == J.New then
            CommandResult(Cancelled, None, Some("Command was cancelled before execution started"), false)
          else
            CommandResult(ExecutionUnknown, None, Some("Command execution state was unavailable when cancellation arrived"), false);
        CompleteAndSend(c.(journal := journal), id, result)
  }

  function Acknowledged(c: ClientState, id: CommandId): ClientState {
    c.(journal := J.Acknowledge(c.journal, id), unconfirmed := c.unconfirmed - {id}, truncated := c.truncated - {id})
  }

  // ---------- Connection and process events ----------

  function CloseEvent(c: ClientState): ClientState {
    MarkAllUnconfirmedTruncated(c).(socket := Absent, authenticated := false, sent := [])
  }

  /** A crash loses everything but the journal, which the next start recovers. */
  function Restart(c: ClientState): ClientState {
    ClientState(c.limits, J.Recover(c.journal), [], {}, {}, map[], false, Absent, 0, [], c.accepted, false, map[])
  }

  function NewClient(limits: Limits): ClientState {
    ClientState(limits, J.EMPTY_TABLE, [], {}, {}, map[], false, Absent, 0, [], [], false, map[])
  }
}
