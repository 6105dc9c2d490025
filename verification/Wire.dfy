/** The vocabulary the Client and the Server share: identifiers, output chunks,
    Command results and the Client-to-Server messages.  Timestamps carried by
    messages are not part of this model. */
module Wire {
  datatype Option<+T> = None | Some(value: T) {
    function GetOr(default: T): T {
      if Some? then value else default
    }
  }

  type CommandId = nat
  type SessionId = nat
  type Byte = b: int | 0 <= b < 256 witness 0

  /** The largest output the Server stores for one Command. */
  const DEFAULT_COMMAND_OUTPUT_BYTES: nat := 1024 * 1024
  /** The largest output message the Client builds. */
  const CHUNK_BYTES: nat := 256 * 1024
  /** The largest sequence number the message schema accepts. */
  const MAX_SEQUENCE: nat := 1_000_000

  const OUTPUT_INCOMPLETE := "Command output is incomplete"

  datatype Stream = Stdout | Stderr
  datatype Chunk = Chunk(stream: Stream, data: seq<Byte>)

  /** The terminal Command statuses. */
  datatype Outcome = Succeeded | Failed | Cancelled | TimedOut | ExecutionUnknown

  datatype CommandResult = CommandResult(
    status: Outcome,
    exitCode: Option<int>,
    error: Option<string>,
    outputTruncated: bool)

  datatype ClientMessage =
    | SessionOpened(sessionId: SessionId)
    | SessionOpenFailed(sessionId: SessionId)
    | SessionClosed(sessionId: SessionId, reason: string)
    | CommandStarted(commandId: CommandId)
    | CommandOutput(commandId: CommandId, sequence: nat, chunk: Chunk)
    | CommandCompleted(commandId: CommandId, result: CommandResult)

  function Min(a: int, b: int): int {
    if a < b then a else b
  }

  function Max(a: int, b: int): int {
    if a > b then a else b
  }

  /** A result with its output marked incomplete; a result that already says so is kept. */
  function TruncatedResult(result: CommandResult): (r: CommandResult)
    ensures r.outputTruncated && r.status == result.status && r.exitCode == result.exitCode
    ensures result.error.Some? ==> r.error == result.error
    ensures result.error.None? && !result.outputTruncated ==> r.error == Some("Command output is incomplete")
    ensures result.outputTruncated ==> r == result
  {
    if result.outputTruncated then result
    else result.(error := if result.error.Some? then result.error else Some(OUTPUT_INCOMPLETE),
                 outputTruncated := true)
  }

  /** One byte of process output together with the stream it came from. */
  datatype TaggedByte = TaggedByte(stream: Stream, value: Byte)

  function Tag(stream: Stream, data: seq<Byte>): (tagged: seq<TaggedByte>)
    ensures |tagged| == |data|
  {
    seq(|data|, i requires 0 <= i < |data| => TaggedByte(stream, data[i]))
  }

  /** The bytes a list of chunks carries, in order. */
  function Flatten(chunks: seq<Chunk>): seq<TaggedByte> {
    if chunks == [] then []
    else Flatten(chunks[..|chunks| - 1]) + Tag(chunks[|chunks| - 1].stream, chunks[|chunks| - 1].data)
  }

  function ByteCount(chunks: seq<Chunk>): nat {
    if chunks == [] then 0 else ByteCount(chunks[..|chunks| - 1]) + |chunks[|chunks| - 1].data|
  }

  lemma FlattenPush(chunks: seq<Chunk>, chunk: Chunk)
    ensures Flatten(chunks + [chunk]) == Flatten(chunks) + Tag(chunk.stream, chunk.data)
    ensures ByteCount(chunks + [chunk]) == ByteCount(chunks) + |chunk.data|
  {
    assert (chunks + [chunk])[..|chunks|] == chunks;
  }

  lemma NothingFlattens()
    ensures Flatten([]) == [] && ByteCount([]) == 0
  {
  }

  lemma {:induction false} FlattenConcat(a: seq<Chunk>, b: seq<Chunk>)
    ensures Flatten(a + b) == Flatten(a) + Flatten(b)
    ensures ByteCount(a + b) == ByteCount(a) + ByteCount(b)
  {
    hide Flatten, ByteCount;
    NothingFlattens();
    if b == [] {
      assert a + b == a;
    } else {
      var (front, last) := (b[..|b| - 1], b[|b| - 1]);
      FlattenConcat(a, front);
      FlattenPush(a + front, last);
      FlattenPush(front, last);
      assert b == front + [last] && a + b == (a + front) + [last];
    }
  }

  lemma {:induction false} FlattenLength(chunks: seq<Chunk>)
    ensures |Flatten(chunks)| == ByteCount(chunks)
  {
    if chunks != [] {
      FlattenLength(chunks[..|chunks| - 1]);
    }
  }

  lemma {:induction false} ByteCountPrefix(chunks: seq<Chunk>, n: nat)
    requires n <= |chunks|
    ensures ByteCount(chunks[..n]) <= ByteCount(chunks)
    ensures n < |chunks| && (forall i | 0 <= i < |chunks| :: chunks[i].data != []) ==>
              ByteCount(chunks[..n]) < ByteCount(chunks)
  {
    if n == |chunks| {
      assert chunks[..n] == chunks;
    } else {
      var front := chunks[..|chunks| - 1];
      ByteCountPrefix(front, n);
      assert front[..n] == chunks[..n];
      if forall i | 0 <= i < |chunks| :: chunks[i].data != [] {
        assert chunks[|chunks| - 1].data != [];
        assert forall i | 0 <= i < |front| :: front[i] == chunks[i];
      }
    }
  }

  lemma SubsetSize<T>(a: set<T>, b: set<T>)
    requires a <= b
    ensures |a| <= |b|
  {
    assert b == a + (b - a);
  }
}
