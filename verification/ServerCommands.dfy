/** A Command row of the Server's database together with its stored output chunks, and
    the statements that change it (apps/server/src/session-database.ts). */
module ServerCommands {
  import opened Wire

  datatype CommandStatus =
    | Queued
    | Delivered
    | InExecution
    | CancellationRequested
    | Terminal(outcome: Outcome)

  datatype CommandRow = CommandRow(
    sessionId: SessionId,
    status: CommandStatus,
    startedAt: Option<int>,
    finishedAt: Option<int>,
    exitCode: Option<int>,
    error: Option<string>,
    outputTruncated: bool,
    stdoutBytes: nat,
    stderrBytes: nat,
    chunks: map<nat, Chunk>)

  predicate Active(row: CommandRow) {
    !row.status.Terminal?
  }

  function NewCommand(sessionId: SessionId): CommandRow {
    CommandRow(sessionId, Queued, None, None, None, None, false, 0, 0, map[])
  }

  function MarkStarted(row: CommandRow, at: int): CommandRow {
    if row.status == Queued || row.status == Delivered then row.(status := InExecution, startedAt := Some(at)) else row
  }

  function RequestCancellation(row: CommandRow): CommandRow {
    if Active(row) then row.(status := CancellationRequested) else row
  }

  /** Stores a chunk once; refuses it on an inactive Command or beyond the byte ceiling. */
  function AddOutput(row: CommandRow, sequence: nat, chunk: Chunk): (CommandRow, bool) {
    if !Active(row) then (row, false)
    else if row.stdoutBytes + row.stderrBytes + |chunk.data| > DEFAULT_COMMAND_OUTPUT_BYTES then (row, false)
    else if sequence in row.chunks then (row, true)
    else
      var stored := row.(chunks := row.chunks[sequence := chunk]);
      (if chunk.stream == Stdout then stored.(stdoutBytes := row.stdoutBytes + |chunk.data|)
       else stored.(stderrBytes := row.stderrBytes + |chunk.data|),
       true)
  }

  const MAX_ERROR: nat := 2048

  function Slice(error: Option<string>): Option<string> {
    if error.Some? && |error.value| > MAX_ERROR then Some(error.value[..MAX_ERROR]) else error
  }

  function MarkCompleted(row: CommandRow, result: CommandResult, at: int): CommandRow {
    if !Active(row) then row
    else row.(status := Terminal(result.status), exitCode := result.exitCode, error := Slice(result.error),
              outputTruncated := result.outputTruncated, finishedAt := Some(at))
  }

  /** A Command's stored chunks below `bound`, in sequence order. */
  function InOrder(chunks: map<nat, Chunk>, bound: nat): seq<Chunk> {
    if bound == 0 then []
    else InOrder(chunks, bound - 1) + (if bound - 1 in chunks then [chunks[bound - 1]] else [])
  }

  // ---------- Lifecycle ----------

  function Rank(status: CommandStatus): nat {
    match status
    case Queued => 0
    case Delivered => 1
    case InExecution => 2
    case CancellationRequested => 3
    case Terminal(_) => 4
  }

  datatype CommandStep =
    | Started(at: int)
    | Cancelled()
    | Output(sequence: nat, chunk: Chunk)
    | Completed(result: CommandResult, at: int)

  function Advance(row: CommandRow, s: CommandStep): CommandRow {
    match s
    case Started(at) => MarkStarted(row, at)
    case Cancelled => RequestCancellation(row)
    case Output(sequence, chunk) => AddOutput(row, sequence, chunk).0
    case Completed(result, at) => MarkCompleted(row, result, at)
  }

  function AdvanceAll(row: CommandRow, ss: seq<CommandStep>): CommandRow
    decreases |ss|
  {
    if ss == [] then row else AdvanceAll(Advance(row, ss[0]), ss[1..])
  }

  /** Over every run the rank never falls, a terminal row never changes at all, and
      `finishedAt` is set exactly when the row is terminal. */
  lemma {:induction false} CommandProgress(row: CommandRow, ss: seq<CommandStep>)
    requires row.finishedAt.Some? <==> row.status.Terminal?
    ensures Rank(row.status) <= Rank(AdvanceAll(row, ss).status)
    ensures row.status.Terminal? ==> AdvanceAll(row, ss) == row
    ensures AdvanceAll(row, ss).finishedAt.Some? <==> AdvanceAll(row, ss).status.Terminal?
    decreases |ss|
  {
    if ss != [] {
      CommandProgress(Advance(row, ss[0]), ss[1..]);
    }
  }

  // ---------- What a run records ----------

  /** The first completion decides a Command: its status, exit code, flag and time stay, and
      its error up to the length the database keeps. */
  lemma {:induction false} FirstEndWins(row: CommandRow, ss: seq<CommandStep>, k: nat)
    requires !row.status.Terminal? && k < |ss| && ss[k].Completed?
    requires forall i | 0 <= i < k :: !ss[i].Completed?
    ensures var (after, result) := (AdvanceAll(row, ss), ss[k].result);
            && after.status == Terminal(result.status) && after.exitCode == result.exitCode
            && after.outputTruncated == result.outputTruncated && after.finishedAt == Some(ss[k].at)
            && (after.error.Some? <==> result.error.Some?)
            && (result.error.Some? ==> after.error.value == result.error.value[..Min(2_048, |result.error.value|)])
    decreases |ss|
  {
    var next := Advance(row, ss[0]);
    if k == 0 {
      var error := ss[0].result.error;
      assert error.Some? ==> error.value[..|error.value|] == error.value;
      EndIsFinal(next, ss[1..]);
    } else {
      assert ss[1..][k - 1] == ss[k] && forall i | 0 <= i < k - 1 :: ss[1..][i] == ss[i + 1];
      FirstEndWins(next, ss[1..], k - 1);
    }
  }

  lemma {:induction false} EndIsFinal(row: CommandRow, ss: seq<CommandStep>)
    requires row.status.Terminal?
    ensures AdvanceAll(row, ss) == row
    decreases |ss|
  {
    if ss != [] {
      EndIsFinal(row, ss[1..]);
    }
  }

  /** Until a completion a cancellation outranks every start, and a start is recorded for a
      Command that waited for one; nothing else of the row's outcome is touched. */
  lemma {:induction false} UndecidedRun(row: CommandRow, ss: seq<CommandStep>)
    requires !row.status.Terminal? && forall i | 0 <= i < |ss| :: !ss[i].Completed?
    ensures var after := AdvanceAll(row, ss);
            && (if exists i | 0 <= i < |ss| :: ss[i].Cancelled? then after.status == CancellationRequested
                else if (row.status == Queued || row.status == Delivered) && exists i | 0 <= i < |ss| :: ss[i].Started? then
                  after.status == InExecution
                else after.status == row.status)
            && after.finishedAt == row.finishedAt && after.exitCode == row.exitCode && after.error == row.error
            && after.outputTruncated == row.outputTruncated
    decreases |ss|
  {
    if ss != [] {
      var (next, rest) := (Advance(row, ss[0]), ss[1..]);
      assert forall i | 0 <= i < |rest| :: rest[i] == ss[i + 1];
      UndecidedRun(next, rest);
      assert (exists i | 0 <= i < |ss| :: ss[i].Cancelled?) <==>
               ss[0].Cancelled? || exists i | 0 <= i < |rest| :: rest[i].Cancelled?;
      assert (exists i | 0 <= i < |ss| :: ss[i].Started?) <==>
               ss[0].Started? || exists i | 0 <= i < |rest| :: rest[i].Started?;
    }
  }

  /** A new Command is queued, has no result and no output, and stays with its Session. */
  lemma NewCommandRun(sessionId: SessionId, ss: seq<CommandStep>)
    requires forall i | 0 <= i < |ss| :: !ss[i].Completed?
    ensures var after := AdvanceAll(NewCommand(sessionId), ss);
            && (if exists i | 0 <= i < |ss| :: ss[i].Cancelled? then after.status == CancellationRequested
                else if exists i | 0 <= i < |ss| :: ss[i].Started? then after.status == InExecution
                else after.status == Queued)
            && after.finishedAt == None && after.exitCode == None && after.error == None && !after.outputTruncated
            && after.sessionId == sessionId
    ensures ss == [] ==> AdvanceAll(NewCommand(sessionId), ss).chunks == map[]
  {
    UndecidedRun(NewCommand(sessionId), ss);
    SessionStays(NewCommand(sessionId), ss);
  }

  lemma {:induction false} SessionStays(row: CommandRow, ss: seq<CommandStep>)
    ensures AdvanceAll(row, ss).sessionId == row.sessionId
    decreases |ss|
  {
    if ss != [] {
      SessionStays(Advance(row, ss[0]), ss[1..]);
    }
  }

  /** The first start of a waiting Command sets its start time, for ever. */
  lemma {:induction false} FirstStartWins(row: CommandRow, ss: seq<CommandStep>, k: nat)
    requires (row.status == Queued || row.status == Delivered) && k < |ss| && ss[k].Started?
    requires forall i | 0 <= i < k :: ss[i].Output?
    ensures AdvanceAll(row, ss).startedAt == Some(ss[k].at)
    decreases |ss|
  {
    var next := Advance(row, ss[0]);
    if k == 0 {
      StartIsFinal(next, ss[1..]);
    } else {
      assert ss[1..][k - 1] == ss[k] && forall i | 0 <= i < k - 1 :: ss[1..][i] == ss[i + 1];
      FirstStartWins(next, ss[1..], k - 1);
    }
  }

  /** No other Command's start time changes. */
  lemma {:induction false} StartIsFinal(row: CommandRow, ss: seq<CommandStep>)
    requires row.status != Queued && row.status != Delivered
    ensures AdvanceAll(row, ss).startedAt == row.startedAt
    decreases |ss|
  {
    if ss != [] {
      StartIsFinal(Advance(row, ss[0]), ss[1..]);
    }
  }

  /** An output is taken exactly while the Command has not ended and the bytes fit; what is
      taken first under a number is what is stored under it. */
  lemma {:induction false} FirstChunkWins(row: CommandRow, sequence: nat, chunk: Chunk, ss: seq<CommandStep>)
    ensures AddOutput(row, sequence, chunk).1 <==>
              !row.status.Terminal? && row.stdoutBytes + row.stderrBytes + |chunk.data| <= 1024 * 1024
    ensures sequence in row.chunks || AddOutput(row, sequence, chunk).1 ==>
              var stored := AdvanceAll(Advance(row, Output(sequence, chunk)), ss).chunks;
              sequence in stored && stored[sequence] == if sequence in row.chunks then row.chunks[sequence] else chunk
    ensures sequence !in row.chunks && !AddOutput(row, sequence, chunk).1 ==> Advance(row, Output(sequence, chunk)) == row
  {
    var next := Advance(row, Output(sequence, chunk));
    if sequence in next.chunks {
      ChunksStay(next, ss, sequence);
    }
  }

  lemma {:induction false} ChunksStay(row: CommandRow, ss: seq<CommandStep>, sequence: nat)
    requires sequence in row.chunks
    ensures sequence in AdvanceAll(row, ss).chunks && AdvanceAll(row, ss).chunks[sequence] == row.chunks[sequence]
    decreases |ss|
  {
    if ss != [] {
      ChunksStay(Advance(row, ss[0]), ss[1..], sequence);
    }
  }

  // ---------- Output accounting ----------

  /** The bytes stored below `bound`. */
  function StoredBytes(chunks: map<nat, Chunk>, bound: nat): nat {
    ByteCount(InOrder(chunks, bound))
  }

  /** The bytes stored of one stream below `bound`. */
  function StreamBytes(chunks: map<nat, Chunk>, stream: Stream, bound: nat): nat {
    if bound == 0 then 0
    else StreamBytes(chunks, stream, bound - 1)
         + if bound - 1 in chunks && chunks[bound - 1].stream == stream then |chunks[bound - 1].data| else 0
  }

  /** Each counter holds the bytes stored of its own stream. */
  ghost predicate Accounted(row: CommandRow, bound: nat) {
    && (forall s | s in row.chunks :: s < bound)
    && row.stdoutBytes == StreamBytes(row.chunks, Stdout, bound)
    && row.stderrBytes == StreamBytes(row.chunks, Stderr, bound)
    && StoredBytes(row.chunks, bound) <= DEFAULT_COMMAND_OUTPUT_BYTES
  }

  lemma {:induction false} InOrderFrame(a: map<nat, Chunk>, b: map<nat, Chunk>, bound: nat)
    requires forall s: nat | s < bound :: (s in a <==> s in b) && (s in a ==> a[s] == b[s])
    ensures InOrder(a, bound) == InOrder(b, bound)
  {
    if bound > 0 {
      InOrderFrame(a, b, bound - 1);
    }
  }

  lemma {:induction false} StoreAddsBytes(chunks: map<nat, Chunk>, s: nat, chunk: Chunk, bound: nat)
    requires s < bound && s !in chunks
    ensures StoredBytes(chunks[s := chunk], bound) == StoredBytes(chunks, bound) + |chunk.data|
  {
    var after := chunks[s := chunk];
    if s == bound - 1 {
      InOrderFrame(chunks, after, bound - 1);
      assert InOrder(after, bound) == InOrder(chunks, bound - 1) + [chunk];
      assert InOrder(chunks, bound) == InOrder(chunks, bound - 1);
      FlattenPush(InOrder(chunks, bound - 1), chunk);
    } else {
      StoreAddsBytes(chunks, s, chunk, bound - 1);
      if bound - 1 in chunks {
        FlattenPush(InOrder(chunks, bound - 1), chunks[bound - 1]);
        FlattenPush(InOrder(after, bound - 1), chunks[bound - 1]);
      } else {
        assert InOrder(after, bound) == InOrder(after, bound - 1);
        assert InOrder(chunks, bound) == InOrder(chunks, bound - 1);
      }
    }
  }

  lemma {:induction false} StreamFrame(a: map<nat, Chunk>, b: map<nat, Chunk>, stream: Stream, bound: nat)
    requires forall s: nat | s < bound :: (s in a <==> s in b) && (s in a ==> a[s] == b[s])
    ensures StreamBytes(a, stream, bound) == StreamBytes(b, stream, bound)
  {
    if bound > 0 {
      StreamFrame(a, b, stream, bound - 1);
    }
  }

  lemma {:induction false} StoreAddsToStream(chunks: map<nat, Chunk>, s: nat, chunk: Chunk, stream: Stream, bound: nat)
    requires s < bound && s !in chunks
    ensures StreamBytes(chunks[s := chunk], stream, bound)
         == StreamBytes(chunks, stream, bound) + if chunk.stream == stream then |chunk.data| else 0
  {
    if s == bound - 1 {
      StreamFrame(chunks, chunks[s := chunk], stream, bound - 1);
    } else {
      StoreAddsToStream(chunks, s, chunk, stream, bound - 1);
    }
  }

  /** What is stored is stored of one of the two streams. */
  lemma {:induction false} StreamsAddUp(chunks: map<nat, Chunk>, bound: nat)
    ensures StreamBytes(chunks, Stdout, bound) + StreamBytes(chunks, Stderr, bound) == StoredBytes(chunks, bound)
  {
    if bound > 0 {
      StreamsAddUp(chunks, bound - 1);
      if bound - 1 in chunks {
        FlattenPush(InOrder(chunks, bound - 1), chunks[bound - 1]);
      } else {
        assert InOrder(chunks, bound) == InOrder(chunks, bound - 1);
      }
    }
  }

  lemma StoreAccounts(row: CommandRow, sequence: nat, chunk: Chunk, bound: nat)
    requires Accounted(row, bound) && sequence < bound
    ensures Accounted(AddOutput(row, sequence, chunk).0, bound)
  {
    hide StoredBytes, StreamBytes;
    StreamsAddUp(row.chunks, bound);
    if sequence !in row.chunks {
      StoreAddsBytes(row.chunks, sequence, chunk, bound);
      StoreAddsToStream(row.chunks, sequence, chunk, Stdout, bound);
      StoreAddsToStream(row.chunks, sequence, chunk, Stderr, bound);
    }
  }

  /** Over every run of statements, with outputs repeated and reordered at will, each byte
      counter is the number of bytes stored of its stream, and together they are the bytes
      stored, which never exceed the ceiling. */
  lemma {:induction false} OutputAccounting(row: CommandRow, ss: seq<CommandStep>, bound: nat)
    requires Accounted(row, bound)
    requires forall i | 0 <= i < |ss| && ss[i].Output? :: ss[i].sequence < bound
    ensures var after := AdvanceAll(row, ss);
            && Accounted(after, bound)
            && after.stdoutBytes + after.stderrBytes == StoredBytes(after.chunks, bound) <= 1024 * 1024
    decreases |ss|
  {
    hide StoredBytes, StreamBytes;
    StreamsAddUp(row.chunks, bound);
    if ss != [] {
      var next := Advance(row, ss[0]);
      if ss[0].Output? {
        StoreAccounts(row, ss[0].sequence, ss[0].chunk, bound);
      }
      assert forall i | 0 <= i < |ss[1..]| :: ss[1..][i] == ss[i + 1];
      OutputAccounting(next, ss[1..], bound);
    }
  }

  /** What is stored of a list of chunks never counts more than the list, and leaves room
      for every chunk of the list that is not stored yet. */
  lemma {:induction false} StoredWithin(chunks: map<nat, Chunk>, all: seq<Chunk>, missing: nat)
    requires forall s | s in chunks && s < |all| :: chunks[s] == all[s]
    ensures StoredBytes(chunks, |all|) <= ByteCount(all)
    ensures missing < |all| && missing !in chunks ==> StoredBytes(chunks, |all|) + |all[missing].data| <= ByteCount(all)
    decreases |all|
  {
    if all != [] {
      var n := |all| - 1;
      StoredWithin(chunks, all[..n], missing);
      if n in chunks {
        FlattenPush(InOrder(chunks, n), chunks[n]);
      } else {
        assert InOrder(chunks, n + 1) == InOrder(chunks, n);
      }
    }
  }

  /** If exactly the first `k` chunks of `all` are stored, reading them in order gives those. */
  lemma {:induction false} InOrderPrefix(chunks: map<nat, Chunk>, all: seq<Chunk>, k: nat, bound: nat)
    requires k <= |all|
    requires forall s: nat :: s in chunks <==> s < k
    requires forall s | s in chunks :: chunks[s] == all[s]
    ensures InOrder(chunks, bound) == all[..Min(k, bound)]
  {
    if bound > 0 {
      InOrderPrefix(chunks, all, k, bound - 1);
    }
  }
}
