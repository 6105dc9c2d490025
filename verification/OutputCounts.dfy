/** An execution's counters are what its history says it has handed out, in every lifetime of
    its journal row; so it takes the output its process writes up to its limit. */
module OutputCounts {
  import opened Wire
  import opened ClientOutput
  import opened ClientProgress
  import opened OutputProtocol
  import opened OutputHonesty
  import opened OutputTaken
  import J = Journal

  // ---------- One turn ----------

  /** The limit an execution is started with. */
  function OutputLimit(limits: Limits): nat {
    Min(1024 * 1024, limits.commandBytes)
  }

  /** The execution has handed out `chunks` more, or the same but flagged. */
  predicate Advances(e: Execution, f: Execution, chunks: seq<Chunk>) {
    f == Advanced(e, chunks).(truncated := f.truncated)
  }

  lemma TruncatesOnly(c: ClientState, id: CommandId)
    requires id in c.running
    ensures TruncateExecution(c, id).running == c.running[id := c.running[id].(truncated := true)]
  {
    hide MarkMessages, J.TruncateRows;
    assert c.running[id].truncated ==> c.running[id].(truncated := true) == c.running[id];
    assert c.running[id := c.running[id]] == c.running;
  }

  lemma ChunkAdvances(c: ClientState, id: CommandId, chunk: Chunk)
    requires id in c.running
    ensures var (d, ok) := EmitChunk(c, id, chunk);
            d.running == c.running[id := if ok then Advanced(c.running[id], [chunk]) else c.running[id].(truncated := true)]
  {
    hide Deliver, TruncateExecution;
    OneChunk(chunk);
    TruncatesOnly(Deliver(c, CommandOutput(id, c.running[id].sequence, chunk)).0, id);
  }

  /** The other executions go on as they were. */
  predicate OnlyAdvances(c: ClientState, d: ClientState, id: CommandId, chunks: seq<Chunk>)
    requires id in c.running
  {
    id in d.running && d.running == c.running[id := d.running[id]] && Advances(c.running[id], d.running[id], chunks)
  }

  lemma {:induction false} ChunksAdvance(c: ClientState, id: CommandId, stream: Stream, data: seq<Byte>)
    requires id in c.running
    ensures var (d, chunks) := EmitChunks(c, id, stream, data);
            OnlyAdvances(c, d, id, chunks) && ByteCount(chunks) <= |data|
    decreases |data|
  {
    hide EmitChunk, ByteCount, SameButWire, Advanced;
    AdvancedByNone(c.running[id]);
    NothingFlattens();
    if data == [] {
      assert c.running[id := c.running[id]] == c.running;
    } else {
      var chunk := NextChunk(stream, data);
      var (c1, ok) := EmitChunk(c, id, chunk);
      ChunkAdvances(c, id, chunk);
      OneChunk(chunk);
      if ok {
        var rest := data[|chunk.data|..];
        ChunksAdvance(c1, id, stream, rest);
        var (d, chunks) := EmitChunks(c1, id, stream, rest);
        FlattenConcat([chunk], chunks);
        AdvanceOnce(c.running[id], c1.running[id], d.running[id], chunk, chunks);
        assert d.running == c.running[id := d.running[id]];
      } else {
        AdvancedFlagged(c.running[id]);
      }
    }
  }

  lemma AdvancedFlagged(e: Execution)
    ensures Advances(e, e, []) && Advances(e, e.(truncated := true), [])
  {
    AdvancedByNone(e);
  }

  lemma AdvanceOnce(e: Execution, f: Execution, g: Execution, chunk: Chunk, chunks: seq<Chunk>)
    requires f == Advanced(e, [chunk]) && Advances(f, g, chunks)
    ensures Advances(e, g, [chunk] + chunks)
  {
    AdvancedTwice(e, chunk, chunks);
  }

  lemma AdvancesThenFlagged(e: Execution, f: Execution, chunks: seq<Chunk>)
    requires Advances(e, f, chunks)
    ensures Advances(e, f.(truncated := true), chunks) && f.limit == e.limit && f.outputBytes == e.outputBytes + ByteCount(chunks)
  {
  }

  lemma EmitAdvances(c: ClientState, id: CommandId, stream: Stream, data: seq<Byte>)
    requires id in c.running && c.running[id].outputBytes <= c.running[id].limit
    ensures var (d, chunks) := Emit(c, id, stream, data);
            && OnlyAdvances(c, d, id, chunks) && d.limits == c.limits
            && d.running[id].outputBytes <= d.running[id].limit
  {
    hide EmitChunks, TruncateExecution, Advances;
    var e := c.running[id];
    AdvancedFlagged(e);
    if id in c.truncated || e.truncated {
    } else if e.limit <= e.outputBytes {
      TruncatesOnly(c, id);
    } else {
      var taken := Min(e.limit - e.outputBytes, |data|);
      ChunksAdvance(c, id, stream, data[..taken]);
      var (d, chunks) := EmitChunks(c, id, stream, data[..taken]);
      AdvancesThenFlagged(e, d.running[id], chunks);
      TruncatesOnly(d, id);
      assert d.running[id := d.running[id].(truncated := true)] == c.running[id := d.running[id].(truncated := true)];
    }
  }

  // ---------- Every step ----------

  /** A running execution has handed out what its history says; a lifetime that has not begun
      has no history of output. */
  ghost predicate Counts(w: World, id: CommandId) {
    && (id in w.client.running ==> CountsRunning(w.client.running[id], HistoryOf(w, Current(w, id)).emitted, w.client.limits))
    && (id !in w.client.journal.rows ==> HistoryOf(w, Current(w, id)).emitted == [])
    && (forall n: nat | Deletions(w, id) < n :: HistoryOf(w, Lifetime(id, n)).emitted == [])
  }

  predicate CountsRunning(e: Execution, emitted: seq<Chunk>, limits: Limits) {
    && e.sequence == |emitted| && e.outputBytes == ByteCount(emitted) <= e.limit
    && e.limit == OutputLimit(limits)
  }

  lemma CountsMore(e: Execution, f: Execution, emitted: seq<Chunk>, chunks: seq<Chunk>, limits: Limits)
    requires CountsRunning(e, emitted, limits) && Advances(e, f, chunks) && f.outputBytes <= f.limit
    ensures CountsRunning(f, emitted + chunks, limits)
  {
    FlattenConcat(emitted, chunks);
  }

  lemma StartRuns(c: ClientState, x: CommandId, admission: Option<string>, id: CommandId)
    requires Agree(c, x)
    ensures var d := Start(c, x, admission);
            && d.limits == c.limits
            && (id in d.running ==>
                  || (id in c.running && d.running[id] == c.running[id])
                  || (id == x && x !in c.journal.rows && x !in c.running && d.running[x] == Execution(0, 0, false, OutputLimit(c.limits))))
  {
    hide Deliver, J.Complete, J.MarkRunning, Completion;
  }

  lemma FinishRuns(c: ClientState, x: CommandId, ending: Ending)
    requires x in c.running
    ensures Finish(c, x, ending).running == c.running - {x} && Finish(c, x, ending).limits == c.limits
  {
    hide Deliver, J.Complete, Completion, MarkMessages, J.TruncateRows;
  }

  lemma LateRuns(c: ClientState, x: CommandId, stream: Stream, data: seq<Byte>)
    requires x in c.orphans
    ensures EmitLate(c, x, stream, data).running == c.running && EmitLate(c, x, stream, data).limits == c.limits
  {
    hide Emit;
  }

  lemma AuthenticatedRuns(c: ClientState)
    ensures ClientOutput.Authenticated(c).running == c.running && ClientOutput.Authenticated(c).limits == c.limits
  {
    hide Flush, Reconcile;
  }

  lemma CancelRuns(c: ClientState, x: CommandId)
    ensures Cancel(c, x).running == c.running && Cancel(c, x).limits == c.limits
  {
    hide Deliver, J.Complete, Completion;
  }

  /** What a step does to the executions besides handing out output. */
  lemma RunningStep(w: World, s: Step, id: CommandId)
    requires Enabled(w, s) && AllAgree(w.client) && !(s.ProcessOutput? && s.id == id)
    ensures var (c, d) := (w.client, Apply(w, s).client);
            && d.limits == c.limits
            && (id in d.running ==>
                  || (id in c.running && d.running[id] == c.running[id])
                  || (s.ReceiveStart? && s.id == id && id !in c.journal.rows && id !in c.running
                      && d.running[id] == Execution(0, 0, false, OutputLimit(c.limits))))
  {
    hide Start, Cancel, Finish, EmitLate, Emit, ClientOutput.Authenticated, MarkMessages, J.TruncateRows, J.Recover, Handle, Launches, Tag, Agree;
    var c := w.client;
    match s {
      case ReceiveStart(x, admission) =>
        assert Agree(c, x);
        StartRuns(c, x, admission, id);
      case ReceiveCancel(x) => CancelRuns(c, x);
      case ProcessOutput(x, stream, data) => EmitLeavesOthers(c, x, stream, data, id);
      case LateOutput(life, stream, data) =>
        if life.id in c.orphans {
          LateRuns(c, life.id, stream, data);
        }
      case ExecutionEnds(x, ending) => FinishRuns(c, x, ending);
      case ReceiveAuthenticated => AuthenticatedRuns(c);
      case _ =>
    }
  }

  lemma EmitLeavesOthers(c: ClientState, x: CommandId, stream: Stream, data: seq<Byte>, id: CommandId)
    requires x in c.running && x != id
    ensures var d := Emit(c, x, stream, data).0;
            d.limits == c.limits && (id in d.running <==> id in c.running) && (id in c.running ==> d.running[id] == c.running[id])
  {
    hide EmitChunks, TruncateExecution, Advances;
    var e := c.running[x];
    if x in c.truncated || e.truncated {
    } else if e.limit <= e.outputBytes {
      TruncatesOnly(c, x);
    } else {
      var taken := data[..Min(e.limit - e.outputBytes, |data|)];
      ChunksAdvance(c, x, stream, taken);
      TruncatesOnly(EmitChunks(c, x, stream, taken).0, x);
    }
  }

  lemma StepCounts(w: World, s: Step, id: CommandId)
    requires Enabled(w, s) && AllAgree(w.client) && Counts(w, id)
    ensures Counts(Apply(w, s), id)
  {
    hide Apply, Enabled, Emit, CountsRunning, AllAgree;
    var v := Apply(w, s);
    DeletionsGrow(w, s, id);
    AgreeOne(w.client, id);
    OutputNeedsRow(w, s, id);
    RowStays(w, s, id);
    forall n: nat
      ensures HistoryOf(v, Lifetime(id, n)) == Recorded(w, s, Lifetime(id, n))
    {
      StepRecords(w, s, Lifetime(id, n));
    }
    if s.ProcessOutput? && s.id == id {
      OutputStepCounts(w, s);
    } else {
      RunningStep(w, s, id);
      NothingCounts(w.client.limits);
      assert forall n: nat :: HistoryOf(v, Lifetime(id, n)).emitted == HistoryOf(w, Lifetime(id, n)).emitted;
      assert id in v.client.running && id in w.client.running ==> Deletions(v, id) == Deletions(w, id);
    }
  }

  /** Only an acknowledgement deletes a row. */
  lemma RowStays(w: World, s: Step, id: CommandId)
    requires Enabled(w, s) && AllAgree(w.client) && Agree(w.client, id)
    ensures id in w.client.journal.rows && id !in Apply(w, s).client.journal.rows ==>
              s == ReceiveAcknowledged(id) && Finished(w.client, id)
  {
    hide Apply, Enabled;
    StepProgress(w, s, id);
    if s == ReceiveAcknowledged(id) && !Finished(w.client, id) {
      UnfinishedStays(w, id);
    }
  }

  lemma UnfinishedStays(w: World, id: CommandId)
    requires Enabled(w, ReceiveAcknowledged(id)) && !Finished(w.client, id)
    ensures Apply(w, ReceiveAcknowledged(id)).client.journal == w.client.journal
  {
  }

  /** Output is of a running execution, which has a row that is not completed. */
  lemma OutputNeedsRow(w: World, s: Step, id: CommandId)
    requires Enabled(w, s) && Agree(w.client, id)
    ensures s.ProcessOutput? && s.id == id ==> id in w.client.running && id in w.client.journal.rows
    ensures id in w.client.running ==> id in w.client.journal.rows && !Finished(w.client, id)
  {
  }

  lemma OutputStepCounts(w: World, s: Step)
    requires Enabled(w, s) && s.ProcessOutput? && s.id in w.client.running
    requires CountsRunning(w.client.running[s.id], HistoryOf(w, Current(w, s.id)).emitted, w.client.limits)
    ensures var v := Apply(w, s);
            s.id in v.client.running
            && CountsRunning(v.client.running[s.id], HistoryOf(v, Current(v, s.id)).emitted, v.client.limits)
  {
    hide Emit, CountsRunning, Advances;
    var (d, chunks) := Emit(w.client, s.id, s.stream, s.data);
    WithinLimit(w.client.running[s.id], HistoryOf(w, Current(w, s.id)).emitted, w.client.limits);
    EmitAdvances(w.client, s.id, s.stream, s.data);
    CountsMore(w.client.running[s.id], d.running[s.id], HistoryOf(w, Current(w, s.id)).emitted, chunks, w.client.limits);
  }

  lemma WithinLimit(e: Execution, emitted: seq<Chunk>, limits: Limits)
    requires CountsRunning(e, emitted, limits)
    ensures e.outputBytes <= e.limit
  {
  }

  lemma NothingCounts(limits: Limits)
    ensures CountsRunning(Execution(0, 0, false, OutputLimit(limits)), [], limits)
  {
    NothingFlattens();
  }

  lemma {:induction false} RunCounts(w: World, steps: seq<Step>, id: CommandId)
    requires IsRun(w, steps) && AllAgree(w.client) && Counts(w, id)
    ensures Counts(After(w, steps), id)
    decreases |steps|
  {
    hide Counts, AllAgree, Enabled, Apply;
    if steps != [] {
      StepCounts(w, steps[0], id);
      StepAllAgree(w, steps[0]);
      RunCounts(Apply(w, steps[0]), steps[1..], id);
    }
  }

  lemma ReachableCounts(w: World, id: CommandId)
    requires Reachable(w)
    ensures Counts(w, id)
  {
    hide IsRun, After;
    var limits, steps :| IsRun(InitialWorld(limits), steps) && After(InitialWorld(limits), steps) == w;
    InitialInvariant(limits);
    RunCounts(InitialWorld(limits), steps, id);
  }

  // ---------- The theorem ----------

  /** What the limit still leaves of the bytes an execution may hand out. */
  function OutputRoom(w: World, id: CommandId): nat {
    Max(0, OutputLimit(w.client.limits) - ByteCount(HistoryOf(w, Current(w, id)).emitted))
  }

  /** In every reachable state output of an execution that nothing is lost of is taken as far as
      the limit of the Command allows, if that fits the connection or the buffer: the bytes
      handed out grow by exactly these, the messages follow everything that waits or was sent,
      and nothing is flagged, unless there was more or the limit had been reached before; then
      this Command is flagged, and no other one. */
  lemma OutputIsTaken(w: World, id: CommandId, stream: Stream, data: seq<Byte>)
    requires Reachable(w) && id in w.client.running && !w.client.running[id].truncated && id !in w.client.truncated
    requires var n := Min(OutputRoom(w, id), |data|);
             Fits(w.client, (n + 256 * 1024 - 1) / (256 * 1024), n)
    ensures var v := Apply(w, ProcessOutput(id, stream, data));
            var (before, after) := (HistoryOf(w, Current(w, id)).emitted, HistoryOf(v, Current(v, id)).emitted);
            var room := OutputRoom(w, id);
            && Flatten(after) == Flatten(before) + Tag(stream, data[..Min(room, |data|)])
            && before <= after
            && v.client.accepted == w.client.accepted + Outputs(id, |before|, after[|before|..])
            && (if |data| <= room && room > 0 then
                  && Unflagged(w.client, v.client) && !v.client.running[id].truncated
                  && v.client.sent + v.client.buffer == w.client.sent + w.client.buffer + Outputs(id, |before|, after[|before|..])
                else FlaggedOnly(w.client, v.client, id))
  {
    hide Reachable, Apply, Emit, Fits, Unflagged, FlaggedOnly, Flatten, ByteCount, Tag, Outputs;
    ReachableCounts(w, id);
    OutputApplies(w, id, stream, data);
    BufferStaysBounded(w);
    var (c, before) := (w.client, HistoryOf(w, Current(w, id)).emitted);
    EmitTakes(c, id, stream, data);
    var chunks := Emit(c, id, stream, data).1;
    FlattenConcat(before, chunks);
    assert (before + chunks)[|before|..] == chunks;
  }

  lemma OutputApplies(w: World, id: CommandId, stream: Stream, data: seq<Byte>)
    requires id in w.client.running
    ensures var v := Apply(w, ProcessOutput(id, stream, data));
            && v.client == Emit(w.client, id, stream, data).0
            && HistoryOf(v, Current(v, id)).emitted == HistoryOf(w, Current(w, id)).emitted + Emit(w.client, id, stream, data).1
  {
    hide Emit;
  }

  /** The limit is never exceeded, in any lifetime. */
  lemma OutputWithinLimit(w: World, id: CommandId)
    requires Reachable(w) && id in w.client.running
    ensures var e := w.client.running[id];
            var emitted := HistoryOf(w, Current(w, id)).emitted;
            e.sequence == |emitted| && e.outputBytes == ByteCount(emitted) <= e.limit == OutputLimit(w.client.limits)
  {
    hide Reachable;
    ReachableCounts(w, id);
  }
}
