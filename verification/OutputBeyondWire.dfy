/** A run on which the Server holds a Command as ended and not truncated although output is
    missing: the process writes one byte at a time, so the Client numbers more chunks than
    the message schema lets through. */
module OutputBeyondWire {
  import opened Wire
  import opened ClientOutput
  import opened OutputProtocol
  import opened OutputHonesty
  import J = Journal
  import S = ServerCommands

  const LIMITS := Limits(4_096, 16 * 1024 * 1024, DEFAULT_COMMAND_OUTPUT_BYTES)
  const ONE_BYTE: seq<Byte> := [0]

  // ---------- Writing ----------

  ghost predicate NoCompletions(ms: seq<ClientMessage>) {
    forall i | 0 <= i < |ms| :: !ms[i].CommandCompleted?
  }

  predicate Waiting(w: World) {
    0 in w.server && S.Active(w.server[0]) && !w.server[0].outputTruncated
  }

  /** Command 0 runs on a usable connection and has written `n` single bytes. */
  ghost predicate Writing(w: World, n: nat) {
    var c := w.client;
    && w.past == [] && w.handled == 0 && w.deletions == map[] && Waiting(w)
    && c.authenticated && c.socket == Open && c.buffer == [] && 0 !in c.truncated
    && 0 in c.running && c.running[0] == Execution(n, n, false, DEFAULT_COMMAND_OUTPUT_BYTES)
    && 0 in c.journal.rows && !c.journal.rows[0].truncated
    && NoCompletions(c.sent)
    && |HistoryOf(w, First(0)).emitted| == n
  }

  lemma StartsWriting() returns (w: World)
    ensures Reachable(w) && Writing(w, 0)
    ensures w.client.journal == J.Table(map[0 := J.Row(J.Running, None, false, false)], [0])
  {
    hide Reachable;
    w := InitialWorld(LIMITS);
    InitialReachable(LIMITS);
    ReachableStep(w, CreateCommand(0, 0));
    w := Apply(w, CreateCommand(0, 0));
    ReachableStep(w, SocketOpens(1));
    w := Apply(w, SocketOpens(1));
    assert Flush(w.client.(authenticated := true)) == w.client.(authenticated := true);
    ReachableStep(w, ReceiveAuthenticated);
    w := Apply(w, ReceiveAuthenticated);
    ReachableStep(w, ReceiveStart(0, None));
    w := Apply(w, ReceiveStart(0, None));
  }

  /** Emitting one byte on a usable connection sends it as one chunk. */
  lemma EmitOneByte(c: ClientState, e: Execution)
    requires c.authenticated && c.socket == Open && c.sendsLeft > 0 && 0 !in c.truncated
    requires 0 in c.running && c.running[0] == e && !e.truncated && e.outputBytes < e.limit
    ensures var (d, chunks) := Emit(c, 0, Stdout, ONE_BYTE);
            && chunks == [Chunk(Stdout, ONE_BYTE)]
            && d.authenticated && d.socket == Open && d.buffer == c.buffer && d.truncated == c.truncated
            && d.running == c.running[0 := e.(sequence := e.sequence + 1, outputBytes := e.outputBytes + 1)]
            && d.sent == c.sent + [CommandOutput(0, e.sequence, Chunk(Stdout, ONE_BYTE))]
            && d.journal == MarkUnconfirmed(c, 0).journal
  {
    assert ONE_BYTE[..1] == ONE_BYTE && ONE_BYTE[1..] == [];
    var chunk := NextChunk(Stdout, ONE_BYTE);
    assert chunk == Chunk(Stdout, ONE_BYTE);
    var d := EmitChunk(c, 0, chunk).0;
    assert EmitChunks(d, 0, Stdout, []) == (d, []);
    assert EmitChunks(c, 0, Stdout, ONE_BYTE) == (d, [chunk] + []);
  }

  lemma WritesOne(w: World, n: nat) returns (v: World)
    requires Reachable(w) && Writing(w, n) && n < DEFAULT_COMMAND_OUTPUT_BYTES
    ensures Reachable(v) && Writing(v, n + 1)
  {
    hide Emit, Reachable;
    ReachableStep(w, SendsLeft(1));
    var u := Apply(w, SendsLeft(1));
    var s := ProcessOutput(0, Stdout, ONE_BYTE);
    ReachableStep(u, s);
    v := Apply(u, s);
    EmitOneByte(u.client, u.client.running[0]);
  }

  lemma {:induction false} WritesMany(n: nat) returns (w: World)
    requires n <= DEFAULT_COMMAND_OUTPUT_BYTES
    ensures Reachable(w) && Writing(w, n)
  {
    if n == 0 {
      w := StartsWriting();
    } else {
      w := WritesMany(n - 1);
      w := WritesOne(w, n - 1);
    }
  }

  // ---------- Ending and handling ----------

  /** The Client has sent everything and claims complete output; the Server has handled
      some messages but not the last. */
  ghost predicate Claimed(w: World, n: nat, result: CommandResult) {
    var log := w.client.sent;
    && w.past == [] && w.handled < |log| && Waiting(w)
    && NoCompletions(log[..|log| - 1])
    && log[|log| - 1] == CommandCompleted(0, result)
    && !result.outputTruncated && (result.error.Some? ==> |result.error.value| <= S.MAX_ERROR)
    && |HistoryOf(w, First(0)).emitted| == n
  }

  lemma Ends(w: World, n: nat, ending: Ending) returns (v: World)
    requires Reachable(w) && Writing(w, n)
    requires ending.Aborted? ==> 0 < |ending.message| <= S.MAX_ERROR
    ensures Reachable(v) && Claimed(v, n, FinalResult(ending, false))
    ensures Unproved(ending) ==> First(0) in v.orphans
  {
    hide Reachable;
    ReachableStep(w, SendsLeft(1));
    var u := Apply(w, SendsLeft(1));
    var s := ExecutionEnds(0, ending);
    ReachableStep(u, s);
    v := Apply(u, s);
    assert v.client.sent[..|v.client.sent| - 1] == w.client.sent;
  }

  lemma HandlesOne(w: World, n: nat, result: CommandResult) returns (v: World)
    requires Reachable(w) && Claimed(w, n, result) && w.handled < |w.client.sent| - 1
    ensures Reachable(v) && Claimed(v, n, result) && v.handled == w.handled + 1
    ensures v.client == w.client && v.orphans == w.orphans
  {
    hide Reachable;
    var s := ServerHandles(0, 0);
    ReachableStep(w, s);
    v := Apply(w, s);
    var m := w.client.sent[w.handled];
    assert m == w.client.sent[..|w.client.sent| - 1][w.handled];
    StaysWaiting(w.server, m);
  }

  lemma StaysWaiting(server: map<CommandId, S.CommandRow>, m: ClientMessage)
    requires 0 in server && S.Active(server[0]) && !server[0].outputTruncated && !m.CommandCompleted?
    ensures var after := Handle(server, m, 0).0;
            0 in after && S.Active(after[0]) && !after[0].outputTruncated
  {
  }

  lemma {:induction false} HandlesMany(w: World, n: nat, result: CommandResult) returns (v: World)
    requires Reachable(w) && Claimed(w, n, result)
    ensures Reachable(v) && Claimed(v, n, result) && v.handled == |v.client.sent| - 1 && v.orphans == w.orphans
    decreases |w.client.sent| - w.handled
  {
    if w.handled == |w.client.sent| - 1 {
      v := w;
    } else {
      v := HandlesOne(w, n, result);
      v := HandlesMany(v, n, result);
    }
  }

  /** A reachable state in which the promise about complete output is broken. */
  lemma HonestyFailsBeyondWire() returns (w: World)
    ensures Reachable(w) && 0 in w.server && !S.Active(w.server[0]) && !w.server[0].outputTruncated
    ensures Flatten(S.InOrder(w.server[0].chunks, ADMITTED)) != HistoryOf(w, First(0)).produced
  {
    var n := ADMITTED + 1;
    var u := WritesMany(n);
    var ending := Exited(Some(0), false, false);
    u := Ends(u, n, ending);
    u := HandlesMany(u, n, FinalResult(ending, false));
    var s := ServerHandles(0, 0);
    ReachableStep(u, s);
    w := Apply(u, s);
    ExecutionIsHonest(w, 0);
  }
}
