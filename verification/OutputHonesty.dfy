/** Over every run: what the Server stores is what it handled, and a Command it holds as
    complete and not truncated holds all the output its process produced. */
module OutputHonesty {
  import opened Wire
  import opened ClientOutput
  import opened OutputLogs
  import opened OutputProtocol
  import opened BufferBounds
  import opened ClientProgress
  import opened ClientTracking
  import opened HaltedTracking
  import J = Journal
  import S = ServerCommands

  function First(id: CommandId): Lifetime {
    Lifetime(id, 0)
  }

  /** The Server has not seen the Command end. */
  predicate Undecided(w: World, id: CommandId) {
    id in w.server ==> S.Active(w.server[id])
  }

  function HandledLog(link: Link): seq<ClientMessage> {
    link.log[..Min(link.handled, |link.log|)]
  }

  // ---------- The invariant for an undecided Command ----------

  ghost predicate Precedes(a: seq<nat>, b: seq<nat>) {
    forall i, j | 0 <= i < |a| && 0 <= j < |b| :: a[i] < b[j]
  }

  ghost predicate LinkOk(link: Link, id: CommandId, emitted: seq<Chunk>) {
    && link.handled <= |link.log|
    && Genuine(link.log, id, emitted)
    && ClaimsLast(link.log, id)
    && Increasing(Sequences(link.log, id))
  }

  ghost predicate PastLink(w: World, id: CommandId, h: Ledger, link: Link) {
    && LinkOk(link, id, h.emitted)
    && Below(Sequences(link.log, id), h.floor)
    && (HasCompletion(link.log, id) ==> id in w.client.journal.rows)
    && (HasClaim(link.log, id) ==>
          && Finished(w.client, id)
          && Flatten(h.emitted) == h.produced
          && Sequences(link.log, id) == Numbers(|h.emitted|))
  }

  ghost predicate PastTracks(w: World, id: CommandId, h: Ledger) {
    && (forall k | 0 <= k < |w.past| :: PastLink(w, id, h, w.past[k]))
    && (forall j, k | 0 <= j < k < |w.past| :: Precedes(Sequences(w.past[j].log, id), Sequences(w.past[k].log, id)))
  }

  /** Some connection handled the output with this number. */
  ghost predicate HandledOn(w: World, id: CommandId, s: nat) {
    exists k | 0 <= k <= |w.past| :: s in Sequences(HandledLog(LinkOf(w, k)), id)
  }

  /** The Server stores exactly the outputs it handled, as they were emitted. */
  ghost predicate ServerTracks(w: World, id: CommandId, h: Ledger)
    requires id in w.server
  {
    var row := w.server[id];
    && (forall s: nat :: s in row.chunks <==> s <= MAX_SEQUENCE && HandledOn(w, id, s))
    && (forall s | s in row.chunks :: s < |h.emitted| && row.chunks[s] == h.emitted[s])
    && row.stdoutBytes + row.stderrBytes == S.StoredBytes(row.chunks, |h.emitted|)
  }

  function LedgerAt(w: World, id: CommandId, floor: nat): Ledger {
    LedgerOf(HistoryOf(w, First(id)), floor)
  }

  ghost predicate TracksAt(w: World, id: CommandId, floor: nat) {
    var h := LedgerAt(w, id, floor);
    && Deletions(w, id) == 0 && id !in w.acknowledgements
    && Follows(w.client, id, h)
    && PastTracks(w, id, h)
    && w.handled <= |w.client.sent|
    && (if id in w.server then ServerTracks(w, id, h) else id !in w.client.journal.rows)
  }

  ghost predicate UndecidedTracks(w: World, id: CommandId) {
    exists floor: nat :: TracksAt(w, id, floor)
  }

  // ---------- The invariant for a decided Command ----------

  /** The stored chunks are the emitted ones, up to the sequence numbers the wire admits,
      and these carry everything the process produced. */
  ghost predicate HoldsAll(row: S.CommandRow, h: History) {
    && (forall s: nat :: s in row.chunks <==> s < |h.emitted| && s <= MAX_SEQUENCE)
    && (forall s | s in row.chunks :: row.chunks[s] == h.emitted[s])
    && Flatten(h.emitted) == h.produced
    && WithinLimits(h.emitted)
  }

  ghost predicate DecidedTracks(w: World, id: CommandId)
    requires id in w.server
  {
    !w.server[id].outputTruncated ==>
      && HoldsAll(w.server[id], HistoryOf(w, First(id)))
      && (Deletions(w, id) == 0 ==> Finished(w.client, id))
  }

  ghost predicate CommandTracks(w: World, id: CommandId) {
    if Undecided(w, id) then UndecidedTracks(w, id) else DecidedTracks(w, id)
  }

  ghost predicate Invariant(w: World) {
    && Orderly(w.client)
    && AllAgree(w.client)
    && (forall id :: CommandTracks(w, id))
  }

  // ---------- Steps of the Client ----------

  lemma HandledPrefix(a: seq<ClientMessage>, b: seq<ClientMessage>, handled: nat)
    requires a <= b && handled <= |a|
    ensures HandledLog(Link(a, handled)) == HandledLog(Link(b, handled))
  {
  }

  lemma {:induction false} GenuineGrows(ms: seq<ClientMessage>, id: CommandId, emitted: seq<Chunk>, more: seq<Chunk>)
    requires Genuine(ms, id, emitted)
    ensures Genuine(ms, id, emitted + more)
  {
  }

  /** Emitting more changes nothing about what is stored. */
  lemma {:induction false} StoredBytesGrow(chunks: map<nat, Chunk>, n: nat, m: nat)
    requires n <= m && (forall s | s in chunks :: s < n)
    ensures S.StoredBytes(chunks, n) == S.StoredBytes(chunks, m)
    decreases m
  {
    if n < m {
      StoredBytesGrow(chunks, n, m - 1);
      assert S.InOrder(chunks, m) == S.InOrder(chunks, m - 1);
    }
  }

  /** A turn of the Client that keeps its own tracking keeps the whole. */
  lemma ClientTurn(w: World, v: World, id: CommandId, floor: nat, more: seq<Chunk>)
    requires TracksAt(w, id, floor) && Agree(w.client, id)
    requires v.past == w.past && v.handled == w.handled && v.server == w.server && v.acknowledgements == w.acknowledgements
    requires Deletions(v, id) == 0
    requires HistoryOf(v, First(id)).emitted == HistoryOf(w, First(id)).emitted + more
    requires w.client.sent <= v.client.sent && Keeps(w.client, v.client, id)
    requires Finished(w.client, id) ==> LedgerAt(v, id, floor) == LedgerAt(w, id, floor)
    requires id !in w.server ==> id !in v.client.journal.rows
    requires Follows(v.client, id, LedgerAt(v, id, floor))
    ensures TracksAt(v, id, floor)
  {
    hide Follows, Sequences, ClaimsLast, HasCompletion, Increasing, Flatten, J.SameOutcome, J.RowOk;
    var (h, l) := (LedgerAt(w, id, floor), LedgerAt(v, id, floor));
    forall k | 0 <= k < |w.past|
      ensures PastLink(v, id, l, w.past[k])
    {
      assert PastLink(w, id, h, w.past[k]);
      GenuineGrows(w.past[k].log, id, h.emitted, more);
    }
    HandledPrefix(w.client.sent, v.client.sent, w.handled);
    if id in w.server {
      StoredBytesGrow(w.server[id].chunks, |h.emitted|, |l.emitted|);
      HandledSame(w, v, id);
    }
  }

  lemma HandledSame(w: World, v: World, id: CommandId)
    requires v.past == w.past && v.handled == w.handled
    requires w.client.sent <= v.client.sent && w.handled <= |w.client.sent|
    ensures forall s: nat :: HandledOn(v, id, s) <==> HandledOn(w, id, s)
  {
    HandledPrefix(w.client.sent, v.client.sent, w.handled);
    assert forall k | 0 <= k <= |w.past| :: HandledLog(LinkOf(v, k)) == HandledLog(LinkOf(w, k));
  }

  /** The chunks a step adds to a Command's first lifetime. */
  function Emits(w: World, s: Step, id: CommandId): seq<Chunk>
    requires Enabled(w, s)
  {
    if s.ProcessOutput? && s.id == id then Emit(w.client, id, s.stream, s.data).1 else []
  }

  /** A turn of a running Client keeps the tracking of an undecided Command. */
  lemma RunningTurnTracks(w: World, s: Step, id: CommandId, floor: nat)
    requires Enabled(w, s) && ClientOnly(s) && !w.client.stopped && id !in w.acknowledgements
    requires Deletions(w, id) == 0 && Tracks(w.client, id, LedgerAt(w, id, floor))
    requires Orderly(w.client) && AllAgree(w.client)
    ensures Tracks(Apply(w, s).client, id, LedgerAt(Apply(w, s), id, floor))
  {
    hide Tracks, Emit, EmitLate, Finish, Start, Cancel, Shutdown, ClientOutput.Authenticated, Acknowledged, Orderly, AllAgree, Launches, Tag;
    var (c, h) := (w.client, LedgerAt(w, id, floor));
    match s {
      case ReceiveStart(x, admission) =>
        if x == id {
          StartKeeps(c, id, admission, h);
        } else {
          StartOtherKeeps(c, x, admission, id, h);
        }
      case ReceiveCancel(x) =>
        if x == id {
          CancelKeeps(c, id, h);
        } else {
          CancelOtherKeeps(c, x, id, h);
        }
      case ReceiveAcknowledged(x) =>
        AcknowledgedOtherKeeps(c, x, id, h);
      case ProcessOutput(x, stream, data) =>
        if x == id {
          EmitKeeps(c, id, stream, data, h);
        } else {
          EmitOtherKeeps(c, x, stream, data, id, h);
        }
      case LateOutput(life, stream, data) =>
        if life.id in c.orphans {
          OrphansStop(c, life.id);
        }
      case ExecutionEnds(x, ending) =>
        if x == id {
          FinishKeeps(c, id, ending, h);
        } else {
          FinishOtherKeeps(c, x, ending, id, h);
        }
      case ReceiveAuthenticated =>
        AuthenticatedKeeps(c, id, h);
      case Stop =>
        ShutdownKeeps(c, id, h);
      case SocketOpens(n) =>
        TracksFrame(c, c.(socket := Open, sendsLeft := n), id, h);
      case SocketCloses =>
        TracksFrame(c, c.(socket := Closing), id, h);
      case SendsLeft(n) =>
        TracksFrame(c, c.(sendsLeft := n), id, h);
    }
  }

  /** Processes are only left over on a Client that has stopped. */
  lemma OrphansStop(c: ClientState, id: CommandId)
    requires AllAgree(c) && id in c.orphans
    ensures c.stopped && !c.authenticated && id in c.journal.rows
  {
    assert Agree(c, id);
  }

  /** A Client that has stopped only closes its socket, executes to the end and shuts down again. */
  lemma StoppedTurnTracks(w: World, s: Step, id: CommandId, floor: nat)
    requires Enabled(w, s) && ClientOnly(s) && w.client.stopped
    requires Deletions(w, id) == 0 && Halted(w.client, id, LedgerAt(w, id, floor))
    requires Orderly(w.client) && AllAgree(w.client)
    ensures Halted(Apply(w, s).client, id, LedgerAt(Apply(w, s), id, floor))
  {
    hide Halted, Deliver, Emit, EmitLate, Finish, Shutdown, MarkTruncated, Bounded, AllAgree;
    var (c, h) := (w.client, LedgerAt(w, id, floor));
    match s {
      case ProcessOutput(x, stream, data) =>
        if x == id {
          EmitHalts(c, id, stream, data, h);
        } else {
          EmitOtherHalts(c, x, stream, data, id, h);
        }
      case LateOutput(life, stream, data) =>
        if life.id in c.orphans {
          OrphansStop(c, life.id);
          LateHalts(c, life.id, stream, data, id, h);
        }
      case ExecutionEnds(x, ending) =>
        FinishHalts(c, x, ending, id, h);
      case Stop =>
        ShutdownHalts(c, id, h);
      case SendsLeft(n) =>
        HaltedFrame(c, c.(sendsLeft := n), id, h);
    }
  }

  /** A Client that has stopped stays so until it is started again. */
  lemma StaysStopped(w: World, s: Step)
    requires Enabled(w, s) && ClientOnly(s) && w.client.stopped && Orderly(w.client)
    ensures Apply(w, s).client.stopped
  {
    hide Emit, CompleteAndSend, Start, Cancel, MarkTruncated, Bounded;
  }

  /** A Client turn keeps the Client's own tracking of an undecided Command. */
  lemma ClientTurnTracks(w: World, s: Step, id: CommandId, floor: nat)
    requires Enabled(w, s) && ClientOnly(s) && TracksAt(w, id, floor)
    requires Orderly(w.client) && AllAgree(w.client)
    ensures Follows(Apply(w, s).client, id, LedgerAt(Apply(w, s), id, floor))
  {
    hide Tracks, Halted, Enabled, Apply, PastTracks, ServerTracks, Orderly, AllAgree;
    if w.client.stopped {
      StoppedTurnTracks(w, s, id, floor);
      StaysStopped(w, s);
    } else {
      RunningTurnTracks(w, s, id, floor);
      TracksHalted(Apply(w, s).client, id, LedgerAt(Apply(w, s), id, floor));
    }
  }

  /** What a step writes into the history of one lifetime. */
  function Recorded(w: World, s: Step, life: Lifetime): History
    requires Enabled(w, s)
  {
    var h := HistoryOf(w, life);
    match s
    case ReceiveStart(id, admission) =>
      if life == Current(w, id) && Launches(w.client, id, admission) then h.(launches := h.launches + 1) else h
    case ReceiveCancel(id) =>
      if life == Current(w, id) && id !in w.client.journal.rows && id !in w.client.running then h.(cancelledFirst := true) else h
    case ProcessOutput(id, stream, data) =>
      if life == Current(w, id) then
        h.(emitted := h.emitted + Emit(w.client, id, stream, data).1, produced := h.produced + Tag(stream, data))
      else h
    case LateOutput(other, stream, data) => if life == other then h.(late := h.late + Tag(stream, data)) else h
    case _ => h
  }

  lemma StepRecords(w: World, s: Step, life: Lifetime)
    requires Enabled(w, s)
    ensures HistoryOf(Apply(w, s), life) == Recorded(w, s, life)
  {
    hide Emit, EmitLate, Finish, Start, Cancel, Shutdown, ClientOutput.Authenticated, CloseEvent, Restart, Handle, Launches, Tag;
  }

  /** What a Client turn leaves alone. */
  lemma ClientStepFrame(w: World, s: Step, id: CommandId)
    requires Enabled(w, s) && ClientOnly(s) && Deletions(w, id) == 0 && id !in w.acknowledgements
    ensures var v := Apply(w, s);
            && v.past == w.past && v.handled == w.handled && v.server == w.server && v.acknowledgements == w.acknowledgements
            && Deletions(v, id) == 0
            && (s.ReceiveStart? || s.ReceiveCancel? ==> s.id in w.server)
            && s != ReceiveAcknowledged(id)
  {
    hide Emit, EmitLate, Finish, Start, Cancel, Shutdown, ClientOutput.Authenticated, Launches, Tag;
  }

  lemma TurnRecords(w: World, s: Step, id: CommandId)
    requires Enabled(w, s) && Deletions(w, id) == 0
    ensures var (h, l) := (HistoryOf(w, First(id)), HistoryOf(Apply(w, s), First(id)));
            && l.emitted == h.emitted + Emits(w, s, id)
            && (id in w.client.journal.rows && id !in w.client.running ==> LedgerOf(l, 0) == LedgerOf(h, 0))
  {
    hide Apply, Emit;
    StepRecords(w, s, First(id));
    var h := HistoryOf(w, First(id));
    assert h.emitted + [] == h.emitted;
  }

  lemma ClientStepKeeps(w: World, s: Step, id: CommandId, floor: nat)
    requires Enabled(w, s) && ClientOnly(s) && TracksAt(w, id, floor)
    requires Orderly(w.client) && AllAgree(w.client)
    ensures TracksAt(Apply(w, s), id, floor)
  {
    hide Follows, Apply, Enabled, Emits, PastTracks, ServerTracks, Orderly, Keeps;
    var v := Apply(w, s);
    assert Agree(w.client, id);
    StepProgress(w, s, id);
    ClientTurnTracks(w, s, id, floor);
    ClientStepFrame(w, s, id);
    TurnRecords(w, s, id);
    ClientTurn(w, v, id, floor, Emits(w, s, id));
  }

  // ---------- Losing a connection ----------

  lemma BelowRises(s: seq<nat>, low: nat, high: nat)
    requires Below(s, low) && low <= high
    ensures Below(s, high)
  {
  }

  /** The connection given up becomes one more past connection. */
  lemma DisconnectStep(w: World, v: World, id: CommandId, floor: nat)
    requires TracksAt(w, id, floor) && Agree(w.client, id)
    requires v == Disconnected(w, v.client).(orphans := v.orphans) && v.client.sent == []
    requires Keeps(w.client, v.client, id) && NoNewRow(w.client, v.client, id)
    requires Follows(v.client, id, LedgerAt(w, id, floor).(floor := NextFloor(w.client, id, LedgerAt(w, id, floor))))
    ensures TracksAt(v, id, NextFloor(w.client, id, LedgerAt(w, id, floor)))
  {
    hide Follows, Sequences, ClaimsLast, HasCompletion, HasClaim, Increasing, Flatten, J.SameOutcome, J.RowOk, NextFloor, Genuine, Below, S.StoredBytes;
    var h := LedgerAt(w, id, floor);
    var next := NextFloor(w.client, id, h);
    var l := LedgerAt(v, id, next);
    FollowsHalted(w.client, id, h);
    HaltedFloor(w.client, id, h);
    var given := Link(w.client.sent, w.handled);
    SentLink(w, id, floor);
    forall k | 0 <= k < |v.past|
      ensures PastLink(v, id, l, v.past[k])
    {
      if k < |w.past| {
        assert PastLink(w, id, h, w.past[k]);
        BelowRises(Sequences(w.past[k].log, id), floor, next);
      }
    }
    forall j, k | 0 <= j < k < |v.past|
      ensures Precedes(Sequences(v.past[j].log, id), Sequences(v.past[k].log, id))
    {
      if k == |w.past| {
        assert PastLink(w, id, h, w.past[j]);
        PrecedesFloor(Sequences(w.past[j].log, id), Sequences(w.client.sent, id), floor);
      }
    }
    LogEmpty(id, h.emitted);
    forall s: nat
      ensures HandledOn(v, id, s) <==> HandledOn(w, id, s)
    {
      assert forall k | 0 <= k <= |w.past| :: LinkOf(v, k) == LinkOf(w, k);
      assert HandledLog(LinkOf(v, |v.past|)) == [];
    }
  }

  lemma PrecedesFloor(a: seq<nat>, b: seq<nat>, floor: nat)
    requires Below(a, floor) && AtLeast(b, floor)
    ensures Precedes(a, b)
  {
  }

  /** What holds of the current connection is what is asked of a past one. */
  lemma SentLink(w: World, id: CommandId, floor: nat)
    requires TracksAt(w, id, floor)
    ensures var h := LedgerAt(w, id, floor);
            && PastLink(w, id, h.(floor := NextFloor(w.client, id, h)), Link(w.client.sent, w.handled))
            && AtLeast(Sequences(w.client.sent, id), floor)
  {
    hide Follows, Sequences, Flatten, J.SameOutcome, J.RowOk, NextFloor, Below, PastTracks;
    var h := LedgerAt(w, id, floor);
    FollowsHalted(w.client, id, h);
    HaltedFloor(w.client, id, h);
    assert w.client.sent[..w.handled] == HandledLog(LinkOf(w, |w.past|));
  }

  lemma DisconnectKeepsTracks(w: World, s: Step, id: CommandId, floor: nat)
    requires Enabled(w, s) && (s.SocketCloseEvent? || s.CrashAndRestart?) && TracksAt(w, id, floor)
    requires AllAgree(w.client)
    ensures TracksAt(Apply(w, s), id, NextFloor(w.client, id, LedgerAt(w, id, floor)))
  {
    hide Tracks, Halted, MarkTruncated, PastTracks, ServerTracks, Restart, NextFloor;
    assert Agree(w.client, id);
    StepProgress(w, s, id);
    var h := LedgerAt(w, id, floor);
    FollowsHalted(w.client, id, h);
    if s.CrashAndRestart? {
      RestartTracks(w.client, id, h);
      RestartForgets(w.client);
    } else if w.client.stopped {
      CloseHalts(w.client, id, h);
      CloseForgets(w.client);
    } else {
      CloseKeeps(w.client, id, h);
      CloseForgets(w.client);
    }
    DisconnectStep(w, Apply(w, s), id, floor);
  }

  lemma RestartForgets(c: ClientState)
    ensures Restart(c).sent == [] && !Restart(c).stopped && Restart(c).socket == Absent
  {
  }

  lemma CloseForgets(c: ClientState)
    ensures CloseEvent(c).sent == [] && CloseEvent(c).stopped == c.stopped
  {
  }

  // ---------- Steps of the Server ----------

  /** The handled part of a connection after one more message. */
  lemma HandleNext(link: Link)
    requires link.handled < |link.log|
    ensures var m := link.log[link.handled];
            HandledLog(link.(handled := link.handled + 1)) == HandledLog(link) + [m]
  {
  }

  lemma MemberPush(s: seq<nat>, n: nat, x: nat)
    ensures x in s + [n] <==> x in s || x == n
  {
  }

  /** Every output left on a connection is one no connection has handled yet. */
  lemma NextIsNew(w: World, id: CommandId, floor: nat, k: nat)
    requires TracksAt(w, id, floor) && k <= |w.past| && LinkOf(w, k).handled < |LinkOf(w, k).log|
    requires OutputOf(LinkOf(w, k).log[LinkOf(w, k).handled], id)
    ensures !HandledOn(w, id, LinkOf(w, k).log[LinkOf(w, k).handled].sequence)
  {
    hide Follows, Sequences, ClaimsLast, HasCompletion, HasClaim, Increasing, Flatten, Genuine, Below, S.StoredBytes, ServerTracks, NextFloor;
    var h := LedgerAt(w, id, floor);
    var n := LinkOf(w, k).log[LinkOf(w, k).handled].sequence;
    SentLink(w, id, floor);
    forall j | 0 <= j <= |w.past|
      ensures n !in Sequences(HandledLog(LinkOf(w, j)), id)
    {
      if j < |w.past| {
        assert PastLink(w, id, h, w.past[j]);
      }
      if k < |w.past| {
        assert PastLink(w, id, h, w.past[k]);
      }
      if j == k {
        NextInOrder(LinkOf(w, k), id, h.emitted);
      } else {
        OtherLink(w, id, floor, j, k);
      }
    }
  }

  lemma NextInOrder(link: Link, id: CommandId, emitted: seq<Chunk>)
    requires LinkOk(link, id, emitted) && link.handled < |link.log| && OutputOf(link.log[link.handled], id)
    ensures link.log[link.handled].sequence !in Sequences(HandledLog(link), id)
    ensures link.log[link.handled].sequence in Sequences(link.log, id)
  {
    var a := Sequences(HandledLog(link), id);
    SequencesAround(link.log, link.handled, id);
    var all := Sequences(link.log, id);
    assert all[|a|] == link.log[link.handled].sequence;
    assert forall i | 0 <= i < |a| :: a[i] == all[i];
  }

  lemma HandledAreSent(link: Link, id: CommandId)
    requires link.handled <= |link.log|
    ensures forall n :: n in Sequences(HandledLog(link), id) ==> n in Sequences(link.log, id)
  {
    SequencesSplit(link.log, link.handled, id);
  }

  /** Different connections carry different numbers. */
  lemma OtherLink(w: World, id: CommandId, floor: nat, j: nat, k: nat)
    requires TracksAt(w, id, floor) && j <= |w.past| && k <= |w.past| && j != k
    requires LinkOf(w, k).handled < |LinkOf(w, k).log| && OutputOf(LinkOf(w, k).log[LinkOf(w, k).handled], id)
    ensures LinkOf(w, k).log[LinkOf(w, k).handled].sequence !in Sequences(HandledLog(LinkOf(w, j)), id)
  {
    hide Follows, Sequences, ClaimsLast, HasCompletion, HasClaim, Increasing, Flatten, Genuine, S.StoredBytes, ServerTracks, NextFloor;
    var h := LedgerAt(w, id, floor);
    SentLink(w, id, floor);
    if j < |w.past| {
      assert PastLink(w, id, h, w.past[j]);
    }
    if k < |w.past| {
      assert PastLink(w, id, h, w.past[k]);
    }
    HandledAreSent(LinkOf(w, j), id);
    NextInOrder(LinkOf(w, k), id, h.emitted);
    var (lo, hi) := (Min(j, k), Max(j, k));
    if hi == |w.past| {
      PrecedesFloor(Sequences(LinkOf(w, lo).log, id), Sequences(w.client.sent, id), floor);
    }
    assert Precedes(Sequences(LinkOf(w, lo).log, id), Sequences(LinkOf(w, hi).log, id));
  }

  /** Handling a message adds its number, if it is an output of the Command, to what was handled. */
  lemma HandledChanges(w: World, k: nat, at: int, id: CommandId)
    requires Enabled(w, ServerHandles(k, at))
    ensures var m := LinkOf(w, k).log[LinkOf(w, k).handled];
            forall s: nat :: HandledOn(HandleOn(w, k, at), id, s) <==>
              HandledOn(w, id, s) || (OutputOf(m, id) && s == m.sequence)
  {
    hide Sequences;
    var v := HandleOn(w, k, at);
    var link := LinkOf(w, k);
    var m := link.log[link.handled];
    HandleNext(link);
    LogPush(HandledLog(link), m, id, []);
    assert |v.past| == |w.past|;
    assert forall j | 0 <= j <= |w.past| && j != k :: LinkOf(v, j) == LinkOf(w, j);
    assert HandledLog(LinkOf(v, k)) == HandledLog(link) + [m];
    var (before, after) := (Sequences(HandledLog(link), id), Sequences(HandledLog(LinkOf(v, k)), id));
    forall s: nat
      ensures s in after <==> s in before || (OutputOf(m, id) && s == m.sequence)
    {
      if OutputOf(m, id) {
        MemberPush(before, m.sequence, s);
      }
    }
  }

  /** An output of an undecided Command that the Server handles fits below its byte
      ceiling: the Client never emits more than the ceiling, and each number only once. */
  lemma OutputFits(w: World, k: nat, id: CommandId, floor: nat)
    requires TracksAt(w, id, floor) && id in w.server && k <= |w.past| && LinkOf(w, k).handled < |LinkOf(w, k).log|
    requires OutputOf(LinkOf(w, k).log[LinkOf(w, k).handled], id)
    ensures var (row, m) := (w.server[id], LinkOf(w, k).log[LinkOf(w, k).handled]);
            && m.sequence !in row.chunks
            && m.sequence < |LedgerAt(w, id, floor).emitted| && LedgerAt(w, id, floor).emitted[m.sequence] == m.chunk
            && row.stdoutBytes + row.stderrBytes + |m.chunk.data| <= DEFAULT_COMMAND_OUTPUT_BYTES
            && |m.chunk.data| <= CHUNK_BYTES
  {
    var h := LedgerAt(w, id, floor);
    var link := LinkOf(w, k);
    var m := link.log[link.handled];
    NextIsNew(w, id, floor, k);
    NextIsGenuine(w, id, floor, k);
    StoredFits(w.server[id].chunks, h.emitted, m.sequence);
  }

  lemma StoredFits(chunks: map<nat, Chunk>, emitted: seq<Chunk>, n: nat)
    requires forall s | s in chunks :: s < |emitted| && chunks[s] == emitted[s]
    requires n < |emitted| && n !in chunks
    ensures S.StoredBytes(chunks, |emitted|) + |emitted[n].data| <= ByteCount(emitted)
  {
    S.StoredWithin(chunks, emitted, n);
  }

  lemma NextIsGenuine(w: World, id: CommandId, floor: nat, k: nat)
    requires TracksAt(w, id, floor) && k <= |w.past| && LinkOf(w, k).handled < |LinkOf(w, k).log|
    requires OutputOf(LinkOf(w, k).log[LinkOf(w, k).handled], id)
    ensures var (h, m) := (LedgerAt(w, id, floor), LinkOf(w, k).log[LinkOf(w, k).handled]);
            && m.sequence < |h.emitted| && h.emitted[m.sequence] == m.chunk && WithinLimits(h.emitted)
  {
    hide Follows, Sequences, ClaimsLast, HasCompletion, HasClaim, Increasing, Flatten, Below, S.StoredBytes, ServerTracks;
    var h := LedgerAt(w, id, floor);
    FollowsHalted(w.client, id, h);
    if k < |w.past| {
      assert PastLink(w, id, h, w.past[k]);
    }
  }

  /** What a message does to the stored output of a Command. */
  lemma HandledRow(server: map<CommandId, S.CommandRow>, m: ClientMessage, at: int, id: CommandId)
    requires id in server
    ensures id in Handle(server, m, at).0
    ensures var (before, after) := (server[id], Handle(server, m, at).0[id]);
            if OutputOf(m, id) && WellFormed(m) then after == S.AddOutput(before, m.sequence, m.chunk).0
            else
              && after.chunks == before.chunks
              && after.stdoutBytes == before.stdoutBytes && after.stderrBytes == before.stderrBytes
  {
  }

  lemma RowOfTracks(w: World, id: CommandId, floor: nat)
    requires TracksAt(w, id, floor) && id in w.server
    ensures ServerTracks(w, id, LedgerAt(w, id, floor))
  {
  }

  /** Storing one more emitted chunk keeps the count of stored bytes. */
  lemma StoredRow(row: S.CommandRow, emitted: seq<Chunk>, n: nat)
    requires S.Active(row) && n < |emitted| && n !in row.chunks
    requires row.stdoutBytes + row.stderrBytes + |emitted[n].data| <= DEFAULT_COMMAND_OUTPUT_BYTES
    requires row.stdoutBytes + row.stderrBytes == S.StoredBytes(row.chunks, |emitted|)
    ensures var after := S.AddOutput(row, n, emitted[n]).0;
            && after.chunks == row.chunks[n := emitted[n]]
            && after.stdoutBytes + after.stderrBytes == S.StoredBytes(after.chunks, |emitted|)
  {
    hide S.StoredBytes;
    S.StoreAddsBytes(row.chunks, n, emitted[n], |emitted|);
  }

  /** Handling a message keeps exactly what was handled stored. */
  lemma ServerKeeps(w: World, k: nat, at: int, id: CommandId, floor: nat)
    requires Enabled(w, ServerHandles(k, at)) && TracksAt(w, id, floor) && id in w.server
    requires S.Active(w.server[id])
    ensures ServerTracks(HandleOn(w, k, at), id, LedgerAt(w, id, floor))
  {
    hide TracksAt, S.StoredBytes, HandledOn, Handle, S.AddOutput;
    var (m, emitted) := (LinkOf(w, k).log[LinkOf(w, k).handled], LedgerAt(w, id, floor).emitted);
    RowOfTracks(w, id, floor);
    HandledChanges(w, k, at, id);
    HandledRow(w.server, m, at, id);
    if OutputOf(m, id) {
      OutputFits(w, k, id, floor);
      StoredRow(w.server[id], emitted, m.sequence);
    }
  }

  /** The Server handles the next message of a connection while the Command is undecided
      and stays so. */
  lemma HandleUndecided(w: World, k: nat, at: int, id: CommandId, floor: nat)
    requires Enabled(w, ServerHandles(k, at)) && TracksAt(w, id, floor) && Undecided(w, id)
    requires Undecided(HandleOn(w, k, at), id)
    ensures TracksAt(HandleOn(w, k, at), id, floor)
  {
    hide Follows, Sequences, ClaimsLast, HasCompletion, HasClaim, Increasing, Flatten, Genuine, Below, S.StoredBytes, HandledOn, ServerTracks;
    var v := HandleOn(w, k, at);
    var h := LedgerAt(w, id, floor);
    forall j | 0 <= j < |v.past|
      ensures PastLink(v, id, h, v.past[j]) && v.past[j].log == w.past[j].log
    {
      assert PastLink(w, id, h, w.past[j]);
    }
    NotAcknowledged(w, k, at, id);
    if id in w.server {
      ServerKeeps(w, k, at, id, floor);
    }
  }

  /** Only a decided Command is acknowledged. */
  lemma NotAcknowledged(w: World, k: nat, at: int, id: CommandId)
    requires Enabled(w, ServerHandles(k, at)) && Undecided(HandleOn(w, k, at), id)
    ensures id in HandleOn(w, k, at).acknowledgements ==> id in w.acknowledgements
    ensures id in HandleOn(w, k, at).server <==> id in w.server
  {
  }

  // ---------- Deciding a Command ----------

  /** The message that decides a Command is a well-formed completion of it. */
  lemma Decides(w: World, k: nat, at: int, id: CommandId)
    requires Enabled(w, ServerHandles(k, at)) && Undecided(w, id) && !Undecided(HandleOn(w, k, at), id)
    ensures var m := LinkOf(w, k).log[LinkOf(w, k).handled];
            && id in w.server && CompletionOf(m, id)
            && HandleOn(w, k, at).server[id] == S.MarkCompleted(w.server[id], m.result, at)
  {
  }

  /** When the Server handles a claim of complete output it has handled every output. */
  lemma ClaimFindsAll(w: World, k: nat, id: CommandId, floor: nat)
    requires TracksAt(w, id, floor) && k <= |w.past| && LinkOf(w, k).handled < |LinkOf(w, k).log|
    requires Claims(LinkOf(w, k).log[LinkOf(w, k).handled], id)
    ensures var h := LedgerAt(w, id, floor);
            && Sequences(HandledLog(LinkOf(w, k)), id) == Numbers(|h.emitted|)
            && Flatten(h.emitted) == h.produced && WithinLimits(h.emitted)
            && Finished(w.client, id)
  {
    hide Follows, Sequences, HasCompletion, Increasing, Flatten, Below, S.StoredBytes, ServerTracks, ClaimsLast, Genuine, HandledLog;
    var h := LedgerAt(w, id, floor);
    FollowsHalted(w.client, id, h);
    var link := LinkOf(w, k);
    if k < |w.past| {
      assert PastLink(w, id, h, w.past[k]);
    }
    assert HasClaim(link.log, id);
    SequencesBeforeClaim(link.log, link.handled, id);
    assert HandledLog(link) == link.log[..link.handled] by { HandledIsPrefix(link); }
  }

  lemma HandledIsPrefix(link: Link)
    requires link.handled <= |link.log|
    ensures HandledLog(link) == link.log[..link.handled]
  {
  }

  lemma HandleDecides(w: World, k: nat, at: int, id: CommandId, floor: nat)
    requires Enabled(w, ServerHandles(k, at)) && TracksAt(w, id, floor) && Undecided(w, id)
    requires !Undecided(HandleOn(w, k, at), id)
    ensures DecidedTracks(HandleOn(w, k, at), id)
  {
    hide Follows, PastTracks, Sequences, S.StoredBytes, Flatten;
    Decides(w, k, at, id);
    var (link, h, row) := (LinkOf(w, k), LedgerAt(w, id, floor), w.server[id]);
    var m := link.log[link.handled];
    if !m.result.outputTruncated {
      ClaimFindsAll(w, k, id, floor);
      var numbers := Sequences(HandledLog(link), id);
      forall s: nat
        ensures s in row.chunks <==> s < |h.emitted| && s <= MAX_SEQUENCE
      {
        if s < |h.emitted| {
          assert numbers[s] == s;
        }
      }
    }
  }

  // ---------- Every step ----------

  /** Before a Command is created no connection carries anything about it. */
  lemma NothingHandled(w: World, id: CommandId, floor: nat, s: nat)
    requires TracksAt(w, id, floor) && id !in w.client.journal.rows
    ensures !HandledOn(w, id, s)
  {
    hide Follows, Sequences, HasCompletion, Increasing, Flatten, Below, S.StoredBytes, ServerTracks, ClaimsLast, Genuine;
    var h := LedgerAt(w, id, floor);
    FollowsHalted(w.client, id, h);
    forall k | 0 <= k <= |w.past|
      ensures s !in Sequences(HandledLog(LinkOf(w, k)), id)
    {
      if k < |w.past| {
        assert PastLink(w, id, h, w.past[k]);
      }
      LogGenuine(LinkOf(w, k).log, id, h.emitted, []);
      HandledAreSent(LinkOf(w, k), id);
    }
  }

  lemma CreateKeeps(w: World, s: Step, id: CommandId, floor: nat)
    requires Enabled(w, s) && s.CreateCommand? && TracksAt(w, id, floor)
    ensures TracksAt(Apply(w, s), id, floor)
  {
    hide Follows, Sequences;
    var v := Apply(w, s);
    assert forall k | 0 <= k <= |w.past| :: LinkOf(v, k) == LinkOf(w, k);
    assert forall n: nat :: HandledOn(v, id, n) <==> HandledOn(w, id, n);
    if s.id == id {
      forall n: nat
        ensures !HandledOn(w, id, n)
      {
        NothingHandled(w, id, floor, n);
      }
      EmptyStore(|LedgerAt(w, id, floor).emitted|);
    }
  }

  lemma {:induction false} EmptyStore(bound: nat)
    ensures S.InOrder(map[], bound) == []
  {
    if bound > 0 {
      EmptyStore(bound - 1);
    }
  }

  lemma CancellationKeeps(w: World, s: Step, id: CommandId, floor: nat)
    requires Enabled(w, s) && s.RequestCancellation? && TracksAt(w, id, floor)
    ensures TracksAt(Apply(w, s), id, floor)
  {
    hide Follows, Sequences, S.StoredBytes;
    var v := Apply(w, s);
    assert forall k | 0 <= k <= |w.past| :: LinkOf(v, k) == LinkOf(w, k);
    assert forall n: nat :: HandledOn(v, id, n) <==> HandledOn(w, id, n);
  }

  /** A step keeps the invariant of every Command that stays undecided, and establishes
      that of a Command it decides. */
  lemma UndecidedStep(w: World, s: Step, id: CommandId)
    requires Enabled(w, s) && Orderly(w.client) && AllAgree(w.client)
    requires Undecided(w, id) && UndecidedTracks(w, id)
    ensures CommandTracks(Apply(w, s), id)
  {
    hide TracksAt, Orderly, AllAgree, Apply, DecidedTracks, NextFloor;
    var v := Apply(w, s);
    var floor: nat :| TracksAt(w, id, floor);
    if s.ServerHandles? {
      HandlesIsHandleOn(w, s);
      if Undecided(v, id) {
        HandleUndecided(w, s.link, s.at, id, floor);
      } else {
        HandleDecides(w, s.link, s.at, id, floor);
      }
    } else {
      StaysUndecided(w, s, id);
      if s.CreateCommand? {
        CreateKeeps(w, s, id, floor);
      } else if s.RequestCancellation? {
        CancellationKeeps(w, s, id, floor);
      } else if s.SocketCloseEvent? || s.CrashAndRestart? {
        DisconnectKeepsTracks(w, s, id, floor);
      } else {
        ClientStepKeeps(w, s, id, floor);
      }
    }
  }

  lemma HandlesIsHandleOn(w: World, s: Step)
    requires Enabled(w, s) && s.ServerHandles?
    ensures Apply(w, s) == HandleOn(w, s.link, s.at)
  {
  }

  lemma StaysUndecided(w: World, s: Step, id: CommandId)
    requires Enabled(w, s) && Undecided(w, id) && !s.ServerHandles?
    ensures Undecided(Apply(w, s), id)
  {
  }

  /** What a decided Command holds never changes again. */
  lemma DecidedStep(w: World, s: Step, id: CommandId)
    requires Enabled(w, s) && AllAgree(w.client) && !Undecided(w, id) && DecidedTracks(w, id)
    ensures CommandTracks(Apply(w, s), id)
    ensures Apply(w, s).server[id] == w.server[id]
  {
    hide Apply, HoldsAll, Enabled, J.SameOutcome, J.RowOk, AllAgree;
    DecidedIsFinal(w, s, id);
    var v := Apply(w, s);
    AgreeOne(w.client, id);
    StepProgress(w, s, id);
    if !w.server[id].outputTruncated {
      DecidedHistory(w, s, id);
      HoldsSame(w.server[id], HistoryOf(w, First(id)), HistoryOf(v, First(id)));
    }
  }

  lemma AgreeOne(c: ClientState, id: CommandId)
    requires AllAgree(c)
    ensures Agree(c, id)
  {
  }

  /** A finished first execution emits nothing more. */
  lemma DecidedHistory(w: World, s: Step, id: CommandId)
    requires Enabled(w, s) && Agree(w.client, id) && (Deletions(w, id) == 0 ==> Finished(w.client, id))
    ensures HistoryOf(Apply(w, s), First(id)).emitted == HistoryOf(w, First(id)).emitted
    ensures HistoryOf(Apply(w, s), First(id)).produced == HistoryOf(w, First(id)).produced
    ensures Deletions(w, id) <= Deletions(Apply(w, s), id)
    ensures s == ReceiveAcknowledged(id) && Finished(w.client, id) ==> Deletions(Apply(w, s), id) > 0
  {
    hide Apply, Emit;
    StepRecords(w, s, First(id));
    DeletionsGrow(w, s, id);
  }

  lemma DeletionsGrow(w: World, s: Step, id: CommandId)
    requires Enabled(w, s)
    ensures Deletions(Apply(w, s), id) ==
              Deletions(w, id) + if s == ReceiveAcknowledged(id) && Finished(w.client, id) then 1 else 0
  {
    hide Emit, EmitLate, Finish, Start, Cancel, Shutdown, ClientOutput.Authenticated, CloseEvent, Restart, Handle, Launches, Tag;
  }

  lemma HoldsSame(row: S.CommandRow, h: History, l: History)
    requires HoldsAll(row, h) && l.emitted == h.emitted && l.produced == h.produced
    ensures HoldsAll(row, l)
  {
  }

  lemma DecidedIsFinal(w: World, s: Step, id: CommandId)
    requires Enabled(w, s) && !Undecided(w, id)
    ensures id in Apply(w, s).server && Apply(w, s).server[id] == w.server[id]
  {
  }

  lemma StepKeepsInvariant(w: World, s: Step)
    requires Enabled(w, s) && Invariant(w)
    ensures Invariant(Apply(w, s))
  {
    hide Orderly, AllAgree, Apply, UndecidedTracks, DecidedTracks;
    StepOrderly(w, s);
    StepAllAgree(w, s);
    forall id
      ensures CommandTracks(Apply(w, s), id)
    {
      assert CommandTracks(w, id);
      if Undecided(w, id) {
        UndecidedStep(w, s, id);
      } else {
        DecidedStep(w, s, id);
      }
    }
  }

  lemma InitialTracks(limits: Limits, id: CommandId)
    ensures TracksAt(InitialWorld(limits), id, 0)
  {
    hide Sequences;
    LogEmpty(id, []);
  }

  lemma InitialInvariant(limits: Limits)
    ensures Invariant(InitialWorld(limits))
  {
    forall id
      ensures CommandTracks(InitialWorld(limits), id)
    {
      InitialTracks(limits, id);
    }
  }

  lemma {:induction false} RunKeepsInvariant(w: World, steps: seq<Step>)
    requires Invariant(w) && IsRun(w, steps)
    ensures Invariant(After(w, steps))
    decreases |steps|
  {
    hide Invariant, Enabled, Apply;
    if steps != [] {
      StepKeepsInvariant(w, steps[0]);
      RunKeepsInvariant(Apply(w, steps[0]), steps[1..]);
    }
  }

  ghost predicate Reachable(w: World) {
    exists limits, steps :: IsRun(InitialWorld(limits), steps) && After(InitialWorld(limits), steps) == w
  }

  lemma ReachableInvariant(w: World)
    requires Reachable(w)
    ensures Invariant(w)
  {
    hide Invariant;
    var limits, steps :| IsRun(InitialWorld(limits), steps) && After(InitialWorld(limits), steps) == w;
    InitialInvariant(limits);
    RunKeepsInvariant(InitialWorld(limits), steps);
  }

  lemma {:induction false} RunPush(w: World, steps: seq<Step>, s: Step)
    requires IsRun(w, steps) && Enabled(After(w, steps), s)
    ensures IsRun(w, steps + [s]) && After(w, steps + [s]) == Apply(After(w, steps), s)
    decreases |steps|
  {
    hide Enabled, Apply;
    if steps == [] {
      assert [s][0] == s && [s][1..] == [];
      assert After(Apply(w, s), []) == Apply(w, s);
    } else {
      RunPush(Apply(w, steps[0]), steps[1..], s);
      assert (steps + [s])[1..] == steps[1..] + [s];
    }
  }

  lemma ReachableStep(w: World, s: Step)
    requires Reachable(w) && Enabled(w, s)
    ensures Reachable(Apply(w, s))
  {
    hide Enabled, Apply, IsRun, After;
    var limits, steps :| IsRun(InitialWorld(limits), steps) && After(InitialWorld(limits), steps) == w;
    RunPush(InitialWorld(limits), steps, s);
  }

  lemma InitialReachable(limits: Limits)
    ensures Reachable(InitialWorld(limits))
  {
    assert IsRun(InitialWorld(limits), []) && After(InitialWorld(limits), []) == InitialWorld(limits);
  }

  // ---------- The theorems ----------

  /** How many chunks the message schema lets through. */
  const ADMITTED: nat := MAX_SEQUENCE + 1

  /** A Command the Server holds as ended and not truncated holds the chunks of its only
      execution in order, up to the sequence numbers the wire admits; it holds exactly the
      bytes produced during the execution if and only if these took no more chunks than that. */
  lemma ExecutionIsHonest(w: World, id: CommandId)
    requires Reachable(w) && id in w.server && !S.Active(w.server[id]) && !w.server[id].outputTruncated
    ensures var h := HistoryOf(w, First(id));
            var stored := S.InOrder(w.server[id].chunks, ADMITTED);
            && stored == h.emitted[..Min(|h.emitted|, ADMITTED)]
            && (Flatten(stored) == h.produced <==> |h.emitted| <= ADMITTED)
  {
    ReachableInvariant(w);
    assert CommandTracks(w, id);
    var h := HistoryOf(w, First(id));
    var k := Min(|h.emitted|, ADMITTED);
    S.InOrderPrefix(w.server[id].chunks, h.emitted, k, ADMITTED);
    if |h.emitted| > ADMITTED {
      FlattenLength(h.emitted[..k]);
      FlattenLength(h.emitted);
      ByteCountPrefix(h.emitted, k);
    } else {
      assert h.emitted[..k] == h.emitted;
    }
  }

  /** While a Command is active the Server never refuses an output of it that the schema admits. */
  lemma OutputIsNeverRefused(w: World, k: nat, at: int)
    requires Reachable(w) && Enabled(w, ServerHandles(k, at))
    ensures var m := LinkOf(w, k).log[LinkOf(w, k).handled];
            m.CommandOutput? && m.commandId in w.server && S.Active(w.server[m.commandId]) ==>
              && |m.chunk.data| <= CHUNK_BYTES
              && S.AddOutput(w.server[m.commandId], m.sequence, m.chunk).1
              && m.sequence !in w.server[m.commandId].chunks
  {
    hide TracksAt;
    var m := LinkOf(w, k).log[LinkOf(w, k).handled];
    if m.CommandOutput? && m.commandId in w.server && S.Active(w.server[m.commandId]) {
      ReachableInvariant(w);
      assert CommandTracks(w, m.commandId);
      var floor: nat :| TracksAt(w, m.commandId, floor);
      OutputFits(w, k, m.commandId, floor);
    }
  }

  /** A journal row is only deleted once the Server's Command has ended. */
  lemma DeletionFollowsDecision(w: World, id: CommandId)
    requires Reachable(w) && Enabled(w, ReceiveAcknowledged(id))
    ensures id in w.server && !S.Active(w.server[id])
  {
    ReachableInvariant(w);
    assert CommandTracks(w, id);
    assert Undecided(w, id) ==> UndecidedTracks(w, id);
  }

  /** The buffer's caps, and that a usable connection has nothing waiting in it. */
  lemma BufferStaysBounded(w: World)
    requires Reachable(w)
    ensures |w.client.buffer| <= Max(w.client.limits.messages, 1)
    ensures BufferedBytes(w.client.buffer) <= w.client.limits.bytes
    ensures w.client.authenticated && w.client.socket == Open ==> w.client.buffer == []
  {
    ReachableInvariant(w);
  }
}
