/** Output of a process that outlived its execution: the Client could not prove that it
    terminated, or crashed.  The Client journals such an execution as unknown at once, so
    what the process writes afterwards cannot reach a Command the Server has seen end. */
module LateOutput {
  import opened Wire
  import opened ClientOutput
  import opened OutputProtocol
  import opened ClientProgress
  import opened OutcomeFidelity
  import opened OutputBeyondWire
  import opened OutputHonesty
  import J = Journal
  import S = ServerCommands

  // ---------- Who may still write ----------

  /** Only an execution that ended as unknown leaves a process behind, and the Server
      learns of it as such. */
  ghost predicate LateIsUnknown(w: World, id: CommandId) {
    && (HistoryOf(w, First(id)).late != [] ==> First(id) in w.orphans)
    && (First(id) in w.orphans && Deletions(w, id) == 0 ==> Unknown(w.client, id))
    && (!Undecided(w, id) && Deletions(w, id) == 0 ==> Finished(w.client, id))
    && (First(id) in w.orphans && !Undecided(w, id) ==> w.server[id].status == S.Terminal(ExecutionUnknown))
  }

  predicate Unknown(c: ClientState, id: CommandId) {
    Finished(c, id) && c.journal.rows[id].result.Some? && c.journal.rows[id].result.value.status == ExecutionUnknown
  }

  lemma UnknownStays(c: ClientState, d: ClientState, id: CommandId)
    requires Agree(c, id) && Keeps(c, d, id) && Unknown(c, id)
    ensures Unknown(d, id)
  {
  }

  /** An execution that ends without proof, or that a crash interrupts, is journaled as unknown. */
  lemma OrphansAreUnknown(w: World, s: Step, id: CommandId)
    requires Enabled(w, s) && AllAgree(w.client)
    requires id in w.client.running && ((s.ExecutionEnds? && s.id == id && Unproved(s.ending)) || s.CrashAndRestart?)
    ensures Unknown(Apply(w, s).client, id)
  {
    hide Finish, Restart, Deliver, SameEnd;
    var c := w.client;
    assert Agree(c, id);
    StepProgress(w, s, id);
    if s.CrashAndRestart? {
      RecoveredAsUnknown(c, id);
    } else {
      FinishedAsJournaled(c, id, s.ending);
    }
  }

  lemma RecoveredAsUnknown(c: ClientState, id: CommandId)
    requires id in c.journal.rows && c.journal.rows[id].state != J.Completed
    ensures Unknown(Restart(c), id)
  {
  }

  lemma FinishedAsJournaled(c: ClientState, id: CommandId, ending: Ending)
    requires Agree(c, id) && id in c.running && Unproved(ending)
    requires Agree(Finish(c, id, ending), id)
    ensures Unknown(Finish(c, id, ending), id)
  {
    hide Finish;
    FinishJournals(c, id, ending);
  }

  // ---------- Every step ----------

  /** Which processes a step leaves behind. */
  lemma StepOrphans(w: World, s: Step, id: CommandId)
    requires Enabled(w, s)
    ensures w.orphans <= Apply(w, s).orphans
    ensures First(id) in Apply(w, s).orphans && First(id) !in w.orphans ==>
              && Deletions(w, id) == 0 && id in w.client.running
              && ((s.ExecutionEnds? && s.id == id && Unproved(s.ending)) || s.CrashAndRestart?)
  {
    hide Emit, EmitLate, Finish, Start, Cancel, Shutdown, ClientOutput.Authenticated, CloseEvent, Restart, Handle, Launches, Tag;
  }

  lemma DecidingStep(w: World, s: Step, id: CommandId)
    requires Enabled(w, s) && Agree(w.client, id) && Undecided(w, id) && !Undecided(Apply(w, s), id) && TellsTruth(w, id)
    ensures Finished(w.client, id) && Apply(w, s).client == w.client && Apply(w, s).orphans == w.orphans
    ensures Apply(w, s).server[id].status == S.Terminal(w.client.journal.rows[id].result.value.status)
  {
    hide Emit, EmitLate, Finish, Start, Cancel, Shutdown, ClientOutput.Authenticated, CloseEvent, Restart, Launches, Tag, TellsTruth, Handle;
    if !s.ServerHandles? {
      StaysUndecided(w, s, id);
    }
    DecidedAsJournaled(w, s.link, s.at, id);
  }

  lemma LateRecords(w: World, s: Step, id: CommandId)
    requires Enabled(w, s)
    ensures HistoryOf(Apply(w, s), First(id)).late != HistoryOf(w, First(id)).late ==> First(id) in w.orphans
  {
    hide Apply, Emit;
    StepRecords(w, s, First(id));
  }

  lemma LateStep(w: World, s: Step, id: CommandId)
    requires Enabled(w, s) && AllAgree(w.client) && LateIsUnknown(w, id)
    requires Undecided(w, id) ==> TellsTruth(w, id) && Deletions(w, id) == 0
    ensures LateIsUnknown(Apply(w, s), id)
  {
    hide Apply, Enabled, AllAgree, TellsTruth, Keeps, Undecided, Agree;
    var v := Apply(w, s);
    AgreeOne(w.client, id);
    StepProgress(w, s, id);
    StepOrphans(w, s, id);
    DeletionsGrow(w, s, id);
    LateRecords(w, s, id);
    if id in w.client.running {
      RunningIsUnfinished(w.client, id);
    }
    if Deletions(v, id) == 0 {
      if First(id) in w.orphans {
        UnknownStays(w.client, v.client, id);
      } else if First(id) in v.orphans {
        OrphansAreUnknown(w, s, id);
      }
      if Finished(w.client, id) {
        FinishedStays(w.client, v.client, id);
      }
    }
    if !Undecided(v, id) {
      if Undecided(w, id) {
        DecidingStep(w, s, id);
      } else {
        DecidedIsFinal(w, s, id);
      }
    }
  }

  lemma RunningIsUnfinished(c: ClientState, id: CommandId)
    requires Agree(c, id) && id in c.running
    ensures !Finished(c, id)
  {
  }

  lemma UndecidedIsFirst(w: World, id: CommandId)
    requires Reachable(w)
    ensures AllAgree(w.client)
    ensures Undecided(w, id) ==> TellsTruth(w, id) && Deletions(w, id) == 0
  {
    hide Undecided, TellsTruth;
    ReachableInvariant(w);
    assert CommandTracks(w, id);
    if Undecided(w, id) {
      ReachableTellsTruth(w, id);
    }
  }

  lemma {:induction false} RunIsUnknown(w: World, steps: seq<Step>, id: CommandId)
    requires Reachable(w) && IsRun(w, steps) && LateIsUnknown(w, id)
    ensures LateIsUnknown(After(w, steps), id)
    decreases |steps|
  {
    hide Enabled, Apply, LateIsUnknown, TellsTruth, Undecided, Reachable, AllAgree;
    if steps != [] {
      UndecidedIsFirst(w, id);
      LateStep(w, steps[0], id);
      ReachableStep(w, steps[0]);
      RunIsUnknown(Apply(w, steps[0]), steps[1..], id);
    }
  }

  lemma ReachableIsUnknown(w: World, id: CommandId)
    requires Reachable(w)
    ensures LateIsUnknown(w, id)
  {
    hide IsRun, After;
    var limits, steps :| IsRun(InitialWorld(limits), steps) && After(InitialWorld(limits), steps) == w;
    InitialReachable(limits);
    RunIsUnknown(InitialWorld(limits), steps, id);
  }

  // ---------- The theorem ----------

  /** A Command the Server holds as ended and not truncated holds the chunks of its only
      execution in order, up to the sequence numbers the wire admits.  It holds every byte
      the process ever wrote if and only if the execution took no more chunks than that and
      the process wrote nothing after its execution had ended; and only a Command that ended
      as unknown can have a process that did. */
  lemma OutputIsHonest(w: World, id: CommandId)
    requires Reachable(w) && id in w.server && !S.Active(w.server[id]) && !w.server[id].outputTruncated
    ensures var h := HistoryOf(w, First(id));
            var stored := S.InOrder(w.server[id].chunks, ADMITTED);
            && stored == h.emitted[..Min(|h.emitted|, ADMITTED)]
            && (Flatten(stored) == h.produced + h.late <==> |h.emitted| <= ADMITTED && h.late == [])
            && (w.server[id].status != S.Terminal(ExecutionUnknown) ==> h.late == [])
  {
    hide Reachable, IsRun, After, Flatten;
    ReachableIsUnknown(w, id);
    ExecutionIsHonest(w, id);
    var h := HistoryOf(w, First(id));
    var stored := S.InOrder(w.server[id].chunks, ADMITTED);
    assert h.produced + [] == h.produced;
    HoldsProduced(w, id);
    FlattenLength(stored);
    FlattenLength(h.emitted);
    ByteCountPrefix(h.emitted, Min(|h.emitted|, ADMITTED));
  }

  lemma HoldsProduced(w: World, id: CommandId)
    requires Reachable(w) && id in w.server && !S.Active(w.server[id]) && !w.server[id].outputTruncated
    ensures Flatten(HistoryOf(w, First(id)).emitted) == HistoryOf(w, First(id)).produced
  {
    ReachableInvariant(w);
    assert CommandTracks(w, id);
  }

  // ---------- Two runs on which late output is missing ----------

  const MESSAGE := "Command termination could not be confirmed"

  ghost predicate MissesLateOutput(w: World, id: CommandId) {
    && id in w.server && w.server[id].status == S.Terminal(ExecutionUnknown) && !w.server[id].outputTruncated
    && |HistoryOf(w, First(id)).emitted| <= ADMITTED
    && Flatten(S.InOrder(w.server[id].chunks, ADMITTED)) != HistoryOf(w, First(id)).produced + HistoryOf(w, First(id)).late
  }

  /** Once the Server has seen the Command end, a left-over process writes one more byte. */
  lemma WritesLate(w: World) returns (v: World)
    requires Reachable(w) && 0 in w.server && First(0) in w.orphans
    requires w.server[0].status == S.Terminal(ExecutionUnknown) && !w.server[0].outputTruncated
    requires |HistoryOf(w, First(0)).emitted| <= ADMITTED
    ensures Reachable(v) && MissesLateOutput(v, 0)
  {
    hide Reachable, Apply, Enabled;
    var s := LateOutput(First(0), Stdout, ONE_BYTE);
    LateStepFrame(w);
    ReachableStep(w, s);
    v := Apply(w, s);
    OutputIsHonest(v, 0);
  }

  lemma LateStepFrame(w: World)
    requires First(0) in w.orphans && 0 in w.server
    ensures var s := LateOutput(First(0), Stdout, ONE_BYTE);
            && Enabled(w, s)
            && Apply(w, s).server == w.server
            && HistoryOf(Apply(w, s), First(0)).late != []
            && HistoryOf(Apply(w, s), First(0)).emitted == HistoryOf(w, First(0)).emitted
  {
    hide EmitLate;
  }

  /** The Client gives up on a process it cannot prove dead, and reports the Command; the
      process goes on writing. */
  lemma UnprovedTerminationLosesOutput() returns (w: World)
    ensures Reachable(w) && MissesLateOutput(w, 0)
  {
    hide Reachable;
    var ending := Aborted(MESSAGE, true, false, false);
    var u := StartsWriting();
    u := Ends(u, 0, ending);
    u := HandlesMany(u, 0, FinalResult(ending, false));
    var s := ServerHandles(0, 0);
    ReachableStep(u, s);
    u := Apply(u, s);
    w := WritesLate(u);
  }

  /** What a crash leaves of a Command that has written nothing: an unknown outcome, with
      nothing flagged as lost, that the next connection reports. */
  lemma ReportsAfterCrash(c: ClientState)
    requires c.journal == J.Table(map[0 := J.Row(J.Running, None, false, false)], [0])
    ensures var d := Restart(c).(socket := Open, sendsLeft := 1);
            ClientOutput.Authenticated(d).sent ==
              [CommandCompleted(0, CommandResult(ExecutionUnknown, None, Some(J.INTERRUPTED), false))]
  {
    var result := CommandResult(ExecutionUnknown, None, Some(J.INTERRUPTED), false);
    var d := Restart(c).(socket := Open, sendsLeft := 1);
    var t := d.journal;
    assert t.rows[0] == J.Row(J.Completed, Some(result), false, false);
    assert t.order[1..] == [] && J.Results(t, []) == [];
    assert J.ResultsForReconciliation(t) == [(0, result)] + [];
    var c1 := d.(authenticated := true);
    assert Flush(c1) == c1;
    var e := SendCompletion(c1, 0, result);
    assert [(0, result)][1..] == [];
    assert Reconcile(e, []) == e;
  }

  /** The Client crashes before the first chunk: no journal row says that output was
      unconfirmed, and the process that was left behind goes on writing. */
  lemma CrashLosesOutput() returns (w: World)
    ensures Reachable(w) && MissesLateOutput(w, 0)
  {
    hide Reachable, ClientOutput.Authenticated, Restart;
    var u := StartsWriting();
    ReportsAfterCrash(u.client);
    RestartForgets(u.client);
    ReachableStep(u, CrashAndRestart);
    u := Apply(u, CrashAndRestart);
    ReachableStep(u, SocketOpens(1));
    u := Apply(u, SocketOpens(1));
    ReachableStep(u, ReceiveAuthenticated);
    u := Apply(u, ReceiveAuthenticated);
    var s := ServerHandles(1, 0);
    ReachableStep(u, s);
    u := Apply(u, s);
    w := WritesLate(u);
  }
}
