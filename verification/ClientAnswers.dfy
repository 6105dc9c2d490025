/** What the Client answers to a start and a cancellation, and when an execution ends: the
    message it accepts for sending and the row it journals (apps/client/src/index.ts). */
module ClientAnswers {
  import opened Wire
  import opened ClientOutput
  import opened JournalFading
  import J = Journal

  /** The message reports the result, flagged also if output of the Command is known to be
      lost; an empty error is left out, and a flagged result without an error gets one. */
  predicate Reports(m: ClientMessage, id: CommandId, result: CommandResult, lost: bool) {
    && m.CommandCompleted? && m.commandId == id
    && m.result.status == result.status && m.result.exitCode == result.exitCode
    && (m.result.outputTruncated <==> result.outputTruncated || lost)
    && match result.error
       case None => m.result.error == if m.result.outputTruncated then Some("Command output is incomplete") else None
       case Some(error) => m.result.error == if error == "" then None else Some(error)
  }

  lemma CompletionReports(c: ClientState, id: CommandId, result: CommandResult)
    ensures Reports(Completion(c, id, result), id, result, id in c.truncated)
  {
  }

  /** The row holds the result, flagged at least where the result is. */
  predicate Holds(c: ClientState, id: CommandId, result: CommandResult) {
    && id in c.journal.rows && c.journal.rows[id].state == J.Completed && c.journal.rows[id].result.Some?
    && var stored := c.journal.rows[id].result.value;
       && stored.status == result.status && stored.exitCode == result.exitCode
       && (result.error.Some? ==> stored.error == result.error)
       && (result.outputTruncated ==> stored.outputTruncated)
  }

  /** Exactly one message was accepted, and it reports the result. */
  ghost predicate Answers(c: ClientState, d: ClientState, id: CommandId, result: CommandResult, lost: bool) {
    && |d.accepted| == |c.accepted| + 1 && c.accepted <= d.accepted
    && Reports(d.accepted[|c.accepted|], id, result, lost)
  }

  lemma CompletionIsAccepted(c: ClientState, m: ClientMessage)
    requires !m.CommandOutput?
    ensures Deliver(c, m).0.accepted == c.accepted + [m]
  {
    hide MarkMessages, J.TruncateRows;
  }

  lemma SendAnswers(c: ClientState, id: CommandId, result: CommandResult)
    ensures Answers(c, SendCompletion(c, id, result), id, result, id in c.truncated)
    ensures SendCompletion(c, id, result).running == c.running
  {
    hide Deliver, Completion, Reports;
    CompletionReports(c, id, result);
    CompletionIsAccepted(c, Completion(c, id, result));
  }

  lemma HoldsFades(c: ClientState, d: ClientState, id: CommandId, result: CommandResult)
    requires Holds(c, id, result) && Fades(c.journal, d.journal)
    ensures Holds(d, id, result)
  {
    assert FadesRow(c.journal.rows[id], d.journal.rows[id]);
  }

  lemma CompleteAnswers(c: ClientState, id: CommandId, result: CommandResult)
    ensures Answers(c, CompleteAndSend(c, id, result), id, result, id in c.truncated)
    ensures CompleteAndSend(c, id, result).running == c.running
    ensures id in c.journal.rows ==> Holds(CompleteAndSend(c, id, result), id, result)
  {
    hide SendCompletion, Fades, Reports;
    var d := c.(journal := J.Complete(c.journal, id, result));
    SendAnswers(d, id, result);
    ReportFades(d, id, result);
    if id in c.journal.rows {
      HoldsFades(d, SendCompletion(d, id, result), id, result);
    }
  }

  /** A start of a Command that has ended answers with the stored result; one of a Command in
      progress changes nothing.  A new Command that is admitted is reported as started and
      runs, having written nothing; one that is refused, or may write nothing, has failed. */
  lemma StartAnswers(c: ClientState, id: CommandId, admission: Option<string>)
    requires id in c.journal.rows ==> J.RowOk(c.journal.rows[id])
    ensures var d := Start(c, id, admission);
            if id in c.journal.rows && c.journal.rows[id].state == J.Completed then
              Answers(c, d, id, c.journal.rows[id].result.value, id in c.truncated) && d.running == c.running
            else if id in c.journal.rows then d == c
            else if admission.None? && c.limits.commandBytes > 0 then
              && d.accepted == c.accepted + [CommandStarted(id)]
              && d.running == c.running[id := Execution(0, 0, false, Min(1024 * 1024, c.limits.commandBytes))]
              && id in d.journal.rows && d.journal.rows[id].state == J.Running && d.journal.rows[id].result.None?
            else
              var error := if admission.Some? then admission.value else "Command exceeds Local Policy or Session expiry";
              var result := CommandResult(Failed, None, Some(error), false);
              Answers(c, d, id, result, id in c.truncated) && Holds(d, id, result) && d.running == c.running
  {
    hide SendCompletion, CompleteAndSend, Deliver, Answers, Holds, Fades;
    var (journal, receipt) := J.Receive(c.journal, id);
    var c1 := c.(journal := journal);
    if id in c.journal.rows {
      if c.journal.rows[id].state == J.Completed {
        SendAnswers(c, id, c.journal.rows[id].result.value);
        assert c1 == c;
      }
    } else if admission.None? && c.limits.commandBytes > 0 {
      var limit := Min(DEFAULT_COMMAND_OUTPUT_BYTES, c.limits.commandBytes);
      var c2 := c1.(running := c1.running[id := Execution(0, 0, false, limit)], journal := J.MarkRunning(journal, id));
      CompletionIsAccepted(c2, CommandStarted(id));
      DeliverFades(c2, CommandStarted(id));
      RunningFades(c2, Deliver(c2, CommandStarted(id)).0, id);
    } else {
      var result := CommandResult(Failed, None, Some(admission.GetOr(EXCEEDS_POLICY)), false);
      CompleteAnswers(c1, id, result);
      AnswersIgnoreJournal(c, c1, CompleteAndSend(c1, id, result), id, result);
    }
  }

  lemma RunningFades(c: ClientState, d: ClientState, id: CommandId)
    requires Fades(c.journal, d.journal) && id in c.journal.rows
    ensures id in d.journal.rows && d.journal.rows[id].state == c.journal.rows[id].state
    ensures d.journal.rows[id].result.None? <==> c.journal.rows[id].result.None?
  {
    assert FadesRow(c.journal.rows[id], d.journal.rows[id]);
  }

  lemma AnswersIgnoreJournal(c: ClientState, c1: ClientState, d: ClientState, id: CommandId, result: CommandResult)
    requires c1 == c.(journal := c1.journal) && Answers(c1, d, id, result, id in c1.truncated)
    ensures Answers(c, d, id, result, id in c.truncated)
  {
  }

  /** A start of a Command that does not run reaches the executor exactly when it makes it run. */
  lemma LaunchedExactly(c: ClientState, id: CommandId, admission: Option<string>)
    requires id !in c.running && (id in c.journal.rows ==> J.RowOk(c.journal.rows[id]))
    ensures Launches(c, id, admission) <==> id in Start(c, id, admission).running
  {
    hide Start, Answers, Holds;
    StartAnswers(c, id, admission);
  }

  /** A cancellation leaves a running execution to its PendingCommand.  It answers for a Command
      that has ended with the stored result, for an unknown one that it was cancelled before it
      started, and otherwise that its outcome is unknown; and journals what it answers. */
  lemma CancelAnswers(c: ClientState, id: CommandId)
    requires id in c.journal.rows ==> J.RowOk(c.journal.rows[id])
    ensures var d := Cancel(c, id);
            && d.running == c.running
            && if id in c.running then d == c
               else if id in c.journal.rows && c.journal.rows[id].state == J.Completed then
                 Answers(c, d, id, c.journal.rows[id].result.value, id in c.truncated)
               else
                 var result :=
                   if id in c.journal.rows then
                     CommandResult(ExecutionUnknown, None, Some("Command execution state was unavailable when cancellation arrived"), false)
                   else CommandResult(Cancelled, None, Some("Command was cancelled before execution started"), false);
                 Answers(c, d, id, result, id in c.truncated) && Holds(d, id, result)
  {
    hide SendCompletion, CompleteAndSend, Answers, Holds;
    if id !in c.running {
      if id in c.journal.rows && c.journal.rows[id].state == J.Completed {
        SendAnswers(c, id, c.journal.rows[id].result.value);
      } else {
        var c1 := c.(journal := J.Receive(c.journal, id).0);
        var result :=
          if id in c.journal.rows then
            CommandResult(ExecutionUnknown, None, Some("Command execution state was unavailable when cancellation arrived"), false)
          else CommandResult(Cancelled, None, Some("Command was cancelled before execution started"), false);
        CompleteAnswers(c1, id, result);
        AnswersIgnoreJournal(c, c1, CompleteAndSend(c1, id, result), id, result);
      }
    }
  }

  /** What the end of an execution did: it is over, and its final result, flagged if the
      execution or the Command is, journaled and answered.  Only an unproved termination leaves
      its closure behind and stops the Client, which gives up its connection. */
  ghost predicate Ended(c: ClientState, d: ClientState, id: CommandId, ending: Ending)
    requires id in c.running
  {
    var lost := c.running[id].truncated || id in c.truncated;
    var result := FinalResult(ending, lost);
    && Answers(c, d, id, result, id in c.truncated) && (id in c.journal.rows ==> Holds(d, id, result))
    && d.running == c.running - {id}
    && if ending.Aborted? && ending.unconfirmed then
         && d.stopped && !d.authenticated && d.socket != Open && d.unconfirmed == {}
         && d.orphans == c.orphans[id := c.running[id].(truncated := lost)]
       else d.stopped == c.stopped && d.socket == c.socket && d.orphans == c.orphans
  }

  lemma FinishAnswers(c: ClientState, id: CommandId, ending: Ending)
    requires id in c.running
    ensures Ended(c, Finish(c, id, ending), id, ending)
  {
    hide CompleteAndSend, MarkTruncated, Answers, Holds, FinalResult, Fades;
    var result := FinalResult(ending, c.running[id].truncated || id in c.truncated);
    CompleteAnswers(c, id, result);
    var c2 := CompleteAndSend(c, id, result).(running := CompleteAndSend(c, id, result).running - {id});
    ShutdownStops(c2);
    AnswersAside(c, CompleteAndSend(c, id, result), Finish(c, id, ending), id, result);
    ShutdownFades(c2);
    if id in c.journal.rows {
      HoldsAside(CompleteAndSend(c, id, result), c2, id, result);
      HoldsFades(c2, Shutdown(c2), id, result);
      HoldsAside(if Unproved(ending) then Shutdown(c2) else c2, Finish(c, id, ending), id, result);
    }
  }

  lemma AnswersAside(c: ClientState, d: ClientState, e: ClientState, id: CommandId, result: CommandResult)
    requires Answers(c, d, id, result, id in c.truncated) && e.accepted == d.accepted
    ensures Answers(c, e, id, result, id in c.truncated)
  {
  }

  lemma HoldsAside(c: ClientState, d: ClientState, id: CommandId, result: CommandResult)
    requires Holds(c, id, result) && d.journal == c.journal
    ensures Holds(d, id, result)
  {
  }

  /** A shutdown counts unconfirmed output as lost and gives up the connection, for good. */
  lemma ShutdownStops(c: ClientState)
    ensures var d := Shutdown(c);
            && d.stopped && !d.authenticated && d.socket != Open && d.unconfirmed == {}
            && d.truncated == c.truncated + c.unconfirmed
            && (forall id | id in c.unconfirmed && id in c.journal.rows :: id in d.journal.rows && d.journal.rows[id].truncated)
            && |d.buffer| == |c.buffer| && d.sent == c.sent && d.accepted == c.accepted && d.running == c.running && d.orphans == c.orphans
  {
  }

  /** A lost connection counts unconfirmed output as lost too; what waits goes on waiting. */
  lemma CloseForgets(c: ClientState)
    ensures var d := CloseEvent(c);
            && d.socket == Absent && !d.authenticated && d.sent == [] && d.unconfirmed == {}
            && d.truncated == c.truncated + c.unconfirmed
            && (forall id | id in c.unconfirmed && id in c.journal.rows :: id in d.journal.rows && d.journal.rows[id].truncated)
            && |d.buffer| == |c.buffer| && d.accepted == c.accepted && d.running == c.running && d.orphans == c.orphans
            && d.stopped == c.stopped
  {
  }
}
