/** What the Server does with the next message of a connection (apps/server/src/index.ts), said
    of the message and the row it finds. */
module MessageHandling {
  import opened Wire
  import opened OutputProtocol
  import S = ServerCommands

  function NextMessage(w: World, k: nat, at: int): ClientMessage
    requires Enabled(w, ServerHandles(k, at))
  {
    LinkOf(w, k).log[LinkOf(w, k).handled]
  }

  /** The bounds of the message schema. */
  predicate Admitted(m: ClientMessage) {
    match m
    case CommandOutput(_, sequence, chunk) => sequence <= 1_000_000 && |chunk.data| <= 256 * 1024
    case CommandCompleted(_, result) => result.error.Some? ==> |result.error.value| <= 2_048
    case _ => true
  }

  /** The Command a message is about, if the schema admits it and the Server has its row. */
  predicate Concerns(w: World, m: ClientMessage, id: CommandId) {
    Admitted(m) && id in w.server && (m.CommandStarted? || m.CommandOutput? || m.CommandCompleted?) && m.commandId == id
  }

  /** The statement a message makes on the row of its Command. */
  function StatementOf(m: ClientMessage, at: int): S.CommandStep
    requires m.CommandStarted? || m.CommandOutput? || m.CommandCompleted?
  {
    match m
    case CommandStarted(_) => S.Started(at)
    case CommandOutput(_, sequence, chunk) => S.Output(sequence, chunk)
    case CommandCompleted(_, result) => S.Completed(result, at)
  }

  /** A message makes its statement on the row of the Command it concerns and changes nothing
      else; it is handled once.  The completion of a known Command, and no other message, is
      acknowledged, whether or not it is the one that decides the Command. */
  lemma MessageIsHandled(w: World, k: nat, at: int)
    requires Enabled(w, ServerHandles(k, at))
    ensures var (v, m) := (Apply(w, ServerHandles(k, at)), NextMessage(w, k, at));
            && v.client == w.client && v.server.Keys == w.server.Keys
            && |v.past| == |w.past| && LinkOf(v, k) == LinkOf(w, k).(handled := LinkOf(w, k).handled + 1)
            && (forall j | 0 <= j <= |w.past| && j != k :: LinkOf(v, j) == LinkOf(w, j))
            && (forall id | id in w.server ::
                  v.server[id] == if Concerns(w, m, id) then S.Advance(w.server[id], StatementOf(m, at)) else w.server[id])
            && (forall id: CommandId :: id in v.acknowledgements <==> id in w.acknowledgements || (m.CommandCompleted? && Concerns(w, m, id)))
  {
    hide S.AddOutput, S.MarkCompleted, S.MarkStarted, Handle, Concerns, StatementOf;
    var link := LinkOf(w, k);
    HandledRows(w, link.log[link.handled], at);
  }

  lemma HandledRows(w: World, m: ClientMessage, at: int)
    ensures var (server, acknowledged) := Handle(w.server, m, at);
            && server.Keys == w.server.Keys
            && (forall id | id in w.server ::
                  server[id] == if Concerns(w, m, id) then S.Advance(w.server[id], StatementOf(m, at)) else w.server[id])
            && (forall id: CommandId :: acknowledged == Some(id) <==> m.CommandCompleted? && Concerns(w, m, id))
  {
    hide S.AddOutput, S.MarkCompleted, S.MarkStarted;
  }
}
