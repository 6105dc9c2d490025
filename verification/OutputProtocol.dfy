/** The Client, the Server and the connections between them as one step relation.

    A connection is the log of what the Client's socket accepted and how much of it the
    Server has handled.  The Server may handle the next message of any connection, also
    of one the Client has given up, and may stop at any point: a connection that is cut
    is one whose remaining messages are never handled.  Server-to-Client messages may
    arrive at any later time, repeatedly, or never. */
module OutputProtocol {
  import opened Wire
  import opened ClientOutput
  import J = Journal
  import S = ServerCommands

  datatype Link = Link(log: seq<ClientMessage>, handled: nat)

  /** A Command id together with how often its journal row was deleted before: one
      lifetime of the row. */
  datatype Lifetime = Lifetime(id: CommandId, deletions: nat)

  /** What happened during one lifetime: how often the executor was called, whether a
      cancellation created the row, the chunks `deliver` accepted, by sequence number,
      every byte the process handed to `emit` until its execution ended, and every byte it
      wrote after that. */
  datatype History = History(
    launches: nat,
    cancelledFirst: bool,
    emitted: seq<Chunk>,
    produced: seq<TaggedByte>,
    late: seq<TaggedByte>)

  const NO_HISTORY := History(0, false, [], [], [])

  /** `orphans` are the executions whose process may have outlived them: its termination
      could not be proved, or the Client crashed. */
  datatype World = World(
    client: ClientState,
    past: seq<Link>,
    handled: nat,
    server: map<CommandId, S.CommandRow>,
    acknowledgements: set<CommandId>,
    deletions: map<CommandId, nat>,
    history: map<Lifetime, History>,
    orphans: set<Lifetime>)

  datatype Step =
    | CreateCommand(id: CommandId, sessionId: SessionId)
    | RequestCancellation(id: CommandId)
    | ServerHandles(link: nat, at: int)
    | ReceiveStart(id: CommandId, admission: Option<string>)
    | ReceiveCancel(id: CommandId)
    | ReceiveAcknowledged(id: CommandId)
    | ProcessOutput(id: CommandId, stream: Stream, data: seq<Byte>)
    | LateOutput(life: Lifetime, stream: Stream, data: seq<Byte>)
    | ExecutionEnds(id: CommandId, ending: Ending)
    | SocketOpens(sendsLeft: nat)
    | SocketCloses
    | SocketCloseEvent
    | ReceiveAuthenticated
    | SendsLeft(sendsLeft: nat)
    | Stop
    | CrashAndRestart

  function InitialWorld(limits: Limits): World {
    World(NewClient(limits), [], 0, map[], {}, map[], map[], {})
  }

  function Deletions(w: World, id: CommandId): nat {
    if id in w.deletions then w.deletions[id] else 0
  }

  function Current(w: World, id: CommandId): Lifetime {
    Lifetime(id, Deletions(w, id))
  }

  function HistoryOf(w: World, life: Lifetime): History {
    if life in w.history then w.history[life] else NO_HISTORY
  }

  function Record(w: World, id: CommandId, h: History): World {
    w.(history := w.history[Current(w, id) := h])
  }

  function LinkOf(w: World, k: nat): Link
    requires k <= |w.past|
  {
    if k < |w.past| then w.past[k] else Link(w.client.sent, w.handled)
  }

  /** Whether the message schema accepts a message. */
  predicate WellFormed(m: ClientMessage) {
    match m
    case CommandOutput(_, sequence, chunk) => sequence <= MAX_SEQUENCE && |chunk.data| <= CHUNK_BYTES
    case CommandCompleted(_, result) => result.error.Some? ==> |result.error.value| <= S.MAX_ERROR
    case _ => true
  }

  /** The Server's message hook: the new rows, and the Command it acknowledges. */
  function Handle(server: map<CommandId, S.CommandRow>, m: ClientMessage, at: int):
    (map<CommandId, S.CommandRow>, Option<CommandId>)
  {
    if !WellFormed(m) then (server, None)
    else
      match m
      case CommandStarted(id) =>
        (if id in server then server[id := S.MarkStarted(server[id], at)] else server, None)
      case CommandOutput(id, sequence, chunk) =>
        (if id in server then server[id := S.AddOutput(server[id], sequence, chunk).0] else server, None)
      case CommandCompleted(id, result) =>
        if id in server then (server[id := S.MarkCompleted(server[id], result, at)], Some(id)) else (server, None)
      case _ => (server, None)
  }

  predicate Enabled(w: World, s: Step) {
    var c := w.client;
    match s
    case CreateCommand(id, _) => id !in w.server
    case RequestCancellation(id) => id in w.server
    case ServerHandles(k, _) => k <= |w.past| && LinkOf(w, k).handled < |LinkOf(w, k).log|
    case ReceiveStart(id, _) => c.authenticated && id in w.server
    case ReceiveCancel(id) => c.authenticated && id in w.server
    case ReceiveAcknowledged(id) => c.authenticated && id in w.acknowledgements
    case ProcessOutput(id, _, _) => id in c.running
    case LateOutput(life, _, _) => life in w.orphans
    case ExecutionEnds(id, _) => id in c.running
    case SocketOpens(_) => c.socket == Absent && !c.stopped
    case SocketCloses => c.socket == Open
    case SocketCloseEvent => c.socket != Absent
    case ReceiveAuthenticated => c.socket != Absent && !c.stopped
    case SendsLeft(_) => true
    case Stop => true
    case CrashAndRestart => true
  }

  function HandleOn(w: World, k: nat, at: int): World
    requires Enabled(w, ServerHandles(k, at))
  {
    var link := LinkOf(w, k);
    var (server, acknowledged) := Handle(w.server, link.log[link.handled], at);
    var w1 := w.(server := server,
                 acknowledgements := w.acknowledgements + (if acknowledged.Some? then {acknowledged.value} else {}));
    if k < |w.past| then w1.(past := w.past[k := link.(handled := link.handled + 1)])
    else w1.(handled := w.handled + 1)
  }

  function Disconnected(w: World, client: ClientState): World {
    w.(client := client, past := w.past + [Link(w.client.sent, w.handled)], handled := 0)
  }

  function Apply(w: World, s: Step): World
    requires Enabled(w, s)
  {
    var c := w.client;
    match s
    case CreateCommand(id, sessionId) => w.(server := w.server[id := S.NewCommand(sessionId)])
    case RequestCancellation(id) => w.(server := w.server[id := S.RequestCancellation(w.server[id])])
    case ServerHandles(k, at) => HandleOn(w, k, at)
    case ReceiveStart(id, admission) =>
      var h := HistoryOf(w, Current(w, id));
      var w1 := if Launches(c, id, admission) then Record(w, id, h.(launches := h.launches + 1)) else w;
      w1.(client := Start(c, id, admission))
    case ReceiveCancel(id) =>
      var h := HistoryOf(w, Current(w, id));
      var w1 := if id !in c.journal.rows && id !in c.running then Record(w, id, h.(cancelledFirst := true)) else w;
      w1.(client := Cancel(c, id))
    case ReceiveAcknowledged(id) =>
      var w1 := if id in c.journal.rows && c.journal.rows[id].state == J.Completed
                then w.(deletions := w.deletions[id := Deletions(w, id) + 1]) else w;
      w1.(client := Acknowledged(c, id))
    case ProcessOutput(id, stream, data) =>
      var (client, chunks) := Emit(c, id, stream, data);
      var h := HistoryOf(w, Current(w, id));
      Record(w, id, h.(emitted := h.emitted + chunks, produced := h.produced + Tag(stream, data))).(client := client)
    case LateOutput(life, stream, data) =>
      var h := HistoryOf(w, life);
      var w1 := w.(history := w.history[life := h.(late := h.late + Tag(stream, data))]);
      if life.id in c.orphans && life == Current(w, life.id) then w1.(client := EmitLate(c, life.id, stream, data)) else w1
    case ExecutionEnds(id, ending) =>
      w.(client := Finish(c, id, ending),
         orphans := w.orphans + if Unproved(ending) then {Current(w, id)} else {})
    case SocketOpens(n) => w.(client := c.(socket := Open, sendsLeft := n))
    case SocketCloses => w.(client := c.(socket := Closing))
    case SocketCloseEvent => Disconnected(w, CloseEvent(c))
    case ReceiveAuthenticated => w.(client := ClientOutput.Authenticated(c))
    case SendsLeft(n) => w.(client := c.(sendsLeft := n))
    case Stop => w.(client := Shutdown(c))
    case CrashAndRestart =>
      Disconnected(w.(orphans := w.orphans + set id | id in c.running :: Current(w, id)), Restart(c))
  }

  ghost predicate IsRun(w: World, steps: seq<Step>)
    decreases |steps|
  {
    steps == [] || (Enabled(w, steps[0]) && IsRun(Apply(w, steps[0]), steps[1..]))
  }

  function After(w: World, steps: seq<Step>): World
    requires IsRun(w, steps)
    decreases |steps|
  {
    if steps == [] then w else After(Apply(w, steps[0]), steps[1..])
  }
}
