/** The per-machine queue of lifecycle operations (apps/server/src/gateway.ts): each call
    of `run` chains its operation behind the promise the map holds for the machine, and a
    later microtask deletes the map entry if it is still that call's own. */
module LifecycleQueue {
  import opened Wire

  type Machine = string

  /** One call of `run`: `previous` is the call whose `settled` promise it waits for, None
      for an already resolved promise.  `Ended` is the operation's own end, with or without
      an error; `Resolved` the resolution of `settled`; `Cleaned` after the clean-up ran. */
  datatype Phase = Waiting | Running | Ended(failed: bool) | Resolved | Cleaned

  datatype Call = Call(machine: Machine, previous: Option<nat>, phase: Phase)

  /** Every call in submission order, the `queues` map, and the calls whose operation
      started, in that order. */
  datatype Queue = Queue(calls: seq<Call>, queues: map<Machine, nat>, started: seq<nat>)

  const EMPTY := Queue([], map[], [])

  datatype Step =
    | Submit(machine: Machine)
    | Start(call: nat)
    | End(call: nat, failed: bool)
    | Resolve(call: nat)
    | CleanUp(call: nat)

  predicate Settled(c: Call) {
    c.phase == Resolved || c.phase == Cleaned
  }

  predicate Enabled(q: Queue, s: Step) {
    match s
    case Submit(_) => true
    case Start(k) =>
      && k < |q.calls| && q.calls[k].phase == Waiting
      && (q.calls[k].previous.Some? ==> q.calls[k].previous.value < |q.calls| && Settled(q.calls[q.calls[k].previous.value]))
    case End(k, _) => k < |q.calls| && q.calls[k].phase == Running
    case Resolve(k) => k < |q.calls| && q.calls[k].phase.Ended?
    case CleanUp(k) => k < |q.calls| && q.calls[k].phase == Resolved
  }

  function Submitted(q: Queue, machine: Machine): Queue {
    var previous := if machine in q.queues then Some(q.queues[machine]) else None;
    q.(calls := q.calls + [Call(machine, previous, Waiting)], queues := q.queues[machine := |q.calls|])
  }

  function CleanedUp(q: Queue, k: nat): Queue
    requires k < |q.calls|
  {
    var machine := q.calls[k].machine;
    var deletes := machine in q.queues && q.queues[machine] == k;
    SetPhase(q, k, Cleaned).(queues := if deletes then q.queues - {machine} else q.queues)
  }

  function SetPhase(q: Queue, k: nat, phase: Phase): Queue
    requires k < |q.calls|
  {
    q.(calls := q.calls[k := q.calls[k].(phase := phase)])
  }

  function Apply(q: Queue, s: Step): Queue
    requires Enabled(q, s)
  {
    match s
    case Submit(machine) => Submitted(q, machine)
    case Start(k) => SetPhase(q, k, Running).(started := q.started + [k])
    case End(k, failed) => SetPhase(q, k, Ended(failed))
    case Resolve(k) => SetPhase(q, k, Resolved)
    case CleanUp(k) => CleanedUp(q, k)
  }

  // ---------- The invariant ----------

  /** No call of the machine was submitted at or after `from` and before `to`. */
  ghost predicate NoneBetween(calls: seq<Call>, machine: Machine, from: nat, to: nat) {
    forall i | from <= i < to && i < |calls| :: calls[i].machine != machine
  }

  ghost predicate AllSettled(calls: seq<Call>, machine: Machine, to: nat) {
    forall i | 0 <= i < to && i < |calls| && calls[i].machine == machine :: Settled(calls[i])
  }

  /** The call waits for the one submitted just before it, or for nothing unsettled. */
  ghost predicate ChainedAt(calls: seq<Call>, k: nat)
    requires k < |calls|
  {
    var c := calls[k];
    if c.previous.Some? then
      && c.previous.value < k && calls[c.previous.value].machine == c.machine
      && NoneBetween(calls, c.machine, c.previous.value + 1, k)
    else AllSettled(calls, c.machine, k)
  }

  /** Once the call has started everything submitted before it has settled. */
  ghost predicate InTurn(calls: seq<Call>, k: nat)
    requires k < |calls|
  {
    calls[k].phase != Waiting ==> AllSettled(calls, calls[k].machine, k)
  }

  ghost predicate Chained(calls: seq<Call>) {
    forall k | 0 <= k < |calls| :: ChainedAt(calls, k) && InTurn(calls, k)
  }

  /** The map entry is the machine's last call; without one everything has settled. */
  ghost predicate MappedAt(q: Queue, machine: Machine) {
    if machine in q.queues then
      var k := q.queues[machine];
      k < |q.calls| && q.calls[k].machine == machine && NoneBetween(q.calls, machine, k + 1, |q.calls|)
    else AllSettled(q.calls, machine, |q.calls|)
  }

  ghost predicate Mapped(q: Queue) {
    forall machine: Machine :: MappedAt(q, machine)
  }

  /** `started` lists the started calls, each machine's in submission order. */
  ghost predicate Logged(q: Queue) {
    && (forall i | 0 <= i < |q.started| :: q.started[i] < |q.calls| && q.calls[q.started[i]].phase != Waiting)
    && (forall i, j | 0 <= i < j < |q.started| && q.calls[q.started[i]].machine == q.calls[q.started[j]].machine ::
          q.started[i] < q.started[j])
  }

  ghost predicate Invariant(q: Queue) {
    Chained(q.calls) && Mapped(q) && Logged(q)
  }

  lemma StartIsNext(q: Queue, k: nat)
    requires Invariant(q) && Enabled(q, Start(k))
    ensures AllSettled(q.calls, q.calls[k].machine, k)
  {
    var c := q.calls[k];
    assert ChainedAt(q.calls, k);
    if c.previous.Some? {
      assert InTurn(q.calls, c.previous.value);
    }
  }

  /** A call that moves on in its turn keeps every chain. */
  lemma PhaseChains(calls: seq<Call>, k: nat, phase: Phase)
    requires Chained(calls) && k < |calls| && AllSettled(calls, calls[k].machine, k)
    requires Settled(calls[k]) ==> phase == Cleaned
    ensures Chained(calls[k := calls[k].(phase := phase)])
  {
    var v := calls[k := calls[k].(phase := phase)];
    forall j | 0 <= j < |v|
      ensures ChainedAt(v, j) && InTurn(v, j)
    {
      assert ChainedAt(calls, j) && InTurn(calls, j);
    }
  }

  lemma SubmitChains(q: Queue, machine: Machine)
    requires Chained(q.calls) && MappedAt(q, machine)
    ensures Chained(Submitted(q, machine).calls)
  {
    var v := Submitted(q, machine).calls;
    forall j | 0 <= j < |v|
      ensures ChainedAt(v, j) && InTurn(v, j)
    {
      if j < |q.calls| {
        assert v[j] == q.calls[j];
        assert ChainedAt(q.calls, j) && InTurn(q.calls, j);
      }
    }
  }

  lemma SubmitMaps(q: Queue, machine: Machine, m: Machine)
    requires MappedAt(q, m)
    ensures MappedAt(Submitted(q, machine), m)
  {
    var v := Submitted(q, machine).calls;
    assert forall j | 0 <= j < |q.calls| :: v[j] == q.calls[j];
  }

  lemma PhaseMaps(q: Queue, k: nat, phase: Phase, m: Machine)
    requires MappedAt(q, m) && k < |q.calls| && (Settled(q.calls[k]) ==> phase == Cleaned)
    ensures MappedAt(SetPhase(q, k, phase), m)
  {
  }

  /** Deleting the entry of the machine's last call leaves nothing unsettled behind. */
  lemma CleanUpMaps(q: Queue, k: nat, m: Machine)
    requires MappedAt(q, m) && Enabled(q, CleanUp(k)) && AllSettled(q.calls, q.calls[k].machine, k)
    ensures MappedAt(CleanedUp(q, k), m)
  {
  }

  lemma StepKeepsInvariant(q: Queue, s: Step)
    requires Enabled(q, s) && Invariant(q)
    ensures Invariant(Apply(q, s))
  {
    hide AllSettled, NoneBetween, Chained, MappedAt;
    var v := Apply(q, s);
    if s.Submit? {
      assert MappedAt(q, s.machine);
      SubmitChains(q, s.machine);
    } else if s.Start? {
      StartIsNext(q, s.call);
      StartLogs(q, s.call);
      PhaseChains(q.calls, s.call, Running);
    } else {
      EarlierSettled(q.calls, s.call);
      PhaseChains(q.calls, s.call, v.calls[s.call].phase);
    }
    forall m: Machine
      ensures MappedAt(v, m)
    {
      assert MappedAt(q, m);
      match s {
        case Submit(machine) => SubmitMaps(q, machine, m);
        case Start(k) =>
          PhaseMaps(q, k, Running, m);
          MapIgnoresLog(SetPhase(q, k, Running), v, m);
        case CleanUp(k) => CleanUpMaps(q, k, m);
        case _ => PhaseMaps(q, s.call, v.calls[s.call].phase, m);
      }
    }
  }

  lemma MapIgnoresLog(q: Queue, v: Queue, m: Machine)
    requires MappedAt(q, m) && v == q.(started := v.started)
    ensures MappedAt(v, m)
  {
  }

  lemma EarlierSettled(calls: seq<Call>, k: nat)
    requires Chained(calls) && k < |calls| && calls[k].phase != Waiting
    ensures AllSettled(calls, calls[k].machine, k)
  {
    assert InTurn(calls, k);
  }

  lemma StartLogs(q: Queue, k: nat)
    requires Invariant(q) && Enabled(q, Start(k))
    ensures Logged(Apply(q, Start(k)))
  {
    var v := Apply(q, Start(k));
    forall i | 0 <= i < |q.started| && q.calls[q.started[i]].machine == q.calls[k].machine
      ensures q.started[i] < k
    {
      var s := q.started[i];
      assert q.calls[s].phase != Waiting;
      assert InTurn(q.calls, s);
    }
  }

  // ---------- Runs ----------

  ghost predicate IsRun(q: Queue, steps: seq<Step>)
    decreases |steps|
  {
    steps == [] || (Enabled(q, steps[0]) && IsRun(Apply(q, steps[0]), steps[1..]))
  }

  function After(q: Queue, steps: seq<Step>): Queue
    requires IsRun(q, steps)
    decreases |steps|
  {
    if steps == [] then q else After(Apply(q, steps[0]), steps[1..])
  }

  lemma {:induction false} RunKeepsInvariant(q: Queue, steps: seq<Step>)
    requires Invariant(q) && IsRun(q, steps)
    ensures Invariant(After(q, steps))
    decreases |steps|
  {
    hide Invariant, Enabled, Apply;
    if steps != [] {
      StepKeepsInvariant(q, steps[0]);
      RunKeepsInvariant(Apply(q, steps[0]), steps[1..]);
    }
  }

  /** Under every schedule, with operations succeeding and failing, the operations of a
      machine never overlap and start in submission order, and the map entry is absent only
      when all of them have settled. */
  lemma OperationsNeverOverlap(steps: seq<Step>, i: nat, k: nat)
    requires IsRun(EMPTY, steps)
    requires var q := After(EMPTY, steps); i < k < |q.calls| && q.calls[i].machine == q.calls[k].machine
    ensures var q := After(EMPTY, steps);
            && (q.calls[k].phase != Waiting ==> Settled(q.calls[i]))
            && !(q.calls[i].phase == Running && q.calls[k].phase == Running)
            && (q.calls[k].machine !in q.queues ==> Settled(q.calls[i]) && Settled(q.calls[k]))
            && (forall a, b | 0 <= a < |q.started| && 0 <= b < |q.started| && q.started[a] == i && q.started[b] == k :: a < b)
  {
    RunKeepsInvariant(EMPTY, steps);
    var q := After(EMPTY, steps);
    assert InTurn(q.calls, k) && MappedAt(q, q.calls[k].machine);
    forall a, b | 0 <= a < |q.started| && 0 <= b < |q.started| && q.started[a] == i && q.started[b] == k
      ensures a < b
    {
      if b < a {
        assert false;
      }
    }
  }

  /** Each entry is of a call that has not been cleaned up. */
  ghost predicate Tidy(q: Queue) {
    forall machine | machine in q.queues ::
      q.queues[machine] < |q.calls| && q.calls[q.queues[machine]].machine == machine && q.calls[q.queues[machine]].phase != Cleaned
  }

  lemma StepKeepsTidy(q: Queue, s: Step)
    requires Enabled(q, s) && Tidy(q)
    ensures Tidy(Apply(q, s))
  {
  }

  lemma {:induction false} RunKeepsTidy(q: Queue, steps: seq<Step>)
    requires Tidy(q) && IsRun(q, steps)
    ensures Tidy(After(q, steps))
    decreases |steps|
  {
    hide Tidy, Enabled, Apply;
    if steps != [] {
      StepKeepsTidy(q, steps[0]);
      RunKeepsTidy(Apply(q, steps[0]), steps[1..]);
    }
  }

  /** On every run: once all calls of a machine have been cleaned up its entry is gone, so the
      map does not grow with the machines that were ever used. */
  lemma NothingLingers(steps: seq<Step>, machine: Machine)
    requires IsRun(EMPTY, steps)
    requires forall k | 0 <= k < |After(EMPTY, steps).calls| && After(EMPTY, steps).calls[k].machine == machine ::
               After(EMPTY, steps).calls[k].phase == Cleaned
    ensures machine !in After(EMPTY, steps).queues
  {
    RunKeepsTidy(EMPTY, steps);
  }

  /** No schedule strands an operation: while one has not settled, some call of its machine
      can start, end or resolve. */
  lemma {:induction false} NothingIsStranded(q: Queue, k: nat) returns (s: Step)
    requires Invariant(q) && k < |q.calls| && !Settled(q.calls[k])
    ensures Enabled(q, s) && !s.Submit? && !s.CleanUp? && q.calls[s.call].machine == q.calls[k].machine
    decreases k
  {
    match q.calls[k].phase {
      case Running => s := End(k, false);
      case Ended(_) => s := Resolve(k);
      case Waiting =>
        var previous := q.calls[k].previous;
        assert ChainedAt(q.calls, k);
        if previous.Some? && !Settled(q.calls[previous.value]) {
          s := NothingIsStranded(q, previous.value);
        } else {
          s := Start(k);
        }
    }
  }

  /** The map of the queue and the two turns that write it.  Promises are the numbers of
      the calls they belong to. */
  class MachineLifecycleQueue {
    var queues: map<Machine, nat>
    ghost var calls: seq<Call>
    ghost var started: seq<nat>

    constructor ()
      ensures Valid() && State() == EMPTY
    {
      queues, calls, started := map[], [], [];
    }

    ghost function State(): Queue
      reads this
    {
      Queue(calls, queues, started)
    }

    /** Each machine's operations run one at a time in the order of their calls, and the map
        holds its last call unless nothing of it is unsettled. */
    ghost predicate Valid()
      reads this
    {
      Invariant(State())
    }

    /** The synchronous part of `run`: returns the promise the operation is chained behind,
        which is that of the machine's last call, or none when nothing of it is unsettled. */
    method Run(machine: Machine, call: nat) returns (previous: Option<nat>)
      requires Valid() && call == |calls|
      modifies this
      ensures Valid() && State() == Submitted(old(State()), machine)
      ensures calls == old(calls) + [Call(machine, previous, Waiting)] && started == old(started)
      ensures machine in queues && queues[machine] == call && queues - {machine} == old(queues) - {machine}
      ensures if previous.Some? then
                && previous.value < call && old(calls)[previous.value].machine == machine
                && NoneBetween(old(calls), machine, previous.value + 1, call)
              else AllSettled(old(calls), machine, call)
    {
      StepKeepsInvariant(State(), Submit(machine));
      assert MappedAt(State(), machine);
      previous := if machine in queues then Some(queues[machine]) else None;
      calls := calls + [Call(machine, previous, Waiting)];
      queues := queues[machine := call];
    }

    /** The `finally` callback of one call.  The entry goes only with the machine's last call,
        and then a later call need not wait for anything. */
    method CleanUp(machine: Machine, call: nat)
      requires Valid() && call < |calls| && calls[call].machine == machine && calls[call].phase == Resolved
      modifies this
      ensures Valid() && State() == CleanedUp(old(State()), call)
      ensures machine in old(queues) && machine !in queues ==>
                AllSettled(calls, machine, |calls|) && NoneBetween(calls, machine, call + 1, |calls|)
      ensures queues == if machine in old(queues) && old(queues)[machine] == call then old(queues) - {machine} else old(queues)
      ensures calls == old(calls)[call := old(calls)[call].(phase := Cleaned)] && started == old(started)
    {
      StepKeepsInvariant(State(), Step.CleanUp(call));
      assert MappedAt(State(), machine);
      calls := calls[call := calls[call].(phase := Cleaned)];
      if machine in queues && queues[machine] == call {
        queues := queues - {machine};
      }
      assert MappedAt(State(), machine);
    }
  }
}
