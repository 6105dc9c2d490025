/** What a sequence of Client messages says about one Command. */
module OutputLogs {
  import opened Wire
  import opened ClientOutput

  predicate OutputOf(m: ClientMessage, id: CommandId) {
    m.CommandOutput? && m.commandId == id
  }

  predicate CompletionOf(m: ClientMessage, id: CommandId) {
    m.CommandCompleted? && m.commandId == id
  }

  /** A completion that says the output is complete. */
  predicate Claims(m: ClientMessage, id: CommandId) {
    CompletionOf(m, id) && !m.result.outputTruncated
  }

  /** The sequence numbers of the Command's outputs, in log order. */
  function Sequences(ms: seq<ClientMessage>, id: CommandId): seq<nat> {
    if ms == [] then []
    else Sequences(ms[..|ms| - 1], id)
         + (if OutputOf(ms[|ms| - 1], id) then [ms[|ms| - 1].sequence] else [])
  }

  function Numbers(n: nat): (r: seq<nat>)
    ensures |r| == n && forall i | 0 <= i < n :: r[i] == i
  {
    seq(n, i requires 0 <= i < n => i)
  }

  /** Every output of the Command carries the emitted chunk of its number. */
  ghost predicate Genuine(ms: seq<ClientMessage>, id: CommandId, emitted: seq<Chunk>) {
    forall i | 0 <= i < |ms| && OutputOf(ms[i], id) ::
      ms[i].sequence < |emitted| && emitted[ms[i].sequence] == ms[i].chunk
  }

  ghost predicate HasClaim(ms: seq<ClientMessage>, id: CommandId) {
    exists i :: 0 <= i < |ms| && Claims(ms[i], id)
  }

  ghost predicate HasCompletion(ms: seq<ClientMessage>, id: CommandId) {
    exists i :: 0 <= i < |ms| && CompletionOf(ms[i], id)
  }

  /** No output of the Command follows a completion that claims complete output. */
  ghost predicate ClaimsLast(ms: seq<ClientMessage>, id: CommandId) {
    forall i, j | 0 <= i < |ms| && 0 <= j < |ms| && Claims(ms[i], id) && OutputOf(ms[j], id) :: j < i
  }

  lemma SequencesPush(ms: seq<ClientMessage>, m: ClientMessage, id: CommandId)
    ensures Sequences(ms + [m], id) == Sequences(ms, id) + (if OutputOf(m, id) then [m.sequence] else [])
  {
    assert (ms + [m])[..|ms|] == ms;
  }

  lemma {:induction false} SequencesConcat(a: seq<ClientMessage>, b: seq<ClientMessage>, id: CommandId)
    ensures Sequences(a + b, id) == Sequences(a, id) + Sequences(b, id)
  {
    if b == [] {
      assert a + b == a;
    } else {
      var front := b[..|b| - 1];
      SequencesConcat(a, front, id);
      assert a + b == (a + front) + [b[|b| - 1]];
      SequencesPush(a + front, b[|b| - 1], id);
    }
  }

  lemma SequencesSplit(ms: seq<ClientMessage>, i: nat, id: CommandId)
    requires i <= |ms|
    ensures Sequences(ms, id) == Sequences(ms[..i], id) + Sequences(ms[i..], id)
  {
    assert ms == ms[..i] + ms[i..];
    SequencesConcat(ms[..i], ms[i..], id);
  }

  lemma SequencesOne(m: ClientMessage, id: CommandId)
    ensures Sequences([m], id) == if OutputOf(m, id) then [m.sequence] else []
  {
    assert [m][..0] == [];
  }

  lemma {:induction false} SequencesEmpty(ms: seq<ClientMessage>, id: CommandId)
    requires forall i | 0 <= i < |ms| :: !OutputOf(ms[i], id)
    ensures Sequences(ms, id) == []
  {
    if ms != [] {
      SequencesEmpty(ms[..|ms| - 1], id);
    }
  }

  lemma {:induction false} NoSequences(ms: seq<ClientMessage>, i: nat, id: CommandId)
    requires i < |ms| && OutputOf(ms[i], id)
    ensures Sequences(ms, id) != []
  {
    if i < |ms| - 1 {
      NoSequences(ms[..|ms| - 1], i, id);
    }
  }

  /** Removing a message that is not an output of the Command changes no number. */
  lemma SequencesWithout(ms: seq<ClientMessage>, i: nat, id: CommandId)
    requires i < |ms| && !OutputOf(ms[i], id)
    ensures Sequences(Without(ms, i), id) == Sequences(ms, id)
  {
    SequencesSplit(ms, i, id);
    SequencesSplit(ms[i..], 1, id);
    assert ms[i..][..1] == [ms[i]] && ms[i..][1..] == ms[i + 1..];
    SequencesOne(ms[i], id);
    SequencesConcat(ms[..i], ms[i + 1..], id);
  }

  lemma {:induction false} SequencesMarked(ms: seq<ClientMessage>, ids: set<CommandId>, id: CommandId)
    ensures Sequences(MarkMessages(ms, ids), id) == Sequences(ms, id)
  {
    if ms != [] {
      var front := ms[..|ms| - 1];
      SequencesMarked(front, ids, id);
      assert MarkMessages(ms, ids)[..|ms| - 1] == MarkMessages(front, ids);
    }
  }

  /** When the message at `i` claims complete output, all outputs come before it. */
  lemma SequencesBeforeClaim(ms: seq<ClientMessage>, i: nat, id: CommandId)
    requires i < |ms| && Claims(ms[i], id) && ClaimsLast(ms, id)
    ensures Sequences(ms[..i], id) == Sequences(ms, id)
  {
    SequencesSplit(ms, i, id);
    forall j | 0 <= j < |ms[i..]|
      ensures !OutputOf(ms[i..][j], id)
    {
      assert ms[i..][j] == ms[i + j];
    }
    SequencesEmpty(ms[i..], id);
  }

  // ---------- Order of sequence numbers ----------

  ghost predicate Increasing(s: seq<nat>) {
    forall i, j | 0 <= i < j < |s| :: s[i] < s[j]
  }

  ghost predicate AtLeast(s: seq<nat>, low: nat) {
    forall i | 0 <= i < |s| :: low <= s[i]
  }

  ghost predicate Below(s: seq<nat>, high: nat) {
    forall i | 0 <= i < |s| :: s[i] < high
  }

  lemma {:induction false} GenuineBelow(ms: seq<ClientMessage>, id: CommandId, emitted: seq<Chunk>)
    requires Genuine(ms, id, emitted)
    ensures Below(Sequences(ms, id), |emitted|)
  {
    if ms != [] {
      var front := ms[..|ms| - 1];
      assert forall i | 0 <= i < |front| :: front[i] == ms[i];
      GenuineBelow(front, id, emitted);
    }
  }

  lemma OrderPush(s: seq<nat>, n: nat, low: nat)
    requires Increasing(s) && AtLeast(s, low) && Below(s, n) && low <= n
    ensures Increasing(s + [n]) && AtLeast(s + [n], low)
  {
  }

  lemma BelowConcat(a: seq<nat>, b: seq<nat>, high: nat)
    requires Below(a, high) && Below(b, high)
    ensures Below(a + b, high)
  {
  }

  lemma OrderGap(a: seq<nat>, x: nat, b: seq<nat>, low: nat)
    requires Increasing(a + [x] + b) && AtLeast(a + [x] + b, low)
    ensures Increasing(a + b) && AtLeast(a + b, low)
  {
    var (all, kept) := (a + [x] + b, a + b);
    assert forall k | 0 <= k < |kept| :: kept[k] == all[if k < |a| then k else k + 1];
  }

  lemma SequencesAround(ms: seq<ClientMessage>, i: nat, id: CommandId)
    requires i < |ms| && OutputOf(ms[i], id)
    ensures Sequences(ms, id) == Sequences(ms[..i], id) + [ms[i].sequence] + Sequences(ms[i + 1..], id)
    ensures Sequences(Without(ms, i), id) == Sequences(ms[..i], id) + Sequences(ms[i + 1..], id)
  {
    assert ms == ms[..i] + [ms[i]] + ms[i + 1..];
    SequencesConcat(ms[..i] + [ms[i]], ms[i + 1..], id);
    SequencesPush(ms[..i], ms[i], id);
    SequencesConcat(ms[..i], ms[i + 1..], id);
  }

  /** Dropping a message keeps the order of the remaining numbers. */
  lemma OrderWithout(before: seq<nat>, ms: seq<ClientMessage>, i: nat, id: CommandId, low: nat)
    requires i < |ms|
    requires Increasing(before + Sequences(ms, id)) && AtLeast(before + Sequences(ms, id), low)
    ensures Increasing(before + Sequences(Without(ms, i), id)) && AtLeast(before + Sequences(Without(ms, i), id), low)
  {
    hide Sequences, Without, Increasing, AtLeast;
    if OutputOf(ms[i], id) {
      var (a, b) := (Sequences(ms[..i], id), Sequences(ms[i + 1..], id));
      SequencesAround(ms, i, id);
      assert before + (a + [ms[i].sequence] + b) == (before + a) + [ms[i].sequence] + b;
      OrderGap(before + a, ms[i].sequence, b, low);
      assert before + (a + b) == (before + a) + b;
    } else {
      SequencesWithout(ms, i, id);
    }
  }

  // ---------- How a log changes ----------

  lemma LogPush(ms: seq<ClientMessage>, m: ClientMessage, id: CommandId, emitted: seq<Chunk>)
    ensures OutputOf(m, id) ==> Sequences(ms + [m], id) == Sequences(ms, id) + [m.sequence]
    ensures !OutputOf(m, id) ==> Sequences(ms + [m], id) == Sequences(ms, id)
    ensures Genuine(ms + [m], id, emitted) <==>
              Genuine(ms, id, emitted) && (OutputOf(m, id) ==> m.sequence < |emitted| && emitted[m.sequence] == m.chunk)
    ensures HasClaim(ms + [m], id) <==> HasClaim(ms, id) || Claims(m, id)
    ensures HasCompletion(ms + [m], id) <==> HasCompletion(ms, id) || CompletionOf(m, id)
    ensures ClaimsLast(ms, id) && (OutputOf(m, id) ==> !HasClaim(ms, id)) ==> ClaimsLast(ms + [m], id)
  {
    SequencesPush(ms, m, id);
    var all := ms + [m];
    assert all[|ms|] == m;
    assert forall i | 0 <= i < |ms| :: all[i] == ms[i];
  }

  lemma SequencesShift(ms: seq<ClientMessage>, id: CommandId)
    requires ms != []
    ensures OutputOf(ms[0], id) ==> Sequences(ms, id) == [ms[0].sequence] + Sequences(ms[1..], id)
    ensures !OutputOf(ms[0], id) ==> Sequences(ms, id) == Sequences(ms[1..], id)
  {
    hide Sequences;
    SequencesSplit(ms, 1, id);
    assert ms[..1] == [ms[0]];
    SequencesOne(ms[0], id);
  }

  lemma LogShift(ms: seq<ClientMessage>, id: CommandId, emitted: seq<Chunk>)
    requires ms != []
    ensures OutputOf(ms[0], id) ==> Sequences(ms, id) == [ms[0].sequence] + Sequences(ms[1..], id)
    ensures !OutputOf(ms[0], id) ==> Sequences(ms, id) == Sequences(ms[1..], id)
    ensures Genuine(ms, id, emitted) ==> Genuine(ms[1..], id, emitted)
    ensures HasClaim(ms, id) <==> Claims(ms[0], id) || HasClaim(ms[1..], id)
    ensures HasCompletion(ms, id) <==> CompletionOf(ms[0], id) || HasCompletion(ms[1..], id)
    ensures ClaimsLast(ms, id) ==> ClaimsLast(ms[1..], id)
    ensures ClaimsLast(ms, id) && Claims(ms[0], id) ==> Sequences(ms, id) == []
  {
    hide Sequences;
    SequencesShift(ms, id);
    assert forall i | 0 <= i < |ms[1..]| :: ms[1..][i] == ms[i + 1];
    if HasClaim(ms, id) && !Claims(ms[0], id) {
      var i :| 0 <= i < |ms| && Claims(ms[i], id);
      assert ms[1..][i - 1] == ms[i];
    }
    if HasCompletion(ms, id) && !CompletionOf(ms[0], id) {
      var i :| 0 <= i < |ms| && CompletionOf(ms[i], id);
      assert ms[1..][i - 1] == ms[i];
    }
    if ClaimsLast(ms, id) && Claims(ms[0], id) {
      assert forall j | 0 <= j < |ms| :: !OutputOf(ms[j], id);
      SequencesEmpty(ms, id);
    }
  }

  lemma LogWithout(ms: seq<ClientMessage>, i: nat, id: CommandId, emitted: seq<Chunk>)
    requires i < |ms|
    ensures OutputOf(ms[i], id) ==> Sequences(ms, id) != []
    ensures !OutputOf(ms[i], id) ==> Sequences(Without(ms, i), id) == Sequences(ms, id)
    ensures Genuine(ms, id, emitted) ==> Genuine(Without(ms, i), id, emitted)
    ensures HasClaim(Without(ms, i), id) ==> HasClaim(ms, id)
    ensures HasCompletion(Without(ms, i), id) ==> HasCompletion(ms, id)
    ensures ClaimsLast(ms, id) ==> ClaimsLast(Without(ms, i), id)
  {
    var kept := Without(ms, i);
    assert forall k | 0 <= k < |kept| :: kept[k] == ms[if k < i then k else k + 1];
    if OutputOf(ms[i], id) {
      NoSequences(ms, i, id);
    } else {
      SequencesWithout(ms, i, id);
    }
  }

  lemma LogMarked(ms: seq<ClientMessage>, ids: set<CommandId>, id: CommandId, emitted: seq<Chunk>)
    ensures Sequences(MarkMessages(ms, ids), id) == Sequences(ms, id)
    ensures Genuine(ms, id, emitted) ==> Genuine(MarkMessages(ms, ids), id, emitted)
    ensures HasClaim(MarkMessages(ms, ids), id) <==> HasClaim(ms, id) && id !in ids
    ensures HasCompletion(MarkMessages(ms, ids), id) ==> HasCompletion(ms, id)
    ensures ClaimsLast(ms, id) ==> ClaimsLast(MarkMessages(ms, ids), id)
  {
    var marked := MarkMessages(ms, ids);
    SequencesMarked(ms, ids, id);
    assert forall i | 0 <= i < |ms| :: OutputOf(marked[i], id) == OutputOf(ms[i], id);
    assert forall i | 0 <= i < |ms| :: CompletionOf(marked[i], id) == CompletionOf(ms[i], id);
    assert forall i | 0 <= i < |ms| :: Claims(marked[i], id) <==> Claims(ms[i], id) && id !in ids;
  }

  lemma LogEmpty(id: CommandId, emitted: seq<Chunk>)
    ensures Sequences([], id) == [] && Genuine([], id, emitted)
    ensures !HasClaim([], id) && !HasCompletion([], id) && ClaimsLast([], id)
  {
  }

  /** A log that is genuine for nothing emitted has no outputs; longer histories stay genuine. */
  lemma LogGenuine(ms: seq<ClientMessage>, id: CommandId, emitted: seq<Chunk>, more: seq<Chunk>)
    requires Genuine(ms, id, emitted)
    ensures emitted == [] ==> Sequences(ms, id) == []
    ensures Genuine(ms, id, emitted + more)
  {
    if emitted == [] {
      SequencesEmpty(ms, id);
    }
  }
}
