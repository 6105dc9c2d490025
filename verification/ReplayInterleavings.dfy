/** Delivering a replay twice while closes are under way: what every interleaving of the
    deliveries with those closes has in common. */
module ReplayInterleavings {
  import opened Wire
  import opened Reconnect
  import opened AuthorityProgress
  import opened ReplayDelivery
  import A = Authority
  import B = AuthorityBounds

  // ---------- Remembered closes ----------

  predicate Within(p: seq<SessionId>, q: seq<SessionId>) {
    forall x | x in p :: x in q
  }

  lemma {:induction false} DistinctWithin(p: seq<SessionId>, q: seq<SessionId>)
    requires NoRepeats(p) && Within(p, q)
    ensures |p| <= |q|
    decreases |p|
  {
    if p != [] {
      assert p[0] in p;
      var k :| 0 <= k < |q| && q[k] == p[0];
      var rest := q[..k] + q[k + 1..];
      forall x | x in p[1..]
        ensures x in rest
      {
        var i :| 0 <= i < |p[1..]| && p[1..][i] == x;
        assert p[i + 1] == x && x != p[0] && x in p;
        var j :| 0 <= j < |q| && q[j] == x;
        assert rest[if j < k then j else j - 1] == x;
      }
      assert forall i, j | 0 <= i < j < |p[1..]| :: p[1..][i] == p[i + 1] && p[1..][j] == p[j + 1];
      DistinctWithin(p[1..], rest);
    }
  }

  /** In both lists `x` has the same neighbours before it, as far as the second one still has
      any, and the first one remembers nothing newer that the second one does not. */
  ghost predicate SameAround(a: seq<SessionId>, b: seq<SessionId>, x: SessionId, i: nat, j: nat) {
    && j <= i < |a| && j < |b| && a[i] == x && b[j] == x
    && a[i - j..i] == b[..j]
    && Within(a[i + 1..], b[j + 1..])
  }

  /** The first list forgets `x` no sooner than the second one. */
  ghost predicate Younger(a: seq<SessionId>, b: seq<SessionId>, x: SessionId) {
    && NoRepeats(a) && NoRepeats(b)
    && |a| <= A.REMEMBERED_CLOSED_SESSIONS && |b| <= A.REMEMBERED_CLOSED_SESSIONS
    && (x in b ==> exists i: nat, j: nat :: SameAround(a, b, x, i, j))
  }

  lemma YoungerSelf(a: seq<SessionId>, x: SessionId)
    requires NoRepeats(a) && |a| <= A.REMEMBERED_CLOSED_SESSIONS
    ensures Younger(a, a, x)
  {
    if x in a {
      var i :| 0 <= i < |a| && a[i] == x;
      assert SameAround(a, a, x, i, i);
    }
  }

  lemma NoRepeatsPart(a: seq<SessionId>, n: nat)
    requires NoRepeats(a) && n <= |a|
    ensures NoRepeats(a[n..])
  {
  }

  /** Appending the same, or to the second list only. */
  lemma AroundPush(a: seq<SessionId>, b: seq<SessionId>, x: SessionId, i: nat, j: nat, y: SessionId)
    requires SameAround(a, b, x, i, j)
    ensures SameAround(a, b + [y], x, i, j)
    ensures SameAround(a + [y], b + [y], x, i, j)
    ensures y in b[j + 1..] ==> SameAround(a + [y], b, x, i, j)
  {
    assert (b + [y])[j + 1..] == b[j + 1..] + [y];
    assert (a + [y])[i + 1..] == a[i + 1..] + [y];
    assert (a + [y])[i - j..i] == a[i - j..i] && (b + [y])[..j] == b[..j];
  }

  /** Dropping the oldest of the second list, of the first, or of both. */
  lemma AroundDrop(a: seq<SessionId>, b: seq<SessionId>, x: SessionId, i: nat, j: nat)
    requires SameAround(a, b, x, i, j)
    ensures j > 0 ==> SameAround(a, b[1..], x, i, j - 1)
    ensures j < i ==> SameAround(a[1..], b, x, i - 1, j)
    ensures j > 0 ==> SameAround(a[1..], b[1..], x, i - 1, j - 1)
  {
    if j > 0 {
      assert b[1..][j - 1 + 1..] == b[j + 1..];
      assert b[1..][..j - 1] == b[..j][1..];
      assert a[i - (j - 1)..i] == a[i - j..i][1..];
    }
    if i > 0 {
      assert a[1..][i - 1 + 1..] == a[i + 1..];
    }
    if j < i {
      assert a[1..][i - 1 - j..i - 1] == a[i - j..i];
    }
    if 0 < j {
      assert a[1..][i - 1 - (j - 1)..i - 1] == a[i - (j - 1)..i];
    }
  }

  /** A close that joins one under way is not remembered again. */
  lemma YoungerJoin(a: seq<SessionId>, b: seq<SessionId>, x: SessionId, y: SessionId)
    requires Younger(a, b, x) && x != y
    ensures Younger(a, A.Remember(b, y), x)
  {
    hide SameAround;
    RememberRepeatsNothing(b, y);
    var after := A.Remember(b, y);
    if x in after && y !in b {
      var i: nat, j: nat :| SameAround(a, b, x, i, j);
      AroundPush(a, b, x, i, j, y);
      if |b| == A.REMEMBERED_CLOSED_SESSIONS {
        StillThere(a, b, x, y, i, j);
        AroundDrop(a, b + [y], x, i, j);
        assert SameAround(a, after, x, i, j - 1);
      } else {
        assert SameAround(a, after, x, i, j);
      }
    }
  }

  lemma StillThere(a: seq<SessionId>, b: seq<SessionId>, x: SessionId, y: SessionId, i: nat, j: nat)
    requires SameAround(a, b, x, i, j) && NoRepeats(b) && x != y && x in (b + [y])[1..]
    ensures j > 0
  {
    var k :| 0 <= k < |(b + [y])[1..]| && (b + [y])[1..][k] == x;
    assert (b + [y])[k + 1] == x;
  }

  lemma NewerCount(a: seq<SessionId>, b: seq<SessionId>, x: SessionId, i: nat, j: nat)
    requires SameAround(a, b, x, i, j) && NoRepeats(a)
    ensures |a| - i <= |b| - j
  {
    NoRepeatsPart(a, i + 1);
    DistinctWithin(a[i + 1..], b[j + 1..]);
  }

  lemma YoungerBoth(a: seq<SessionId>, b: seq<SessionId>, x: SessionId, y: SessionId)
    requires Younger(a, b, x) && x != y
    ensures Younger(A.Remember(a, y), A.Remember(b, y), x)
  {
    if y in a {
      YoungerJoin(a, b, x, y);
    } else {
      RememberRepeatsNothing(a, y);
      RememberRepeatsNothing(b, y);
      if x in A.Remember(b, y) {
        var i: nat, j: nat :| SameAround(a, b, x, i, j);
        AroundPush(a, b, x, i, j, y);
        if y in b {
          NewerPush(a, b, x, y, i, j);
        } else {
          BothPush(a, b, x, y, i, j);
        }
      }
    }
  }

  /** The first list remembers what the second one already had. */
  lemma NewerPush(a: seq<SessionId>, b: seq<SessionId>, x: SessionId, y: SessionId, i: nat, j: nat)
    requires Younger(a, b, x) && SameAround(a, b, x, i, j) && y !in a && y in b && x != y
    ensures exists i: nat, j: nat :: SameAround(A.Remember(a, y), b, x, i, j)
  {
    assert y in b[j + 1..] by { NotOlder(a, b, x, y, i, j); }
    AroundPush(a, b, x, i, j, y);
    NoRepeatsLonger(a, y);
    NewerCount(a + [y], b, x, i, j);
    if |a| == A.REMEMBERED_CLOSED_SESSIONS {
      AroundDrop(a + [y], b, x, i, j);
      assert SameAround(A.Remember(a, y), b, x, i - 1, j);
    } else {
      assert SameAround(A.Remember(a, y), b, x, i, j);
    }
  }

  lemma NoRepeatsLonger(a: seq<SessionId>, y: SessionId)
    requires NoRepeats(a) && y !in a
    ensures NoRepeats(a + [y])
  {
  }

  lemma NotOlder(a: seq<SessionId>, b: seq<SessionId>, x: SessionId, y: SessionId, i: nat, j: nat)
    requires SameAround(a, b, x, i, j) && y !in a && y in b && x != y
    ensures y in b[j + 1..]
  {
    var k :| 0 <= k < |b| && b[k] == y;
    assert forall n | 0 <= n < j :: b[n] == b[..j][n] == a[i - j..i][n] == a[i - j + n];
    assert k > j;
    assert b[j + 1..][k - (j + 1)] == y;
  }

  lemma BothPush(a: seq<SessionId>, b: seq<SessionId>, x: SessionId, y: SessionId, i: nat, j: nat)
    requires Younger(a, b, x) && SameAround(a, b, x, i, j) && y !in a && y !in b && x != y && x in A.Remember(b, y)
    ensures exists i: nat, j: nat :: SameAround(A.Remember(a, y), A.Remember(b, y), x, i, j)
  {
    hide SameAround;
    AroundPush(a, b, x, i, j, y);
    NewerCount(a, b, x, i, j);
    if |b| == A.REMEMBERED_CLOSED_SESSIONS {
      StillThere(a, b, x, y, i, j);
    }
    AroundDrop(a + [y], b + [y], x, i, j);
    if |a| == A.REMEMBERED_CLOSED_SESSIONS && |b| == A.REMEMBERED_CLOSED_SESSIONS {
      assert SameAround(A.Remember(a, y), A.Remember(b, y), x, i - 1, j - 1);
    } else if |a| == A.REMEMBERED_CLOSED_SESSIONS {
      assert SameAround(A.Remember(a, y), A.Remember(b, y), x, i - 1, j);
    } else if |b| == A.REMEMBERED_CLOSED_SESSIONS {
      assert SameAround(A.Remember(a, y), A.Remember(b, y), x, i, j - 1);
    } else {
      assert SameAround(A.Remember(a, y), A.Remember(b, y), x, i, j);
    }
  }

  // ---------- Sessions that last ----------

  /** These Sessions are held, and no close under way ends them without stopping the Client. */
  ghost predicate Lasting(s: A.State, kept: set<SessionId>) {
    && kept <= s.sessions.Keys
    && (forall id | id in kept && id in s.closings :: Doomed(s, id))
  }

  predicate Delivering(step: A.Step) {
    Settles(step) || step.ReceiveOpen? || step.ReceiveStart? || step.ReceiveCancel? || step.ReceiveClose?
  }

  lemma RefusedLasts(s: A.State, v: A.State, targets: set<nat>)
    requires B.Later(s.controls, v.controls) && AnyRefused(s, targets)
    ensures AnyRefused(v, targets)
  {
    var k :| k in targets && k < |s.controls| && s.controls[k].cancellation == A.Refused;
    assert B.Evolves(s.controls[k], v.controls[k]);
  }

  /** A doomed close stays so until it stops the Client. */
  lemma DoomLasts(s: A.State, step: A.Step, id: SessionId)
    requires A.Enabled(s, step) && Delivering(step) && Doomed(s, id)
    ensures A.Apply(s, step).stopped || Doomed(A.Apply(s, step), id)
  {
    hide A.Apply, A.Enabled, AnyRefused, B.Later;
    var v := A.Apply(s, step);
    B.StepControls(s, step);
    B.StepPhases(s, step);
    TimersJoin(s, step, id);
    if AnyRefused(s, s.closings[id].targets) {
      RefusedLasts(s, v, s.closings[id].targets);
      RefusedIsUnconfirmed(s, s.closings[id].targets);
    }
  }

  lemma RefusedIsUnconfirmed(s: A.State, targets: set<nat>)
    requires AnyRefused(s, targets)
    ensures !A.AllConfirmed(s, targets)
  {
  }

  /** A close leaves the books only by its end; a timer's close that was not proved stops the Client. */
  lemma TimersJoin(s: A.State, step: A.Step, id: SessionId)
    requires A.Enabled(s, step) && Delivering(step) && id in s.closings && s.closings[id].byTimer
    ensures var v := A.Apply(s, step);
            if id in v.closings then v.closings[id].byTimer
            else A.InPhase(s, id, A.Delivered) || v.stopped
  {
    hide A.OpenSession, A.StartCommand, A.Remember, A.AllSettled, A.AllConfirmed, A.AllFinished, A.TargetsOf, A.CancelAll;
    if step.ReceiveOpen? {
      B.OpenTurn(s, step.open, step.at);
    } else if step.ReceiveStart? {
      B.StartTurn(s, step.start, step.at);
    }
  }

  /** Settling opens nothing, closes nothing anew and remembers nothing. */
  lemma SettlingFrame(s: A.State, step: A.Step)
    requires A.Enabled(s, step) && Settles(step)
    ensures var v := A.Apply(s, step);
            && v.policy == s.policy && v.profileId == s.profileId && v.serials == s.serials && v.closed == s.closed
            && v.sessions.Keys <= s.sessions.Keys && v.closings.Keys <= s.closings.Keys && (s.stopped ==> v.stopped)
            && (forall id | id in s.sessions && id !in v.sessions :: id in s.closings && id !in v.closings)
  {
    hide A.AllSettled, A.AllConfirmed, A.AllFinished;
  }

  lemma LastingSettles(s: A.State, step: A.Step, kept: set<SessionId>)
    requires A.Enabled(s, step) && Settles(step) && Lasting(s, kept)
    ensures A.Apply(s, step).stopped || Lasting(A.Apply(s, step), kept)
  {
    hide A.Apply, A.Enabled, Settles, Doomed;
    var v := A.Apply(s, step);
    SettlingFrame(s, step);
    if !v.stopped {
      forall id | id in kept
        ensures id in v.sessions && (id in v.closings ==> Doomed(v, id))
      {
        if id in s.closings {
          DoomLasts(s, step, id);
          assert id in v.closings by { DoomedCloses(v, id); }
        }
      }
    }
  }

  lemma DoomedCloses(s: A.State, id: SessionId)
    requires Doomed(s, id)
    ensures id in s.closings
  {
  }

  /** Whatever can still end after a settling step could end before it. */
  lemma EndingShrinks(s: A.State, step: A.Step)
    requires A.Enabled(s, step) && Settles(step)
    ensures var v := A.Apply(s, step);
            v.stopped || (Ending(v) <= Ending(s) && forall id | id in s.sessions && id !in v.sessions :: id in Ending(s))
  {
    hide A.Apply, A.Enabled, Settles, Doomed;
    var v := A.Apply(s, step);
    SettlingFrame(s, step);
    if !v.stopped {
      forall id | id in s.closings && Doomed(s, id)
        ensures Doomed(v, id) && id in v.closings
      {
        DoomLasts(s, step, id);
        DoomedCloses(v, id);
      }
    }
  }

  // ---------- A stopped Client ----------

  lemma {:induction false} StoppedOpensNothing(s: A.State, steps: seq<A.Step>, ms: seq<Message>, at: int)
    requires A.IsRun(s, steps) && Delivers(steps, ms, at) && s.stopped
    ensures A.After(s, steps).stopped && A.After(s, steps).serials == s.serials
    decreases |steps|
  {
    hide A.Apply, Settles;
    if steps != [] {
      assert Settles(steps[0]) by { StoppedSettles(s, steps, ms, at); }
      SettlingFrame(s, steps[0]);
      StoppedOpensNothing(A.Apply(s, steps[0]), steps[1..], ms, at);
    }
  }

  lemma StoppedSettles(s: A.State, steps: seq<A.Step>, ms: seq<Message>, at: int)
    requires A.IsRun(s, steps) && Delivers(steps, ms, at) && s.stopped && steps != []
    ensures Settles(steps[0])
  {
  }

  // ---------- The opens of a delivery ----------

  function Wanted(s: A.State, admitted: set<SessionId>): set<SessionId> {
    set x | x in admitted && x !in s.sessions && x !in s.closed
  }

  /** Everything wanted finds room, and nothing whose close is under way can be opened again. */
  predicate Fits(s: A.State, admitted: set<SessionId>) {
    && (Wanted(s, admitted) == {} || |s.sessions.Keys| + |Wanted(s, admitted)| <= s.policy.maxConcurrentSessions)
    && (forall x | x in admitted && x in Ending(s) :: x in s.closed)
  }

  /** From `s` to `v` at least as many Sessions were opened as there was room for, and they last. */
  ghost predicate TakesRoom(s: A.State, v: A.State, kept: set<SessionId>, taken: set<SessionId>, admitted: set<SessionId>) {
    && v.policy == s.policy && v.profileId == s.profileId && v.closed == s.closed
    && v.closings.Keys <= s.closings.Keys
    && Lasting(v, kept + taken) && taken !! kept && taken <= admitted
    && |taken| >= Min(|Wanted(s, admitted)|, Room(s.policy, s.sessions.Keys))
    && (Fits(s, admitted) ==> Wanted(s, admitted) <= taken)
  }

  lemma TakesSettling(s: A.State, step: A.Step, v: A.State, kept: set<SessionId>, taken: set<SessionId>, admitted: set<SessionId>)
    requires A.Enabled(s, step) && Settles(step) && !A.Apply(s, step).stopped
    requires TakesRoom(A.Apply(s, step), v, kept, taken, admitted)
    ensures TakesRoom(s, v, kept, taken, admitted)
  {
    hide A.Apply, A.Enabled, Settles, Lasting, Ending;
    var u := A.Apply(s, step);
    SettlingFrame(s, step);
    EndingShrinks(s, step);
    SubsetSize(u.sessions.Keys, s.sessions.Keys);
    SubsetSize(Wanted(s, admitted), Wanted(u, admitted));
    if Fits(s, admitted) {
      assert Wanted(u, admitted) == Wanted(s, admitted);
    }
  }

  lemma OpensState(s: A.State, m: A.OpenMessage, at: int)
    ensures var v := A.OpenSession(s, m, A.Readings(at, at, at));
            && v.policy == s.policy && v.profileId == s.profileId && v.closed == s.closed && v.closings == s.closings
            && v.controls == s.controls && v.stopped == s.stopped
            && (if MayOpen(s, m, at) then v.sessions.Keys == s.sessions.Keys + {m.sessionId} && v.serials == s.serials + 1
                else v.sessions == s.sessions && v.serials == s.serials)
  {
    hide A.OpenSession, MayOpen;
    B.OpenTurn(s, m, A.Readings(at, at, at));
    OpensExactly(s, m, at);
  }

  lemma WantedOpened(s: A.State, u: A.State, x: SessionId, rest: set<SessionId>)
    requires u.policy == s.policy && u.closed == s.closed && u.closings == s.closings && u.controls == s.controls
    requires u.sessions.Keys == s.sessions.Keys + {x} && x !in s.sessions && x !in s.closed && x !in s.closings
    ensures Wanted(s, rest + {x}) == Wanted(u, rest) + {x}
    ensures |Wanted(s, rest + {x})| == |Wanted(u, rest)| + 1 && |u.sessions.Keys| == |s.sessions.Keys| + 1
    ensures Fits(s, rest + {x}) ==> Fits(u, rest)
  {
    assert Wanted(s, rest + {x}) == Wanted(u, rest) + {x} && x !in Wanted(u, rest);
    assert Ending(u) == Ending(s) by { SameEnding(s, u); }
  }

  lemma SameEnding(s: A.State, u: A.State)
    requires u.closings == s.closings && u.controls == s.controls
    requires forall id | id in s.closings :: id in u.sessions <==> id in s.sessions
    ensures Ending(u) == Ending(s)
  {
    assert forall id :: Doomed(u, id) == Doomed(s, id);
  }

  lemma TakesOpened(s: A.State, u: A.State, v: A.State, kept: set<SessionId>, taken: set<SessionId>, x: SessionId, rest: set<SessionId>)
    requires u.policy == s.policy && u.profileId == s.profileId && u.closed == s.closed && u.closings == s.closings && u.controls == s.controls
    requires u.sessions.Keys == s.sessions.Keys + {x} && x !in s.sessions && x !in s.closed && x !in s.closings && x !in kept
    requires TakesRoom(u, v, kept + {x}, taken, rest)
    ensures TakesRoom(s, v, kept, taken + {x}, rest + {x})
  {
    hide Lasting, Wanted, Fits;
    WantedOpened(s, u, x, rest);
    TakenOneMore(kept, taken, x);
    assert taken + {x} <= rest + {x};
  }

  lemma TakenOneMore(kept: set<SessionId>, taken: set<SessionId>, x: SessionId)
    requires taken !! (kept + {x}) && x !in kept
    ensures kept + (taken + {x}) == kept + {x} + taken && taken + {x} !! kept && |taken + {x}| == |taken| + 1
  {
  }

  lemma TakesRefused(s: A.State, v: A.State, kept: set<SessionId>, taken: set<SessionId>, x: SessionId, rest: set<SessionId>)
    requires TakesRoom(s, v, kept, taken, rest)
    requires x in s.sessions || x in s.closed || |s.sessions.Keys| >= s.policy.maxConcurrentSessions
    ensures TakesRoom(s, v, kept, taken, rest + {x})
  {
    hide Lasting;
    if x in s.sessions || x in s.closed {
      assert Wanted(s, rest + {x}) == Wanted(s, rest);
    } else {
      assert x in Wanted(s, rest + {x});
    }
  }

  lemma OpenLasts(s: A.State, u: A.State, kept: set<SessionId>, x: SessionId)
    requires Lasting(s, kept) && u.sessions.Keys == s.sessions.Keys + {x} && u.closings == s.closings && u.controls == s.controls
    requires x !in s.sessions && x !in s.closings
    ensures Lasting(u, kept + {x}) && x !in kept
  {
    assert forall id :: Doomed(u, id) == Doomed(s, id);
  }

  /** Whatever a list opens is opened as far as there is room, whichever closes end meanwhile. */
  lemma {:induction false} OpensTakeRoom(s: A.State, steps: seq<A.Step>, o: seq<Message>, at: int, kept: set<SessionId>)
    returns (taken: set<SessionId>)
    requires Attended(s) && A.IsRun(s, steps) && Delivers(steps, o, at) && Lasting(s, kept)
    requires forall m | m in o :: m.Open?
    ensures A.After(s, steps).stopped
            || TakesRoom(s, A.After(s, steps), kept, taken, Admitted(s.policy, s.profileId, o, at))
    decreases |steps|, 1
  {
    hide A.Apply, A.Enabled, Settles, StepOf, Attended, TakesRoom, Lasting, Admissible, Admitted;
    taken := {};
    if steps == [] {
      NothingAdmitted(s.policy, s.profileId, at);
      TakesNothingYet(s, kept);
    } else {
      var u := A.Apply(s, steps[0]);
      StepKeepsAttended(s, steps[0]);
      if Settles(steps[0]) {
        if u.stopped {
          StoppedOpensNothing(u, steps[1..], o, at);
        } else {
          LastingSettles(s, steps[0], kept);
          SettlingFrame(s, steps[0]);
          taken := OpensTakeRoom(u, steps[1..], o, at, kept);
          if !A.After(s, steps).stopped {
            TakesSettling(s, steps[0], A.After(s, steps), kept, taken, Admitted(s.policy, s.profileId, o, at));
          }
        }
      } else {
        taken := OpenTakesRoom(s, steps, o, at, kept);
      }
    }
  }

  lemma TakesNothingYet(s: A.State, kept: set<SessionId>)
    requires Lasting(s, kept)
    ensures TakesRoom(s, s, kept, {}, {})
  {
    assert kept + {} == kept;
    assert Wanted(s, {}) == {};
  }

  /** The first step receives an open. */
  lemma {:induction false} OpenTakesRoom(s: A.State, steps: seq<A.Step>, o: seq<Message>, at: int, kept: set<SessionId>)
    returns (taken: set<SessionId>)
    requires Attended(s) && A.IsRun(s, steps) && Delivers(steps, o, at) && Lasting(s, kept)
    requires (forall m | m in o :: m.Open?) && steps != [] && !Settles(steps[0])
    ensures A.After(s, steps).stopped
            || TakesRoom(s, A.After(s, steps), kept, taken, Admitted(s.policy, s.profileId, o, at))
    decreases |steps|, 0
  {
    hide Settles, Attended, TakesRoom, Lasting, Admissible, Admitted, A.Apply, A.Enabled, StepOf;
    var (m, rest) := (o[0], o[1..]);
    var open := OpenMessageOf(m.sessionId, m.contract, m.serverTime);
    var (u, v) := (A.Apply(s, steps[0]), A.After(s, steps));
    assert m in o;
    OpenStep(s, m, at);
    StepKeepsAttended(s, steps[0]);
    AdmittedFirst(s.policy, s.profileId, o, at);
    var admitted := Admitted(s.policy, s.profileId, rest, at);
    if MayOpen(s, open, at) {
      NotUnderWay(s, m.sessionId);
      OpenLasts(s, u, kept, m.sessionId);
      taken := OpensTakeRoom(u, steps[1..], rest, at, kept + {m.sessionId});
      if !v.stopped {
        TakesOpened(s, u, v, kept, taken, m.sessionId, admitted);
        taken := taken + {m.sessionId};
      }
    } else {
      SameLasting(s, u, kept);
      taken := OpensTakeRoom(u, steps[1..], rest, at, kept);
      if !v.stopped {
        SameTakes(s, u, v, kept, taken, admitted);
        assert admitted + {} == admitted;
        if Admissible(s.policy, s.profileId, open, at) {
          TakesRefused(s, v, kept, taken, m.sessionId, admitted);
        }
      }
    }
  }

  lemma OpenStep(s: A.State, m: Message, at: int)
    requires A.Enabled(s, StepOf(m, at)) && m.Open?
    ensures !s.stopped && s.task == A.Idle
    ensures var (v, open) := (A.Apply(s, StepOf(m, at)), OpenMessageOf(m.sessionId, m.contract, m.serverTime));
            && v.policy == s.policy && v.profileId == s.profileId && v.closed == s.closed && v.closings == s.closings
            && v.controls == s.controls && v.stopped == s.stopped
            && (if MayOpen(s, open, at) then v.sessions.Keys == s.sessions.Keys + {m.sessionId} && v.serials == s.serials + 1
                else v.sessions == s.sessions && v.serials == s.serials)
  {
    hide A.OpenSession, MayOpen;
    OpensState(s, OpenMessageOf(m.sessionId, m.contract, m.serverTime), at);
  }

  /** While messages are handled a Session that is not held has no close under way. */
  lemma NotUnderWay(s: A.State, id: SessionId)
    requires Attended(s) && !s.stopped && s.task == A.Idle && id !in s.sessions
    ensures id !in s.closings
  {
  }

  lemma SameLasting(s: A.State, u: A.State, kept: set<SessionId>)
    requires Lasting(s, kept) && u.sessions == s.sessions && u.closings == s.closings && u.controls == s.controls
    ensures Lasting(u, kept)
  {
    assert forall id :: Doomed(u, id) == Doomed(s, id);
  }

  lemma SameTakes(s: A.State, u: A.State, v: A.State, kept: set<SessionId>, taken: set<SessionId>, admitted: set<SessionId>)
    requires TakesRoom(u, v, kept, taken, admitted)
    requires u.policy == s.policy && u.profileId == s.profileId && u.closed == s.closed
    requires u.sessions == s.sessions && u.closings == s.closings && u.controls == s.controls
    ensures TakesRoom(s, v, kept, taken, admitted)
  {
    hide Lasting;
    SameEnding(s, u);
  }

  /** Nothing of the list can be opened: there is no room for it, it is held, or its close is
      remembered. */
  ghost predicate Barred(s: A.State, kept: set<SessionId>, admitted: set<SessionId>) {
    && Lasting(s, kept)
    && (|kept| >= s.policy.maxConcurrentSessions || forall x | x in admitted :: x in kept || x in s.closed)
  }

  lemma BarredOpensNothing(s: A.State, m: A.OpenMessage, at: int, kept: set<SessionId>, admitted: set<SessionId>)
    requires Barred(s, kept, admitted) && (Admissible(s.policy, s.profileId, m, at) ==> m.sessionId in admitted)
    ensures !MayOpen(s, m, at)
  {
    hide Admissible;
    SubsetSize(kept, s.sessions.Keys);
  }

  lemma {:induction false} OpensNothing(s: A.State, steps: seq<A.Step>, o: seq<Message>, at: int, kept: set<SessionId>, admitted: set<SessionId>)
    requires A.IsRun(s, steps) && Delivers(steps, o, at) && (forall m | m in o :: m.Open?)
    requires Barred(s, kept, admitted) && Admitted(s.policy, s.profileId, o, at) <= admitted
    ensures A.After(s, steps).serials == s.serials
    decreases |steps|
  {
    hide Settles, Admissible, Admitted, Lasting, A.OpenSession;
    if steps != [] {
      var u := A.Apply(s, steps[0]);
      if Settles(steps[0]) {
        SettlingFrame(s, steps[0]);
        LastingSettles(s, steps[0], kept);
        if u.stopped {
          StoppedOpensNothing(u, steps[1..], o, at);
        } else {
          OpensNothing(u, steps[1..], o, at, kept, admitted);
        }
      } else {
        var (m, rest) := (o[0], o[1..]);
        assert m in o;
        AdmittedFirst(s.policy, s.profileId, o, at);
        BarredOpensNothing(s, OpenMessageOf(m.sessionId, m.contract, m.serverTime), at, kept, admitted);
        OpensState(s, OpenMessageOf(m.sessionId, m.contract, m.serverTime), at);
        SameLasting(s, u, kept);
        OpensNothing(u, steps[1..], rest, at, kept, admitted);
      }
    }
  }

  // ---------- The rest of a delivery ----------

  /** A message that opens nothing. */
  lemma MessageFrame(s: A.State, m: Message, at: int)
    requires A.Enabled(s, StepOf(m, at)) && !m.Open?
    ensures var v := A.Apply(s, StepOf(m, at));
            && v.policy == s.policy && v.profileId == s.profileId && v.serials == s.serials && v.sessions.Keys == s.sessions.Keys
            && v.closings.Keys == s.closings.Keys + (if m.Close? then {m.sessionId} else {})
            && v.closed == (if m.Close? && m.sessionId !in s.closings then A.Remember(s.closed, m.sessionId) else s.closed)
  {
    hide A.StartCommand, A.Remember, A.TargetsOf, A.CancelAll;
    if m.Start? {
      B.StartTurn(s, A.StartMessage(m.commandId, m.sessionId, m.timeoutSeconds, m.maxOutputBytes), A.Readings(at, at, at));
    }
  }

  lemma LastingMessage(s: A.State, m: Message, at: int, kept: set<SessionId>)
    requires A.Enabled(s, StepOf(m, at)) && !m.Open? && Lasting(s, kept) && (m.Close? ==> m.sessionId !in kept)
    ensures A.Apply(s, StepOf(m, at)).stopped || Lasting(A.Apply(s, StepOf(m, at)), kept)
  {
    hide A.Apply, A.Enabled, Doomed;
    var v := A.Apply(s, StepOf(m, at));
    MessageFrame(s, m, at);
    forall id | id in kept && id in v.closings
      ensures v.stopped || Doomed(v, id)
    {
      DoomLasts(s, StepOf(m, at), id);
    }
  }

  lemma {:induction false} RestLasts(s: A.State, steps: seq<A.Step>, r: seq<Message>, at: int, kept: set<SessionId>)
    requires A.IsRun(s, steps) && Delivers(steps, r, at) && (forall m | m in r :: !m.Open?)
    requires Lasting(s, kept) && kept !! Ended(r)
    ensures var v := A.After(s, steps);
            && v.policy == s.policy && v.profileId == s.profileId && v.serials == s.serials
            && (v.stopped || Lasting(v, kept))
    decreases |steps|
  {
    hide A.Apply, A.Enabled, Settles, StepOf, Lasting, Ended;
    if steps != [] {
      var u := A.Apply(s, steps[0]);
      if Settles(steps[0]) {
        SettlingFrame(s, steps[0]);
        LastingSettles(s, steps[0], kept);
        if u.stopped {
          StoppedRest(u, steps[1..], r, at);
        } else {
          RestLasts(u, steps[1..], r, at, kept);
        }
      } else {
        var (m, rest) := (r[0], r[1..]);
        assert m in r;
        EndedFirst(r);
        MessageFrame(s, m, at);
        LastingMessage(s, m, at, kept);
        if u.stopped {
          StoppedRest(u, steps[1..], rest, at);
        } else {
          RestLasts(u, steps[1..], rest, at, kept);
        }
      }
    }
  }

  lemma {:induction false} StoppedRest(s: A.State, steps: seq<A.Step>, ms: seq<Message>, at: int)
    requires A.IsRun(s, steps) && Delivers(steps, ms, at) && s.stopped
    ensures var v := A.After(s, steps);
            v.stopped && v.policy == s.policy && v.profileId == s.profileId && v.serials == s.serials && v.closed == s.closed && ms == []
    decreases |steps|
  {
    hide A.Apply, Settles;
    if steps != [] {
      assert Settles(steps[0]) by { StoppedSettles(s, steps, ms, at); }
      SettlingFrame(s, steps[0]);
      StoppedRest(A.Apply(s, steps[0]), steps[1..], ms, at);
    }
  }

  /** A close that would be remembered had all closes of the list begun anew is remembered. */
  lemma {:induction false} RestRemembers(s: A.State, steps: seq<A.Step>, r: seq<Message>, at: int, x: SessionId, closed: seq<SessionId>)
    requires A.IsRun(s, steps) && Delivers(steps, r, at) && (forall m | m in r :: !m.Open?)
    requires Younger(s.closed, closed, x) && x !in Ended(r)
    ensures x in Remembered(closed, r) ==> x in A.After(s, steps).closed
    decreases |steps|
  {
    hide A.Apply, A.Enabled, Settles, StepOf, Younger, Ended, A.Remember;
    if steps == [] {
      if x in closed {
        YoungerHas(s.closed, closed, x);
      }
    } else {
      var u := A.Apply(s, steps[0]);
      if Settles(steps[0]) {
        SettlingFrame(s, steps[0]);
        RestRemembers(u, steps[1..], r, at, x, closed);
      } else {
        var (m, rest) := (r[0], r[1..]);
        assert m in r;
        EndedFirst(r);
        MessageFrame(s, m, at);
        if m.Close? {
          YoungerBoth(s.closed, closed, x, m.sessionId);
          YoungerJoin(s.closed, closed, x, m.sessionId);
        }
        RestRemembers(u, steps[1..], rest, at, x, if m.Close? then A.Remember(closed, m.sessionId) else closed);
      }
    }
  }

  lemma YoungerHas(a: seq<SessionId>, b: seq<SessionId>, x: SessionId)
    requires Younger(a, b, x) && x in b
    ensures x in a
  {
    var i: nat, j: nat :| SameAround(a, b, x, i, j);
  }

  // ---------- A whole delivery ----------

  lemma {:induction false} SplitDelivery(s: A.State, steps: seq<A.Step>, o: seq<Message>, r: seq<Message>, at: int) returns (n: nat)
    requires A.IsRun(s, steps) && Delivers(steps, o + r, at)
    ensures n <= |steps| && Delivers(steps[..n], o, at) && Delivers(steps[n..], r, at)
    ensures A.IsRun(s, steps[..n]) && A.IsRun(A.After(s, steps[..n]), steps[n..])
    ensures A.After(A.After(s, steps[..n]), steps[n..]) == A.After(s, steps)
    decreases |steps|
  {
    hide A.Apply, A.Enabled, StepOf, Settles;
    if o == [] {
      n := 0;
      assert o + r == r && steps[..0] == [] && steps[0..] == steps;
    } else {
      var m := SplitDelivery(A.Apply(s, steps[0]), steps[1..], if Settles(steps[0]) then o else o[1..], r, at) by {
        assert (o + r)[0] == o[0] && (o + r)[1..] == o[1..] + r;
      }
      n := m + 1;
      assert steps[..n][0] == steps[0] && steps[..n][1..] == steps[1..][..m];
      assert steps[n..] == steps[1..][m..];
    }
  }

  // ---------- A list that waits for a doomed close ----------

  lemma AwaitsStep(s: A.State, step: A.Step, d: SessionId)
    requires A.Enabled(s, step) && Delivering(step) && s.task == A.AwaitClose(d) && Doomed(s, d)
    ensures Settles(step)
    ensures var v := A.Apply(s, step);
            v.stopped || (v.task == A.AwaitClose(d) && Doomed(v, d))
  {
    hide A.AllSettled, A.AllConfirmed, A.AllFinished, Doomed, AnyRefused;
    DoomLasts(s, step, d);
    assert step == A.CloseEnds(d) ==> d !in A.Apply(s, step).closings;
    if !A.Apply(s, step).stopped {
      DoomedCloses(A.Apply(s, step), d);
    }
  }

  lemma {:induction false} AwaitsDoom(s: A.State, steps: seq<A.Step>, ms: seq<Message>, at: int, d: SessionId)
    requires A.IsRun(s, steps) && Delivers(steps, ms, at)
    requires s.stopped || (s.task == A.AwaitClose(d) && Doomed(s, d))
    ensures var v := A.After(s, steps);
            v.serials == s.serials && (v.stopped || (v.task == A.AwaitClose(d) && Doomed(v, d)))
    decreases |steps|
  {
    hide A.Apply, A.Enabled, Settles, Doomed;
    if s.stopped {
      StoppedOpensNothing(s, steps, ms, at);
    } else if steps != [] {
      StepIsDelivering(steps, ms, at);
      AwaitsStep(s, steps[0], d);
      SettlingFrame(s, steps[0]);
      AwaitsDoom(A.Apply(s, steps[0]), steps[1..], ms, at, d);
    }
  }

  lemma StepIsDelivering(steps: seq<A.Step>, ms: seq<Message>, at: int)
    requires Delivers(steps, ms, at) && steps != []
    ensures Delivering(steps[0])
  {
  }

  lemma {:induction false} WaitsForDoom(s: A.State, steps: seq<A.Step>, ms: seq<Message>, at: int, d: SessionId)
    requires A.IsRun(s, steps) && Delivers(steps, ms, at) && d in Ended(ms)
    requires s.stopped || Doomed(s, d)
    ensures var v := A.After(s, steps);
            v.stopped || (v.task == A.AwaitClose(d) && Doomed(v, d))
    decreases |steps|
  {
    hide A.Apply, A.Enabled, Settles, Doomed, Ended;
    if s.stopped {
      StoppedOpensNothing(s, steps, ms, at);
    } else if steps == [] {
      NothingEnded();
    } else {
      var u := A.Apply(s, steps[0]);
      StepIsDelivering(steps, ms, at);
      DoomLasts(s, steps[0], d);
      if Settles(steps[0]) {
        WaitsForDoom(u, steps[1..], ms, at, d);
      } else {
        EndedFirst(ms);
        if ms[0].Close? && ms[0].sessionId == d {
          assert u.task == A.AwaitClose(d) by { CloseAwaits(s, d); }
          AwaitsDoom(u, steps[1..], ms[1..], at, d);
        } else {
          WaitsForDoom(u, steps[1..], ms[1..], at, d);
        }
      }
    }
  }

  lemma CloseAwaits(s: A.State, d: SessionId)
    requires A.Enabled(s, A.ReceiveClose(d))
    ensures A.Apply(s, A.ReceiveClose(d)).task == A.AwaitClose(d)
  {
  }

  // ---------- The theorem ----------

  /** The Sessions that neither the list nor a close under way ends. */
  function Kept(s: A.State, ended: set<SessionId>): set<SessionId> {
    s.sessions.Keys - ended - Ending(s)
  }

  lemma KeptLasts(s: A.State, ended: set<SessionId>)
    ensures Lasting(s, Kept(s, ended))
  {
  }

  /** After the first delivery everything the list opens is barred, if the Client was settled. */
  lemma SettledBars(s: A.State, v: A.State, u: A.State, taken: set<SessionId>, admitted: set<SessionId>, ended: set<SessionId>,
                    remembered: seq<SessionId>)
    requires Settled(s.policy, BooksOf(s), Ending(s), admitted, ended, remembered) && admitted !! ended
    requires TakesRoom(s, v, Kept(s, ended), taken, admitted)
    requires Lasting(u, Kept(s, ended) + taken) && u.policy == s.policy
    requires forall x | x in remembered :: x in s.closed || x in ended
    requires forall x | x in admitted && x in remembered :: x in u.closed
    ensures Barred(u, Kept(s, ended) + taken, admitted)
  {
    hide Lasting, Settled, Fits, Ending;
    var kept := Kept(s, ended);
    var wanted := Wanted(s, admitted);
    assert |kept + taken| == |kept| + |taken| by { DisjointSize(kept, taken); }
    if |kept + taken| < s.policy.maxConcurrentSessions {
      SettledFits(s, admitted, ended, remembered);
      forall x | x in admitted
        ensures x in kept + taken || x in u.closed
      {
        if x in wanted {
          assert x in taken;
        } else if x !in kept {
          assert x in remembered;
        }
      }
    }
  }

  lemma DisjointSize(a: set<SessionId>, b: set<SessionId>)
    requires a !! b
    ensures |a + b| == |a| + |b|
  {
  }

  lemma SettledFits(s: A.State, admitted: set<SessionId>, ended: set<SessionId>, remembered: seq<SessionId>)
    requires Settled(s.policy, BooksOf(s), Ending(s), admitted, ended, remembered) && admitted !! ended
    requires |Kept(s, ended)| + Min(|Wanted(s, admitted)|, Room(s.policy, s.sessions.Keys)) < s.policy.maxConcurrentSessions
    requires forall x | x in remembered :: x in s.closed || x in ended
    ensures Fits(s, admitted)
    ensures forall x | x in admitted && x !in Wanted(s, admitted) && (x !in s.sessions || x in Ending(s)) :: x in remembered
  {
    var wanted := Wanted(s, admitted);
    assert wanted == set x | x in admitted && x !in BooksOf(s).held && x !in BooksOf(s).closed;
    forall x | x in admitted && x in Ending(s)
      ensures x in s.closed
    {
      assert x !in wanted && x in remembered;
    }
    if wanted != {} {
      assert |wanted| > 0;
    }
  }

  lemma SteadyOpensNothing(s: A.State, o: seq<Message>, r: seq<Message>, at: int, first: seq<A.Step>, second: seq<A.Step>)
    requires Attended(s) && (forall m | m in o :: m.Open?) && (forall m | m in r :: !m.Open?)
    requires Admitted(s.policy, s.profileId, o, at) !! Ended(r)
    requires A.IsRun(s, first) && Delivers(first, o + r, at)
    requires A.IsRun(A.After(s, first), second) && Delivers(second, o + r, at)
    requires Settled(s.policy, BooksOf(s), Ending(s), Admitted(s.policy, s.profileId, o, at), Ended(r), Remembered(s.closed, r))
    ensures A.After(A.After(s, first), second).serials == A.After(s, first).serials
  {
    hide A.IsRun, A.After, Delivers, Admitted, Ended, Settled, Lasting, Attended, Barred, TakesRoom, Remembered, Younger;
    var (admitted, kept) := (Admitted(s.policy, s.profileId, o, at), Kept(s, Ended(r)));
    var n := SplitDelivery(s, first, o, r, at);
    var v := A.After(s, first[..n]);
    KeptLasts(s, Ended(r));
    var taken := OpensTakeRoom(s, first[..n], o, at, kept);
    var u := A.After(s, first);
    var k := SplitDelivery(u, second, o, r, at);
    var w := A.After(u, second[..k]);
    if v.stopped {
      StoppedRest(v, first[n..], r, at);
      StoppedOpensNothing(u, second, o + r, at);
    } else {
      TakesFacts(s, v, kept, taken, admitted);
      RestLasts(v, first[n..], r, at, kept + taken);
      if u.stopped {
        StoppedOpensNothing(u, second, o + r, at);
      } else {
        forall x | x in admitted && x in Remembered(s.closed, r)
          ensures x in u.closed
        {
          assert Younger(v.closed, s.closed, x) by { AttendedYounger(s, x); }
          RestRemembers(v, first[n..], r, at, x, s.closed);
        }
        RememberedAre(s.closed, r);
        SettledBars(s, v, u, taken, admitted, Ended(r), Remembered(s.closed, r));
        OpensNothing(u, second[..k], o, at, kept + taken, admitted);
        RestOpensNothing(w, second[k..], r, at);
      }
    }
  }

  lemma TakesFacts(s: A.State, v: A.State, kept: set<SessionId>, taken: set<SessionId>, admitted: set<SessionId>)
    requires TakesRoom(s, v, kept, taken, admitted)
    ensures Lasting(v, kept + taken) && taken <= admitted && v.closed == s.closed && v.policy == s.policy && v.profileId == s.profileId
  {
  }

  lemma AttendedYounger(s: A.State, x: SessionId)
    requires Attended(s)
    ensures Younger(s.closed, s.closed, x)
  {
    YoungerSelf(s.closed, x);
  }

  lemma {:induction false} RestOpensNothing(s: A.State, steps: seq<A.Step>, r: seq<Message>, at: int)
    requires A.IsRun(s, steps) && Delivers(steps, r, at) && (forall m | m in r :: !m.Open?)
    ensures A.After(s, steps).serials == s.serials
  {
    hide Lasting;
    assert Lasting(s, {}) by { NothingLasts(s); }
    RestLasts(s, steps, r, at, {});
  }

  lemma NothingLasts(s: A.State)
    ensures Lasting(s, {})
  {
  }

  /** A replay is delivered twice at the same instant, to a Client in any reachable state, each
      time in any interleaving with the closes and cancellations it begins and with those
      under way.  The second delivery never executes a Command; and if the Client was steady
      for the list, it opens no Session either. */
  lemma ReplayTwice(s: A.State, sessions: seq<Session>, commands: seq<Command>, now: A.Timestamp, at: int,
                    first: seq<A.Step>, second: seq<A.Step>)
    requires A.Reachable(s) && forall i, j | 0 <= i < j < |sessions| :: sessions[i].id != sessions[j].id
    requires A.IsRun(s, first) && Delivers(first, Replay(sessions, commands, now), at)
    requires A.IsRun(A.After(s, first), second) && Delivers(second, Replay(sessions, commands, now), at)
    ensures var (v, u) := (A.After(s, first), A.After(A.After(s, first), second));
            && |u.controls| == |v.controls|
            && (Steady(s, Replay(sessions, commands, now), at) ==> u.serials == v.serials)
  {
    hide A.IsRun, A.After, A.Reachable, Attended, Admitted, Ended, Remembered, Settled, Replay, Delivers, Doomed;
    var ms := Replay(sessions, commands, now);
    SecondExecutesNothing(s, ms, at, first, second);
    if exists d | d in Ended(ms) :: Doomed(s, d) {
      var d :| d in Ended(ms) && Doomed(s, d);
      WaitsForDoom(s, first, ms, at, d);
      AwaitsDoom(A.After(s, first), second, ms, at, d);
    } else if Steady(s, ms, at) {
      var (o, r) := (Opens(sessions, now), Starts(sessions, commands) + Cancels(commands) + Closes(sessions, now));
      ReplayParts(s.policy, s.profileId, sessions, commands, now, at);
      ListParts(s.policy, s.profileId, s.closed, o, r, at);
      ReachableAttended(s);
      SteadyOpensNothing(s, o, r, at, first, second);
    }
  }
}
