/** The rate limiter as the Server holds it (apps/server/src/control.ts): a map of windows
    and a binary min-heap of their expiry times whose sifts move a hole. */
module RateLimiter {
  import opened Wire
  import opened RateWindows

  datatype Expiration = Expiration(key: Key, resetsAt: int)

  // ---------- Heaps ----------

  function Parent(i: nat): nat
    requires i > 0
  {
    (i - 1) / 2
  }

  ghost predicate IsHeap(e: seq<Expiration>) {
    forall i | 0 < i < |e| :: e[Parent(i)].resetsAt <= e[i].resetsAt
  }

  /** A heap except that the entry at `hole` may be smaller than its parent. */
  ghost predicate HeapAbove(e: seq<Expiration>, hole: nat)
    requires hole < |e|
  {
    && (forall i | 0 < i < |e| && i != hole :: e[Parent(i)].resetsAt <= e[i].resetsAt)
    && (forall i | 0 < i < |e| && hole > 0 && Parent(i) == hole :: e[Parent(hole)].resetsAt <= e[i].resetsAt)
  }

  /** A heap except that the entry at `hole` may be larger than its children. */
  ghost predicate HeapBelow(e: seq<Expiration>, hole: nat)
    requires hole < |e|
  {
    && (forall i | 0 < i < |e| && Parent(i) != hole :: e[Parent(i)].resetsAt <= e[i].resetsAt)
    && (forall i | 0 < i < |e| && hole > 0 && Parent(i) == hole :: e[Parent(hole)].resetsAt <= e[i].resetsAt)
  }

  lemma {:induction false} RootIsLeast(e: seq<Expiration>, i: nat)
    requires IsHeap(e) && i < |e|
    ensures e[0].resetsAt <= e[i].resetsAt
  {
    if i > 0 {
      RootIsLeast(e, Parent(i));
    }
  }

  /** The entries once the hole has moved from `hole` to `other`. */
  function Swapped(e: seq<Expiration>, hole: nat, other: nat): (r: seq<Expiration>)
    requires hole < |e| && other < |e|
    ensures |r| == |e|
  {
    e[hole := e[other]][other := e[hole]]
  }

  lemma MoveHole(e: seq<Expiration>, hole: nat, other: nat, x: Expiration)
    requires hole < |e| && other < |e| && hole != other
    ensures Swapped(e[hole := x], hole, other) == e[hole := e[other]][other := x]
    ensures multiset(Swapped(e[hole := x], hole, other)) == multiset(e[hole := x])
  {
  }

  /** Swapping the hole's entry with a larger parent moves the hole up. */
  lemma Rise(e: seq<Expiration>, hole: nat)
    requires 0 < hole < |e| && HeapAbove(e, hole)
    requires e[Parent(hole)].resetsAt >= e[hole].resetsAt
    ensures HeapAbove(Swapped(e, hole, Parent(hole)), Parent(hole))
  {
    var parent := Parent(hole);
    var risen := Swapped(e, hole, parent);
    assert forall i | 0 <= i < |e| && i != hole && i != parent :: risen[i] == e[i];
    forall i | 0 < i < |e| && i != parent
      ensures risen[Parent(i)].resetsAt <= risen[i].resetsAt
    {
      assert Parent(i) == hole ==> e[parent].resetsAt <= e[i].resetsAt;
    }
    forall i | 0 < i < |e| && parent > 0 && Parent(i) == parent
      ensures risen[Parent(parent)].resetsAt <= risen[i].resetsAt
    {
      assert e[Parent(parent)].resetsAt <= e[parent].resetsAt;
    }
  }

  lemma Risen(e: seq<Expiration>, hole: nat)
    requires hole < |e| && HeapAbove(e, hole)
    requires hole > 0 ==> e[Parent(hole)].resetsAt <= e[hole].resetsAt
    ensures IsHeap(e)
  {
  }

  lemma Appended(e: seq<Expiration>, x: Expiration)
    requires IsHeap(e)
    ensures HeapAbove(e + [x], |e|)
  {
  }

  /** The smaller child of `hole`. */
  ghost predicate SmallerChild(e: seq<Expiration>, hole: nat, child: nat) {
    && child < |e| && 0 < child && Parent(child) == hole
    && (forall i | 0 < i < |e| && Parent(i) == hole :: e[child].resetsAt <= e[i].resetsAt)
  }

  /** Swapping the hole's entry with a smaller child that is smaller still moves the hole down. */
  lemma Sink(e: seq<Expiration>, hole: nat, child: nat)
    requires hole < |e| && HeapBelow(e, hole) && SmallerChild(e, hole, child)
    requires e[child].resetsAt <= e[hole].resetsAt
    ensures HeapBelow(Swapped(e, hole, child), child)
  {
  }

  lemma Sunk(e: seq<Expiration>, hole: nat, child: nat)
    requires hole < |e| && HeapBelow(e, hole) && SmallerChild(e, hole, child)
    requires e[hole].resetsAt <= e[child].resetsAt
    ensures IsHeap(e)
  {
  }

  lemma SunkToLeaf(e: seq<Expiration>, hole: nat)
    requires hole < |e| <= hole * 2 + 1 && HeapBelow(e, hole)
    ensures IsHeap(e)
  {
  }

  /** The entries a map of windows asks for. */
  function Entries(windows: Windows): set<Expiration> {
    set key | key in windows :: Expiration(key, windows[key].resetsAt)
  }

  lemma EntriesHas(windows: Windows, x: Expiration)
    ensures x in Entries(windows) <==> x.key in windows && x.resetsAt == windows[x.key].resetsAt
  {
  }

  lemma EntriesAdd(windows: Windows, key: Key, w: Window)
    requires key !in windows
    ensures Entries(windows[key := w]) == Entries(windows) + {Expiration(key, w.resetsAt)}
    ensures Expiration(key, w.resetsAt) !in Entries(windows)
  {
    forall x
      ensures x in Entries(windows[key := w]) <==> x in Entries(windows) || x == Expiration(key, w.resetsAt)
    {
      EntriesHas(windows[key := w], x);
      EntriesHas(windows, x);
    }
  }

  lemma EntriesRemove(windows: Windows, key: Key)
    requires key in windows
    ensures Entries(windows - {key}) == Entries(windows) - {Expiration(key, windows[key].resetsAt)}
  {
    forall x
      ensures x in Entries(windows - {key}) <==> x in Entries(windows) && x != Expiration(key, windows[key].resetsAt)
    {
      EntriesHas(windows - {key}, x);
      EntriesHas(windows, x);
    }
  }

  /** Heap and map agree: one entry for each window, with its key and its expiry. */
  ghost predicate Agree(e: seq<Expiration>, windows: Windows) {
    multiset(e) == multiset(Entries(windows))
  }

  lemma EntryOf(e: seq<Expiration>, windows: Windows, i: nat)
    requires Agree(e, windows) && i < |e|
    ensures e[i].key in windows && windows[e[i].key].resetsAt == e[i].resetsAt
  {
    assert e[i] in multiset(e);
  }

  lemma WindowHasEntry(e: seq<Expiration>, windows: Windows, key: Key) returns (i: nat)
    requires Agree(e, windows) && key in windows
    ensures i < |e| && e[i] == Expiration(key, windows[key].resetsAt)
  {
    var x := Expiration(key, windows[key].resetsAt);
    assert x in Entries(windows);
    assert x in multiset(e);
    i :| 0 <= i < |e| && e[i] == x;
  }

  /** When the root has not expired, nothing has. */
  lemma NothingExpired(e: seq<Expiration>, windows: Windows, now: int)
    requires Agree(e, windows) && IsHeap(e) && (e != [] ==> e[0].resetsAt > now)
    ensures Live(windows, now) == windows
  {
    forall key | key in windows
      ensures windows[key].resetsAt > now
    {
      var i := WindowHasEntry(e, windows, key);
      RootIsLeast(e, i);
    }
  }

  /** The call added one to the key's window, opening it if there was none that had not expired,
      and left the unexpired windows of the other keys. */
  ghost predicate Counted(before: Windows, after: Windows, key: Key, now: int, windowMilliseconds: int) {
    && key in after
    && (if key in before && before[key].resetsAt > now then after[key] == Window(before[key].count + 1, before[key].resetsAt)
        else after[key] == Window(1, now + windowMilliseconds))
    && forall x | x != key ::
         && (x in after <==> x in before && before[x].resetsAt > now)
         && (x in after ==> after[x] == before[x])
  }

  class FixedWindowRateLimiter {
    const config: Config
    var windows: map<Key, Window>
    var expirations: seq<Expiration>

    constructor (config: Config)
      requires ValidConfig(config)
      ensures Valid() && windows == map[] && this.config == config
    {
      this.config := config;
      windows, expirations := map[], [];
    }

    /** The constructor's range checks: None stands for the RangeError it throws. */
    static method Create(limit: Number, windowMilliseconds: Number, maxTrackedKeys: Number)
      returns (limiter: Option<FixedWindowRateLimiter>)
      ensures limiter.Some? <==>
                && limit.Integer? && 1 <= limit.value <= 9_007_199_254_740_991
                && windowMilliseconds.Integer? && 1 <= windowMilliseconds.value <= 9_007_199_254_740_991
                && maxTrackedKeys.Integer? && 1 <= maxTrackedKeys.value <= 9_007_199_254_740_991
      ensures limiter.Some? ==>
                && fresh(limiter.value) && limiter.value.Valid() && limiter.value.windows == map[]
                && limiter.value.config == Config(limit.value, windowMilliseconds.value, maxTrackedKeys.value)
    {
      if !SafePositive(limit) || !SafePositive(windowMilliseconds) || !SafePositive(maxTrackedKeys) {
        return None;
      }
      var created := new FixedWindowRateLimiter(Config(limit.value, windowMilliseconds.value, maxTrackedKeys.value));
      limiter := Some(created);
    }

    ghost predicate Valid()
      reads this
    {
      && ValidConfig(config)
      && IsHeap(expirations)
      && Agree(expirations, windows)
      && WithinBounds(config, windows)
    }

    method Allow(key: Key, now: Number) returns (allowed: bool)
      requires Valid()
      modifies this
      ensures Valid()
      ensures windows == Next(config, old(windows), RateWindows.Allow(key, now))
      ensures allowed == Counts(config, old(windows), RateWindows.Allow(key, now))
      ensures allowed <==> ValidTime(config, now) && Admits(config, Live(old(windows), now.value), key)
      ensures allowed ==> Counted(old(windows), windows, key, now.value, config.windowMilliseconds)
      ensures !allowed ==> windows == if ValidTime(config, now) then Live(old(windows), now.value) else old(windows)
    {
      BoundsKept(config, windows, RateWindows.Allow(key, now));
      var observed := Prepare(now);
      if !observed {
        return false;
      }
      allowed := CanAllowPrepared(key);
      if allowed {
        ConsumePrepared(key, now.value);
      }
    }

    method CanAllow(key: Key, now: Number) returns (allowed: bool)
      requires Valid()
      modifies this
      ensures Valid()
      ensures windows == Next(config, old(windows), RateWindows.CanAllow(key, now))
      ensures allowed == (ValidTime(config, now) && Admits(config, Live(old(windows), now.value), key))
    {
      BoundsKept(config, windows, RateWindows.CanAllow(key, now));
      var observed := Prepare(now);
      if !observed {
        return false;
      }
      allowed := CanAllowPrepared(key);
    }

    method Consume(key: Key, now: Number)
      requires Valid()
      modifies this
      ensures Valid()
      ensures windows == Next(config, old(windows), RateWindows.Consume(key, now))
      ensures ValidTime(config, now) && Admits(config, Live(old(windows), now.value), key) ==>
                Counted(old(windows), windows, key, now.value, config.windowMilliseconds)
    {
      BoundsKept(config, windows, RateWindows.Consume(key, now));
      var observed := Prepare(now);
      if observed {
        var allowed := CanAllowPrepared(key);
        if allowed {
          ConsumePrepared(key, now.value);
        }
      }
    }

    method Prepare(now: Number) returns (observed: bool)
      requires Valid()
      modifies this
      ensures Valid() && observed == ValidTime(config, now)
      ensures observed <==> now.Integer? && 0 <= now.value && now.value + config.windowMilliseconds <= 9_007_199_254_740_991
      ensures windows == if observed then Live(old(windows), now.value) else old(windows)
    {
      observed := ValidTime(config, now);
      if observed {
        PruneExpired(now.value);
      }
    }

    method PruneExpired(now: int)
      requires Valid()
      modifies this
      ensures Valid() && windows == Live(old(windows), now)
    {
      while expirations != [] && expirations[0].resetsAt <= now
        invariant Valid() && Live(windows, now) == Live(old(windows), now)
        decreases |expirations|
      {
        EntryOf(expirations, windows, 0);
        var expired := RemoveNextExpiration();
        if expired.key in windows && windows[expired.key].resetsAt == expired.resetsAt {
          EntriesRemove(windows, expired.key);
          BoundsAfterRemoval(config, windows, expired.key);
          windows := windows - {expired.key};
        }
      }
      NothingExpired(expirations, windows, now);
    }

    /** Whether one more admission would leave every window and the number of keys within
        their limits. */
    method CanAllowPrepared(key: Key) returns (allowed: bool)
      requires Valid()
      ensures allowed == Admits(config, windows, key)
      ensures forall now | now + config.windowMilliseconds <= MAX_SAFE_INTEGER ::
                allowed <==> WithinBounds(config, Count(config, windows, key, now))
    {
      forall now | now + config.windowMilliseconds <= MAX_SAFE_INTEGER
        ensures Admits(config, windows, key) <==> WithinBounds(config, Count(config, windows, key, now))
      {
        AdmitsWithinBounds(config, windows, key, now);
      }
      if key in windows {
        allowed := windows[key].count < config.limit;
      } else {
        allowed := |windows| < config.maxTrackedKeys;
      }
    }

    method ConsumePrepared(key: Key, now: int)
      requires Valid() && WithinBounds(config, Count(config, windows, key, now))
      modifies this
      ensures Valid() && windows == Count(config, old(windows), key, now)
    {
      if key !in windows {
        var window := Window(1, now + config.windowMilliseconds);
        EntriesAdd(windows, key, window);
        windows := windows[key := window];
        AddExpiration(Expiration(key, window.resetsAt));
        return;
      }
      SameEntries(windows, key);
      windows := windows[key := windows[key].(count := windows[key].count + 1)];
    }

    method AddExpiration(expiration: Expiration)
      requires IsHeap(expirations)
      modifies this`expirations
      ensures IsHeap(expirations)
      ensures multiset(expirations) == multiset(old(expirations)) + multiset{expiration}
    {
      hide HeapAbove, IsHeap, Swapped;
      Appended(expirations, expiration);
      expirations := expirations + [expiration];
      var index := |expirations| - 1;
      ghost var filled := expirations;
      while index > 0
        invariant 0 <= index < |expirations| == |filled|
        invariant filled[index] == expiration && filled == expirations[index := expiration]
        invariant multiset(filled) == multiset(old(expirations)) + multiset{expiration}
        invariant HeapAbove(filled, index)
      {
        var parent := Parent(index);
        if expirations[parent].resetsAt <= expiration.resetsAt {
          break;
        }
        Rise(filled, index);
        MoveHole(expirations, index, parent, expiration);
        filled := Swapped(filled, index, parent);
        expirations := expirations[index := expirations[parent]];
        index := parent;
      }
      Risen(filled, index);
      expirations := expirations[index := expiration];
    }

    method RemoveNextExpiration() returns (first: Expiration)
      requires IsHeap(expirations) && expirations != []
      modifies this`expirations
      ensures IsHeap(expirations) && first == old(expirations)[0]
      ensures multiset(expirations) == multiset(old(expirations)) - multiset{first}
      ensures |expirations| == |old(expirations)| - 1
    {
      first := expirations[0];
      var last := expirations[|expirations| - 1];
      expirations := expirations[..|expirations| - 1];
      if expirations == [] {
        assert old(expirations) == [first];
        return;
      }
      RootReplaced(old(expirations), last);
      SiftDown(last);
    }

    /** Moves the hole at the root down until `last` fits into it. */
    method SiftDown(last: Expiration)
      requires expirations != [] && HeapBelow(expirations[0 := last], 0)
      modifies this`expirations
      ensures IsHeap(expirations) && |expirations| == |old(expirations)|
      ensures multiset(expirations) == multiset(old(expirations)[0 := last])
    {
      hide HeapBelow, IsHeap, SmallerChild, Swapped;
      var index := 0;
      ghost var filled := expirations[0 := last];
      while index * 2 + 1 < |expirations|
        invariant 0 <= index < |expirations| == |filled| && |filled| == |old(expirations)|
        invariant filled[index] == last && filled == expirations[index := last]
        invariant multiset(filled) == multiset(old(expirations)[0 := last])
        invariant HeapBelow(filled, index)
        decreases |expirations| - index
      {
        var left := index * 2 + 1;
        var right := left + 1;
        var child := if right < |expirations| && expirations[right].resetsAt < expirations[left].resetsAt then right else left;
        ChildIsSmaller(filled, index, child);
        assert index < child < |expirations| && filled[child] == expirations[child];
        if expirations[child].resetsAt >= last.resetsAt {
          Sunk(filled, index, child);
          break;
        }
        Sink(filled, index, child);
        MoveHole(expirations, index, child, last);
        filled := Swapped(filled, index, child);
        expirations := expirations[index := expirations[child]];
        index := child;
      }
      if index * 2 + 1 >= |expirations| {
        SunkToLeaf(filled, index);
      }
      expirations := expirations[index := last];
    }
  }

  lemma ChildIsSmaller(e: seq<Expiration>, hole: nat, child: nat)
    requires 2 * hole + 1 < |e|
    requires child == if 2 * hole + 2 < |e| && e[2 * hole + 2].resetsAt < e[2 * hole + 1].resetsAt then 2 * hole + 2 else 2 * hole + 1
    ensures hole < child < |e| && SmallerChild(e, hole, child)
  {
  }

  /** Taking the last entry off a heap and putting it at the root loses the root. */
  lemma RootReplaced(e: seq<Expiration>, last: Expiration)
    requires IsHeap(e) && |e| > 1 && last == e[|e| - 1]
    ensures var shorter := e[..|e| - 1];
            && HeapBelow(shorter[0 := last], 0)
            && multiset(shorter[0 := last]) == multiset(e) - multiset{e[0]}
  {
    assert e == e[..|e| - 1] + [last];
  }

  lemma BoundsAfterRemoval(c: Config, windows: Windows, key: Key)
    requires WithinBounds(c, windows) && key in windows
    ensures WithinBounds(c, windows - {key})
  {
    assert (windows - {key}).Keys == windows.Keys - {key};
  }

  lemma SameEntries(windows: Windows, key: Key)
    requires key in windows
    ensures Entries(windows[key := windows[key].(count := windows[key].count + 1)]) == Entries(windows)
  {
    var after := windows[key := windows[key].(count := windows[key].count + 1)];
    assert forall k | k in windows :: after[k].resetsAt == windows[k].resetsAt;
  }

  lemma CanAllowIsCounts(c: Config, windows: Windows, key: Key, now: Number)
    ensures (ValidTime(c, now) && Admits(c, Live(windows, now.value), key)) == Counts(c, windows, RateWindows.Allow(key, now))
  {
  }

  /** Asking first changes neither the answer nor what is counted afterwards. */
  lemma AskThenCount(c: Config, windows: Windows, key: Key, now: Number)
    ensures var asked := Next(c, windows, CanAllow(key, now));
            && Counts(c, asked, Consume(key, now)) == Counts(c, windows, RateWindows.Allow(key, now))
            && Next(c, asked, Consume(key, now)) == Next(c, windows, RateWindows.Allow(key, now))
            && (now.Integer? ==> Live(asked, now.value) == Live(windows, now.value))
  {
    if ValidTime(c, now) {
      assert Live(Live(windows, now.value), now.value) == Live(windows, now.value);
    }
  }

  /** Limits an organization and each of its users with one limiter each. */
  class ScopedRateLimiter {
    const organizations: FixedWindowRateLimiter
    const users: FixedWindowRateLimiter

    constructor (organizationLimit: int, userLimit: int, windowMilliseconds: int)
      requires ValidConfig(Config(organizationLimit, windowMilliseconds, 10_000))
      requires ValidConfig(Config(userLimit, windowMilliseconds, 10_000))
      ensures Valid() && fresh(organizations) && fresh(users)
      ensures organizations.windows == map[] && users.windows == map[]
      ensures organizations.config == Config(organizationLimit, windowMilliseconds, 10_000)
      ensures users.config == Config(userLimit, windowMilliseconds, 10_000)
    {
      organizations := new FixedWindowRateLimiter(Config(organizationLimit, windowMilliseconds, 10_000));
      users := new FixedWindowRateLimiter(Config(userLimit, windowMilliseconds, 10_000));
    }

    ghost predicate Valid()
      reads this, organizations, users
    {
      organizations != users && organizations.Valid() && users.Valid()
    }

    /** Admits when both limiters do.  A refused call counts against neither. */
    method Allow(organization: Key, user: Key, now: Number) returns (allowed: bool)
      requires Valid()
      modifies organizations, users
      ensures Valid()
      ensures allowed == (Counts(users.config, old(users.windows), RateWindows.Allow(organization + ":" + user, now))
                          && Counts(organizations.config, old(organizations.windows), RateWindows.Allow(organization, now)))
      ensures allowed ==>
                && users.windows == Next(users.config, old(users.windows), RateWindows.Allow(organization + ":" + user, now))
                && organizations.windows == Next(organizations.config, old(organizations.windows), RateWindows.Allow(organization, now))
      ensures !allowed && now.Integer? ==>
                && Live(users.windows, now.value) == Live(old(users.windows), now.value)
                && Live(organizations.windows, now.value) == Live(old(organizations.windows), now.value)
    {
      hide RateWindows.Next, RateWindows.Counts, RateWindows.Live, RateWindows.Admits;
      var userKey := organization + ":" + user;
      AskThenCount(users.config, users.windows, userKey, now);
      AskThenCount(organizations.config, organizations.windows, organization, now);
      CanAllowIsCounts(users.config, users.windows, userKey, now);
      CanAllowIsCounts(organizations.config, organizations.windows, organization, now);
      allowed := users.CanAllow(userKey, now);
      if allowed {
        allowed := organizations.CanAllow(organization, now);
      }
      if !allowed {
        return;
      }
      users.Consume(userKey, now);
      organizations.Consume(organization, now);
    }
  }
}
