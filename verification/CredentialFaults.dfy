/** How the credential calls end under a fault schedule: `faults(n)` says whether the n-th attempt succeeds. */
module CredentialFaults {
  import opened Wrappers
  import opened CredentialDisk

  datatype Status = Done | Raised | Leaked   // Leaked: raised, and the temporary file could not be removed either

  type Faults = nat -> bool

  /** How a call ends, and the number of the next attempt after it. */
  datatype Fate = Fate(status: Status, tick: nat)

  predicate AllOk(faults: Faults, lo: nat, hi: nat) {
    forall n :: lo <= n < hi ==> faults(n)
  }

  /** How many of the `n` attempts from `t` on succeed before the first that does not. */
  function Streak(faults: Faults, t: nat, n: nat): (k: nat)
    ensures k <= n && AllOk(faults, t, t + k) && (k < n ==> !faults(t + k))
    decreases n
  {
    if n == 0 || !faults(t) then 0 else 1 + Streak(faults, t + 1, n - 1)
  }

  /** `n` attempts in a row, up to the first that fails. */
  function Steps(faults: Faults, t: nat, n: nat): Fate {
    var k := Streak(faults, t, n);
    if k == n then Fate(Done, t + n) else Fate(Raised, t + k + 1)
  }

  /** `_publish`: make, guard, write, flush and rename the temporary file; once it is made a failure removes it. */
  function PublishFate(faults: Faults, t: nat): Fate {
    var k := Streak(faults, t, 5);
    if k == 0 || k == 5 then Steps(faults, t, 5)
    else Fate(if faults(t + k + 1) then Raised else Leaked, t + k + 2)
  }

  /** One part after another; the second runs only when the first is done. */
  function Then(first: Fate, second: Fate): Fate {
    if first.status == Done then second else first
  }

  predicate HoldsKey(f: Option<File>) {
    f.Some? && KeyOf(f.value.content) != ""
  }

  /** Guarding and reading a newer legacy file and publishing the key it holds. */
  function CopyFate(faults: Faults, t: nat, d: Disk): Fate {
    var taken := Steps(faults, t, 2);
    Then(taken, if HoldsKey(d.legacy) then PublishFate(faults, taken.tick) else taken)
  }

  /** `_migrate_legacy`: copy a newer legacy key, then retire the file unless it holds none. */
  function MigrateFate(faults: Faults, t: nat, d: Disk): Fate {
    hide KeyOf;
    if d.legacy.None? then Fate(Done, t)
    else if !LegacyIsNewer(d) then Steps(faults, t, 1)
    else
      var copied := CopyFate(faults, t, d);
      Then(copied, if HoldsKey(d.legacy) then Steps(faults, copied.tick, 1) else copied)
  }

  const LOCK_STEPS := 5

  /** Releasing the lock is attempted however the work under it ended. */
  function Released(faults: Faults, inner: Fate): Fate {
    Fate(if inner.status == Done && !faults(inner.tick) then Raised else inner.status, inner.tick + 1)
  }

  function StoreFate(faults: Faults, t: nat, d: Disk): Fate {
    var lock := Steps(faults, t, LOCK_STEPS);
    var migrated := MigrateFate(faults, lock.tick, d);
    Then(lock, Released(faults, Then(migrated, PublishFate(faults, migrated.tick))))
  }

  /** `read_key` under the lock: there is something to guard and read unless a blank legacy file is all there is. */
  function ReadLockedFate(faults: Faults, t: nat, d: Disk): Fate {
    var migrated := MigrateFate(faults, t, d);
    Then(migrated, Steps(faults, migrated.tick, if d.canonical.Some? || HoldsKey(d.legacy) then 2 else 0))
  }

  function ReadFate(faults: Faults, t: nat, d: Disk): Fate {
    var lock := Steps(faults, t, LOCK_STEPS);
    if d.canonical.None? && d.legacy.None? then Fate(Done, t)
    else Then(lock, Released(faults, ReadLockedFate(faults, lock.tick, d)))
  }

  lemma StreakIs(faults: Faults, t: nat, n: nat, k: nat)
    requires k <= n && AllOk(faults, t, t + k) && (k < n ==> !faults(t + k))
    ensures Streak(faults, t, n) == k
  {
  }

  /** A publication is four steps up to the full temporary file, then the rename; either is undone by a removal. */
  lemma PublishUnfolds(faults: Faults, t: nat)
    ensures Steps(faults, t, 4).status == Done ==> Steps(faults, t, 4).tick == t + 4
    ensures !faults(t) ==> Steps(faults, t, 4) == Fate(Raised, t + 1)
    ensures var filled := Steps(faults, t, 4);
            PublishFate(faults, t) ==
            if filled.status == Done && faults(t + 4) then Fate(Done, t + 5)
            else if !faults(t) then Fate(Raised, t + 1)
            else
              var failed := if filled.status == Done then t + 5 else filled.tick;
              Fate(if faults(failed) then Raised else Leaked, failed + 1)
  {
    hide Streak;
    var k := Streak(faults, t, 4);
    if k < 4 { StreakIs(faults, t, 5, k); }
    else { StreakIs(faults, t, 5, if faults(t + 4) then 5 else 4); }
  }

  // ------------------------------------------------------------------ what decides the ending

  /** The first fault of the attempts from `t` on is `n`, and the next attempt fails too. */
  predicate FaultTwice(faults: Faults, t: nat, n: nat) {
    t <= n && AllOk(faults, t, n) && !faults(n) && !faults(n + 1)
  }

  /** That happens inside one of the publications starting at `starts`, after its temporary file was made: the step
      fails, and so does the removal right after it. */
  ghost predicate Leaks(faults: Faults, t: nat, starts: set<nat>) {
    exists p: nat, n: nat :: p in starts && p < n < p + 5 && FaultTwice(faults, t, n)
  }

  /** Without a fault the part takes the attempts from `t` up to `end`, with publications starting at `starts`. It is
      done exactly when none of those fails, and leaks exactly when a publication does. */
  ghost predicate Ends(faults: Faults, t: nat, fate: Fate, end: nat, starts: set<nat>) {
    && t <= end && (forall p :: p in starts ==> t <= p && p + 5 <= end)
    && (fate.status == Done <==> AllOk(faults, t, end)) && (fate.status == Done ==> fate.tick == end)
    && (fate.status == Leaked <==> Leaks(faults, t, starts))
  }

  lemma StepsEnd(faults: Faults, t: nat, n: nat)
    ensures Ends(faults, t, Steps(faults, t, n), t + n, {})
  {
    var k := Streak(faults, t, n);
    if k < n { assert !faults(t + k); }
  }

  lemma PublishEnds(faults: Faults, t: nat)
    ensures Ends(faults, t, PublishFate(faults, t), t + 5, {t})
  {
    var k := Streak(faults, t, 5);
    StepsEnd(faults, t, 5);
    if k < 5 { assert !faults(t + k); }
    if PublishFate(faults, t).status == Leaked { assert FaultTwice(faults, t, t + k); }
    forall n | t < n < t + 5 && FaultTwice(faults, t, n)
      ensures PublishFate(faults, t).status == Leaked
    {
      StreakIs(faults, t, 5, n - t);
    }
  }

  lemma ThenEnds(faults: Faults, t: nat, first: Fate, mid: nat, a: set<nat>, second: Fate, end: nat, b: set<nat>)
    requires Ends(faults, t, first, mid, a) && mid <= end && forall p :: p in b ==> mid <= p && p + 5 <= end
    requires first.status == Done ==> Ends(faults, mid, second, end, b)
    ensures Ends(faults, t, Then(first, second), end, a + b)
  {
    if first.status == Done {
      assert AllOk(faults, t, end) <==> AllOk(faults, mid, end);
      if Leaks(faults, mid, b) {
        var p: nat, n: nat :| p in b && p < n < p + 5 && FaultTwice(faults, mid, n);
        assert p in a + b && FaultTwice(faults, t, n);
      }
      if Leaks(faults, t, a + b) {
        var p: nat, n: nat :| p in a + b && p < n < p + 5 && FaultTwice(faults, t, n);
        assert n >= mid && p in b && FaultTwice(faults, mid, n);
      }
    } else {
      var bad :| t <= bad < mid && !faults(bad);
      if Leaks(faults, t, a) {
        var p: nat, n: nat :| p in a && p < n < p + 5 && FaultTwice(faults, t, n);
        assert p in a + b;
      }
      if Leaks(faults, t, a + b) {
        var p: nat, n: nat :| p in a + b && p < n < p + 5 && FaultTwice(faults, t, n);
        assert n < mid && p in a;
      }
    }
  }

  function MigrateEnd(t: nat, d: Disk): nat {
    if d.legacy.None? then t
    else if !LegacyIsNewer(d) then t + 1
    else if !HoldsKey(d.legacy) then t + 2
    else t + 8
  }

  function MigratePublishes(t: nat, d: Disk): set<nat> {
    if LegacyIsNewer(d) && HoldsKey(d.legacy) then {t + 2} else {}
  }

  lemma MigrateEnds(faults: Faults, t: nat, d: Disk)
    ensures Ends(faults, t, MigrateFate(faults, t, d), MigrateEnd(t, d), MigratePublishes(t, d))
  {
    hide Ends, Steps, PublishFate, HoldsKey;
    StepsEnd(faults, t, 0);
    StepsEnd(faults, t, 1);
    StepsEnd(faults, t, 2);
    NoSteps(faults, t);
    if LegacyIsNewer(d) && HoldsKey(d.legacy) {
      NewerEnds(faults, t, d);
    }
  }

  lemma NoSteps(faults: Faults, t: nat)
    ensures Steps(faults, t, 0) == Fate(Done, t)
  {
  }

  lemma NewerEnds(faults: Faults, t: nat, d: Disk)
    requires HoldsKey(d.legacy)
    ensures var copied := CopyFate(faults, t, d);
            Ends(faults, t, Then(copied, Steps(faults, copied.tick, 1)), t + 8, {t + 2})
  {
    hide Steps, PublishFate, Leaks, AllOk, HoldsKey;
    var taken := Steps(faults, t, 2);
    StepsEnd(faults, t, 2);
    PublishEnds(faults, taken.tick);
    assert {} + {t + 2} == {t + 2} && {t + 2} + {} == {t + 2};
    ThenEnds(faults, t, taken, t + 2, {}, PublishFate(faults, taken.tick), t + 7, {t + 2});
    var copied := CopyFate(faults, t, d);
    StepsEnd(faults, copied.tick, 1);
    ThenEnds(faults, t, copied, t + 7, {t + 2}, Steps(faults, copied.tick, 1), t + 8, {});
  }

  lemma ReleasedEnds(faults: Faults, t: nat, inner: Fate, end: nat, starts: set<nat>)
    requires Ends(faults, t, inner, end, starts)
    ensures Ends(faults, t, Released(faults, inner), end + 1, starts)
  {
    assert AllOk(faults, t, end + 1) <==> AllOk(faults, t, end) && faults(end);
  }

  /** Under the lock, which takes the first five attempts, and with its release. */
  lemma LockedEnds(faults: Faults, t: nat, inner: Fate, end: nat, starts: set<nat>)
    requires Ends(faults, Steps(faults, t, LOCK_STEPS).tick, inner, end, starts) || !AllOk(faults, t, t + 5)
    requires t + 5 <= end && forall p :: p in starts ==> t + 5 <= p && p + 5 <= end
    ensures Ends(faults, t, Then(Steps(faults, t, LOCK_STEPS), Released(faults, inner)), end + 1, starts)
  {
    hide Steps, Leaks, Released;
    StepsEnd(faults, t, LOCK_STEPS);
    var lock := Steps(faults, t, LOCK_STEPS);
    if lock.status == Done { ReleasedEnds(faults, t + 5, inner, end, starts); }
    assert {} + starts == starts;
    ThenEnds(faults, t, lock, t + 5, {}, Released(faults, inner), end + 1, starts);
  }

  function StoreEnd(t: nat, d: Disk): nat {
    MigrateEnd(t + LOCK_STEPS, d) + 5 + 1
  }

  /** Where `store_key` starts a publication, counted without faults: of a newer legacy key, and of the new key. */
  function StorePublishes(t: nat, d: Disk): set<nat> {
    MigratePublishes(t + LOCK_STEPS, d) + {MigrateEnd(t + LOCK_STEPS, d)}
  }

  function ReadEnd(t: nat, d: Disk): nat {
    if d.canonical.None? && d.legacy.None? then t
    else MigrateEnd(t + LOCK_STEPS, d) + (if d.canonical.Some? || HoldsKey(d.legacy) then 2 else 0) + 1
  }

  function ReadPublishes(t: nat, d: Disk): set<nat> {
    MigratePublishes(t + LOCK_STEPS, d)
  }

  lemma MigrateFits(t: nat, d: Disk)
    ensures t <= MigrateEnd(t, d) && forall p :: p in MigratePublishes(t, d) ==> t <= p && p + 5 <= MigrateEnd(t, d)
  {
    hide HoldsKey;
  }

  /** `store_key` from any file state is done exactly when none of its attempts fails, and leaves a temporary file
      exactly when its first fault is inside a publication, after the file was made, and the next attempt fails too. */
  lemma StoreEndings(faults: Faults, t: nat, d: Disk)
    ensures StoreFate(faults, t, d).status == Done <==> AllOk(faults, t, StoreEnd(t, d))
    ensures StoreFate(faults, t, d).status == Leaked <==> Leaks(faults, t, StorePublishes(t, d))
  {
    hide Steps, PublishFate, MigrateFate, MigrateEnd, MigratePublishes, Leaks, AllOk;
    var u := t + LOCK_STEPS;
    StepsEnd(faults, t, LOCK_STEPS);
    var lock := Steps(faults, t, LOCK_STEPS);
    MigrateFits(u, d);
    var migrated := MigrateFate(faults, lock.tick, d);
    var published := PublishFate(faults, migrated.tick);
    var end := MigrateEnd(u, d);
    if lock.status == Done {
      MigrateEnds(faults, u, d);
      PublishEnds(faults, migrated.tick);
      ThenEnds(faults, u, migrated, end, MigratePublishes(u, d), published, end + 5, {end});
    }
    LockedEnds(faults, t, Then(migrated, published), end + 5, StorePublishes(t, d));
  }

  /** The failing input: a first store whose guarding of the new file and whose removal of it both fail. */
  lemma TwoFaultsLeaveAFile()
    ensures StoreFate(n => n != 6 && n != 7, 0, Disk(None, None, map[])).status == Leaked
  {
    var faults: Faults := n => n != 6 && n != 7;
    var d := Disk(None, None, map[]);
    StoreEndings(faults, 0, d);
    assert FaultTwice(faults, 0, 6) && 5 in StorePublishes(0, d);
  }

  /** `read_key` likewise; it publishes only a newer legacy key. */
  lemma ReadEndings(faults: Faults, t: nat, d: Disk)
    ensures ReadFate(faults, t, d).status == Done <==> AllOk(faults, t, ReadEnd(t, d))
    ensures ReadFate(faults, t, d).status == Leaked <==> Leaks(faults, t, ReadPublishes(t, d))
  {
    hide Steps, MigrateFate, MigrateEnd, HoldsKey, Leaks;
    var u := t + LOCK_STEPS;
    if d.canonical.Some? || d.legacy.Some? {
      StepsEnd(faults, t, LOCK_STEPS);
      var lock := Steps(faults, t, LOCK_STEPS);
      MigrateFits(u, d);
      var migrated := MigrateFate(faults, lock.tick, d);
      var rest := if d.canonical.Some? || HoldsKey(d.legacy) then 2 else 0;
      var end := MigrateEnd(u, d);
      if lock.status == Done {
        MigrateEnds(faults, u, d);
        StepsEnd(faults, migrated.tick, rest);
        assert MigratePublishes(u, d) + {} == MigratePublishes(u, d);
        ThenEnds(faults, u, migrated, end, MigratePublishes(u, d), Steps(faults, migrated.tick, rest), end + rest, {});
      }
      LockedEnds(faults, t, ReadLockedFate(faults, lock.tick, d), end + rest, ReadPublishes(t, d));
    } else {
      NoLeaks(faults, t);
    }
  }

  lemma NoLeaks(faults: Faults, t: nat)
    ensures !Leaks(faults, t, {})
  {
  }
}
