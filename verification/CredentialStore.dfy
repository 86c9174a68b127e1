/** The Windows credential store: publish by temporary file and rename, one-way migration of the
    legacy file, and a possible failure at every step. `faults(n)` says whether the n-th attempt
    succeeds, `clock(n)` what time it is then, and `torn(n)` how much of a failed write got through; all
    three are arbitrary. Every state the disk passes through is recorded, so a statement about `history` is
    one about a crash at any point. */
module CredentialStore {
  import opened Wrappers
  import opened CredentialDisk
  import opened CredentialFaults

  class Store {
    const faults: Faults
    const clock: nat -> int
    const torn: nat -> nat
    var tick: nat
    var canonical: Option<File>
    var legacy: Option<File>
    var temps: map<nat, File>
    var nextTemp: nat
    ghost var history: seq<Disk>

    /** Any file state, with any temporary files an earlier crash left. */
    constructor (faults: Faults, clock: nat -> int, torn: nat -> nat,
                 canonical: Option<File>, legacy: Option<File>, leftover: seq<File>)
      ensures Valid() && Current() == Disk(canonical, legacy, map t | 0 <= t < |leftover| :: leftover[t])
      ensures history == [Current()] && tick == 0
    {
      this.faults := faults;
      this.clock := clock;
      this.torn := torn;
      this.tick := 0;
      this.canonical := canonical;
      this.legacy := legacy;
      this.temps := map t | 0 <= t < |leftover| :: leftover[t];
      this.nextTemp := |leftover|;
      this.history := [Disk(canonical, legacy, map t | 0 <= t < |leftover| :: leftover[t])];
    }

    function Current(): Disk
      reads this
    {
      Disk(canonical, legacy, temps)
    }

    ghost predicate Valid()
      reads this
    {
      && |history| > 0 && history[|history| - 1] == Current()
      && forall t :: t in temps ==> t < nextTemp
    }

    ghost predicate NoFaults() {
      forall n: nat :: faults(n)
    }

    /** One operation that may fail, by the arbitrary fault schedule. */
    method Attempt() returns (ok: bool)
      modifies `tick
      ensures tick == old(tick) + 1 && ok == faults(old(tick))
    {
      ok := faults(tick);
      tick := tick + 1;
    }

    ghost method Record()
      modifies `history
      ensures history == old(history) + [Current()]
    {
      history := history + [Current()];
    }

    /** `_locked` as a mutex: SID, directory, its restriction, the lock file, the lock within its deadline. */
    method Lock() returns (ok: bool)
      modifies `tick
      ensures NoFaults() ==> ok
      ensures Fate(if ok then Done else Raised, tick) == Steps(faults, old(tick), LOCK_STEPS)
    {
      for i := 0 to LOCK_STEPS
        invariant tick == old(tick) + i && AllOk(faults, old(tick), tick)
      {
        ok := Attempt();
        if !ok {
          StreakIs(faults, old(tick), LOCK_STEPS, i);
          return false;
        }
      }
      StreakIs(faults, old(tick), LOCK_STEPS, LOCK_STEPS);
      return true;
    }

    /** The release of the lock, however the work under it ended. */
    method Release(inner: Status) returns (st: Status)
      modifies `tick
      ensures Fate(st, tick) == Released(faults, Fate(inner, old(tick)))
    {
      var released := Attempt();
      st := if inner == Done && !released then Raised else inner;
    }

    /** The `finally` of `_publish`. */
    method Cleanup(t: nat, ghost before: map<nat, File>) returns (st: Status)
      requires Valid() && t !in before && t in temps && temps - {t} == before
      requires temps[t].content == "" || temps[t].guarded
      modifies `temps, `tick, `history
      ensures Valid() && old(history) <= history
      ensures st == (if faults(old(tick)) then Raised else Leaked) && tick == old(tick) + 1
      ensures if st == Raised then temps == before else temps == old(temps)
      ensures forall i :: |old(history)| <= i < |history| ==> history[i] == Disk(canonical, legacy, before)
    {
      var removed := Attempt();
      if !removed {
        return Leaked;
      }
      temps := temps - {t};
      Record();
      return Raised;
    }

    /** One change of the temporary file, recorded. */
    method SetTemp(t: nat, f: File, ghost before: map<nat, File>)
      requires Valid() && t < nextTemp && t !in before && temps - {t} == before
      requires f.content == "" || f.guarded
      modifies `temps, `history
      ensures Valid() && temps == before[t := f] && temps - {t} == before
      ensures history == old(history) + [Current()]
      ensures TempsSafe(before, temps)
    {
      temps := temps[t := f];
      assert temps == before[t := f];
      assert temps - {t} == before;
      Record();
    }

    /** The temporary file of `_publish`, made empty and then guarded. */
    method MakeTemp() returns (made: bool, guarded: bool, t: nat)
      requires Valid()
      modifies `temps, `nextTemp, `tick, `history
      ensures Valid() && old(history) <= history
      ensures if made then
                t !in old(temps) && t < nextTemp && t in temps && temps - {t} == old(temps) && temps[t].content == ""
              else !guarded && temps == old(temps)
      ensures guarded ==> temps[t].guarded
      ensures NoFaults() ==> guarded
      ensures made == faults(old(tick)) && guarded == (made && faults(old(tick) + 1))
      ensures tick == old(tick) + if made then 2 else 1
      ensures forall i :: |old(history)| <= i < |history| ==> Publishing(old(Current()), history[i], "", false)
    {
      ghost var before := temps;
      t := nextTemp;
      guarded := false;
      made := Attempt();
      if !made {
        return;
      }
      nextTemp := nextTemp + 1;
      assert temps - {t} == before;
      SetTemp(t, File("", clock(tick), false), before);
      guarded := Attempt();
      if guarded {
        SetTemp(t, File("", clock(tick), true), before);
      }
    }

    /** The write of `_publish`; one that fails may leave any part of the key behind. */
    method WriteTemp(t: nat, key: string, ghost before: map<nat, File>) returns (ready: bool)
      requires Valid() && t < nextTemp && t !in before && t in temps && temps - {t} == before && temps[t].guarded
      modifies `temps, `tick, `history
      ensures Valid() && t in temps && temps - {t} == before && temps[t].guarded
      ensures history == old(history) + [Current()] && TempsSafe(before, temps)
      ensures ready ==> temps[t].content == key
      ensures NoFaults() ==> ready
      ensures ready == (faults(old(tick)) && faults(old(tick) + 1))
      ensures tick == old(tick) + if faults(old(tick)) then 2 else 1
    {
      var written := Attempt();
      var upto := if written || torn(tick) > |key| then |key| else torn(tick);
      SetTemp(t, File(key[..upto], clock(tick), true), before);
      assert key[..|key|] == key;
      if !written {
        return false;
      }
      ready := Attempt();
    }

    /** `_publish` up to the full temporary file. */
    method FillTemp(key: string) returns (made: bool, ready: bool, t: nat)
      requires Valid()
      modifies `temps, `nextTemp, `tick, `history
      ensures Valid() && old(history) <= history
      ensures if made then t !in old(temps) && t in temps && temps - {t} == old(temps)
              else !ready && temps == old(temps)
      ensures made ==> temps[t].content == "" || temps[t].guarded
      ensures ready ==> temps[t].content == key && temps[t].guarded
      ensures forall i :: |old(history)| <= i < |history| ==> Publishing(old(Current()), history[i], key, false)
      ensures NoFaults() ==> ready
      ensures made == faults(old(tick)) && Fate(if ready then Done else Raised, tick) == Steps(faults, old(tick), 4)
    {
      ghost var before, start := temps, tick;
      made, ready, t := MakeTemp();
      if ready {
        ready := WriteTemp(t, key, before);
      }
      StreakIs(faults, start, 4, if ready then 4 else tick - 1 - start);
    }

    /** The rename of `_publish`. */
    method Rename(t: nat, ghost before: map<nat, File>) returns (ok: bool)
      requires Valid() && t !in before && t in temps && temps - {t} == before
      modifies `canonical, `temps, `tick, `history
      ensures Valid() && ok == faults(old(tick)) && tick == old(tick) + 1
      ensures if ok then canonical == Some(old(temps)[t]) && temps == before && history == old(history) + [Current()]
              else canonical == old(canonical) && temps == old(temps) && history == old(history)
    {
      ok := Attempt();
      if ok {
        canonical := Some(temps[t]);
        temps := temps - {t};
        Record();
      }
    }

    /** `_publish`: `cut` is the first recorded state with the new canonical file. */
    method Publish(key: string) returns (st: Status, ghost cut: nat)
      requires Valid()
      modifies `canonical, `temps, `nextTemp, `tick, `history
      ensures Valid() && old(history) <= history && |old(history)| <= cut <= |history|
      ensures forall i :: |old(history)| <= i < |history| ==> Publishing(old(Current()), history[i], key, i >= cut)
      ensures NoFaults() ==> st == Done
      ensures if st == Done then cut == |history| - 1 else cut == |history| && canonical == old(canonical)
      ensures st == Done ==> canonical.Some? && canonical.value.content == key && canonical.value.guarded
      ensures Fate(st, tick) == PublishFate(faults, old(tick))
      ensures st == Leaked <==> Leaks(faults, old(tick), {old(tick)})
      ensures if st == Leaked then OneLeft(old(temps), temps) else temps == old(temps)
    {
      hide Leaks, Steps, PublishFate;
      ghost var before := temps;
      PublishEnds(faults, tick);
      PublishUnfolds(faults, tick);
      var made, ready, t := FillTemp(key);
      if !made {
        return Raised, |history|;
      }
      if ready {
        var replaced := Rename(t, before);
        if replaced {
          return Done, |history| - 1;
        }
      }
      st := Cleanup(t, before);
      cut := |history|;
    }

    /** Guarding and reading the legacy file. */
    method TakeLegacy() returns (ok: bool)
      requires Valid() && legacy.Some?
      modifies `legacy, `tick, `history
      ensures Valid() && old(history) <= history <= old(history) + [Current()]
      ensures legacy == old(legacy) || legacy == Some(old(legacy).value.(guarded := true))
      ensures NoFaults() ==> ok
      ensures ok ==> history == old(history) + [Current()] && legacy == Some(old(legacy).value.(guarded := true))
      ensures Fate(if ok then Done else Raised, tick) == Steps(faults, old(tick), 2)
    {
      ghost var t := tick;
      var guarded := Attempt();
      if !guarded {
        StreakIs(faults, t, 2, 0);
        return false;
      }
      legacy := Some(legacy.value.(guarded := true));
      Record();
      ok := Attempt();
      StreakIs(faults, t, 2, if ok then 2 else 1);
    }

    /** The first half of `_migrate_legacy`: guard, read and publish a newer legacy key. */
    method CopyLegacy() returns (st: Status, blank: bool)
      requires Valid() && LegacyIsNewer(Current())
      modifies `canonical, `legacy, `temps, `nextTemp, `tick, `history
      ensures Valid() && old(history) <= history
      ensures Trail(history, |old(history)|, old(Current()), true, None)
      ensures forall i :: |old(history)| <= i < |history| ==> history[i].legacy.Some?
      ensures if st == Leaked then OneLeft(old(temps), temps) else temps == old(temps)
      ensures NoFaults() ==> st == Done
      ensures Fate(st, tick) == CopyFate(faults, old(tick), old(Current()))
      ensures legacy.Some? && legacy.value.content == old(legacy).value.content
      ensures st == Done ==> (blank <==> !HoldsKey(legacy)) && (blank ==> canonical == old(canonical))
      ensures st == Done && !blank ==>
                && canonical.Some? && canonical.value.guarded
                && canonical.value.content == KeyOf(old(legacy).value.content)
      ensures st == Done && !blank ==> |history| > |old(history)| && KeyIsCanonical(Current())
    {
      hide KeyOf, PublishFate, Leaks, Steps;
      ghost var start := Current();
      var taken := TakeLegacy();
      blank := false;
      if !taken {
        return Raised, false;
      }
      ghost var mid := Current();
      var key := KeyOf(legacy.value.content);
      if key == "" {
        return Done, true;
      }
      ghost var from, cut := |history|, 0;
      st, cut := Publish(key);
      PublishTrail(start, mid, history, from, cut);
    }

    /** `_migrate_legacy`. */
    method MigrateLegacy(legacyGiven: bool) returns (st: Status)
      requires Valid()
      modifies `canonical, `legacy, `temps, `nextTemp, `tick, `history
      ensures Valid() && old(history) <= history
      ensures Trail(history, |old(history)|, old(Current()), legacyGiven, None)
      ensures RetiresAlong(history, |old(history)|)
      ensures if st == Leaked then OneLeft(old(temps), temps) else temps == old(temps)
      ensures NoFaults() ==> st == Done
      ensures Fate(st, tick) == MigrateFate(faults, old(tick), Seen(old(Current()), legacyGiven))
      ensures st == Done ==>
                if legacyGiven then Reconciled(old(canonical), old(legacy), canonical, legacy)
                else canonical == old(canonical) && legacy == old(legacy)
      ensures var d := Seen(old(Current()), legacyGiven);
              st == Done ==> (canonical.Some? <==> d.canonical.Some? || HoldsKey(d.legacy))
      ensures st == Done && legacyGiven && legacy.Some? ==> KeyOf(legacy.value.content) == ""
      ensures history == old(history) ==> Current() == old(Current())
    {
      hide KeyOf, CopyFate, Steps;
      if !legacyGiven || legacy.None? {
        return Done;
      }
      ghost var start := Current();
      if canonical.None? || legacy.value.mtime > canonical.value.mtime {
        var blank;
        st, blank := CopyLegacy();
        if st != Done || blank {
          return;
        }
      }
      assert KeyIsCanonical(Current());
      assert SameKey(start, Current(), true);
      st := RetireLegacy();
    }

    /** `_retire_legacy`. */
    method RetireLegacy() returns (st: Status)
      requires Valid() && KeyIsCanonical(Current())
      modifies `legacy, `tick, `history
      ensures Valid() && st != Leaked && Fate(st, tick) == Steps(faults, old(tick), 1)
      ensures Current() == if st == Done then old(Current()).(legacy := None) else old(Current())
      ensures history == if st == Done then old(history) + [Current()] else old(history)
      ensures EffectiveKey(Current()) == EffectiveKey(old(Current()))
      ensures NoFaults() ==> st == Done
    {
      hide KeyOf;
      ghost var t := tick;
      var removed := Attempt();
      StreakIs(faults, t, 1, if removed then 1 else 0);
      if !removed {
        return Raised;
      }
      legacy := None;
      Record();
      return Done;
    }

    /** `store_key` under the lock. */
    method StoreLocked(key: string, legacyGiven: bool) returns (st: Status, ghost cut: nat)
      requires Valid()
      modifies `canonical, `legacy, `temps, `nextTemp, `tick, `history
      ensures Valid() && old(history) <= history && |old(history)| <= cut <= |history|
      ensures forall i :: |old(history)| <= i < cut ==> SameKey(old(Current()), history[i], legacyGiven)
      ensures forall i :: cut <= i < |history| ==> EffectiveKey(Seen(history[i], legacyGiven)) == KeyOf(key)
      ensures forall i :: |old(history)| <= i < |history| ==>
                TempsSafe(old(temps), history[i].temps) && CanonicalWhole(old(Current()), history[i], Some(key))
      ensures RetiresAlong(history, |old(history)|)
      ensures NoFaults() ==> st == Done
      ensures st == Done ==> cut < |history| && EffectiveKey(Seen(Current(), legacyGiven)) == KeyOf(key)
      ensures st == Done ==> canonical.Some? && canonical.value.content == key && canonical.value.guarded
      ensures st == Done && !legacyGiven ==> legacy == old(legacy)
      ensures st == Done && legacyGiven ==>
                (legacy.None? <==>
                 || old(legacy).None?
                 || KeyOf(old(legacy).value.content) != ""
                 || (old(canonical).Some? && old(legacy).value.mtime <= old(canonical).value.mtime))
      ensures cut == |history| ==> SameKey(old(Current()), Current(), legacyGiven)
      ensures if st == Leaked then OneLeft(old(temps), temps) else temps == old(temps)
      ensures var migrated := MigrateFate(faults, old(tick), Seen(old(Current()), legacyGiven));
              Fate(st, tick) == Then(migrated, PublishFate(faults, migrated.tick))
    {
      hide KeyOf, MigrateFate, PublishFate, Leaks;
      ghost var start, h := Current(), |history|;
      st := MigrateLegacy(legacyGiven);
      if st != Done {
        return st, |history|;
      }
      ghost var mid, from := Current(), |history|;
      assert history[from - 1] == mid;
      assert SameKey(start, mid, legacyGiven) && CanonicalWhole(start, mid, None);
      st, cut := Publish(key);
      StoreTrail(start, mid, history, from, cut, key, legacyGiven);
    }

    /** `store_key`. Up to `cut` every recorded state stands for the old key, from `cut` on for the new
        one; only the rename of the new canonical file moves it. */
    method StoreKey(key: string, legacyGiven: bool) returns (st: Status, ghost cut: nat)
      requires Valid()
      modifies `canonical, `legacy, `temps, `nextTemp, `tick, `history
      ensures Valid() && old(history) <= history && |old(history)| <= cut <= |history|
      ensures forall i :: |old(history)| <= i < cut ==> SameKey(old(Current()), history[i], legacyGiven)
      ensures forall i :: cut <= i < |history| ==> EffectiveKey(Seen(history[i], legacyGiven)) == KeyOf(key)
      ensures forall i :: |old(history)| <= i < |history| ==>
                TempsSafe(old(temps), history[i].temps) && CanonicalWhole(old(Current()), history[i], Some(key))
      ensures RetiresAlong(history, |old(history)|)
      ensures NoFaults() ==> st == Done
      ensures st == Done ==> cut < |history| && EffectiveKey(Seen(Current(), legacyGiven)) == KeyOf(key)
      ensures st == Done ==> canonical.Some? && canonical.value.content == key && canonical.value.guarded
      ensures st == Done && !legacyGiven ==> legacy == old(legacy)
      ensures st == Done && legacyGiven ==>
                (legacy.None? <==>
                 || old(legacy).None?
                 || KeyOf(old(legacy).value.content) != ""
                 || (old(canonical).Some? && old(legacy).value.mtime <= old(canonical).value.mtime))
      ensures cut == |history| ==> SameKey(old(Current()), Current(), legacyGiven)
      ensures if st == Leaked then OneLeft(old(temps), temps) else temps == old(temps)
      ensures var d := Seen(old(Current()), legacyGiven);
              && Fate(st, tick) == StoreFate(faults, old(tick), d)
              && (st == Done <==> AllOk(faults, old(tick), StoreEnd(old(tick), d)))
              && (st == Leaked <==> Leaks(faults, old(tick), StorePublishes(old(tick), d)))
    {
      hide KeyOf, MigrateFate, PublishFate, Steps, Leaks, AllOk, StoreEnd, StorePublishes;
      hide SameKey, TempsSafe, CanonicalWhole, EffectiveKey;
      StoreEndings(faults, tick, Seen(Current(), legacyGiven));
      var locked := Lock();
      if !locked {
        SameKeyAsItself(Current(), legacyGiven);
        return Raised, |history|;
      }
      st, cut := StoreLocked(key, legacyGiven);
      st := Release(st);
    }

    /** The tail of `read_key`: guard the canonical file, then read it. */
    method ReadCanonical(legacyGiven: bool) returns (st: Status, key: string)
      requires Valid() && canonical.Some?
      modifies `canonical, `tick, `history
      ensures Valid() && old(history) <= history <= old(history) + [Current()]
      ensures canonical == old(canonical) || canonical == Some(old(canonical).value.(guarded := true))
      ensures NoFaults() ==> st == Done
      ensures Fate(st, tick) == Steps(faults, old(tick), 2)
      ensures st != Leaked && (st == Done ==> key == KeyOf(old(canonical).value.content))
    {
      hide KeyOf;
      ghost var t := tick;
      key := "";
      var guarded := Attempt();
      if !guarded {
        StreakIs(faults, t, 2, 0);
        return Raised, "";
      }
      canonical := Some(canonical.value.(guarded := true));
      Record();
      var readable := Attempt();
      StreakIs(faults, t, 2, if readable then 2 else 1);
      if !readable {
        return Raised, "";
      }
      return Done, KeyOf(canonical.value.content);
    }

    /** `read_key` under the lock. */
    method ReadLocked(legacyGiven: bool) returns (st: Status, key: string)
      requires Valid()
      modifies `canonical, `legacy, `temps, `nextTemp, `tick, `history
      ensures Valid() && old(history) <= history
      ensures Trail(history, |old(history)|, old(Current()), legacyGiven, None)
      ensures RetiresAlong(history, |old(history)|)
      ensures NoFaults() ==> st == Done
      ensures Fate(st, tick) == ReadLockedFate(faults, old(tick), Seen(old(Current()), legacyGiven))
      ensures st == Done ==> key == EffectiveKey(Seen(old(Current()), legacyGiven))
      ensures st == Done && !legacyGiven ==>
                && legacy == old(legacy) && Guarded(old(canonical), canonical)
                && key == (if old(canonical).Some? then KeyOf(old(canonical).value.content) else "")
      ensures st == Done && legacyGiven && old(canonical).Some?
              && (old(legacy).None? || old(legacy).value.mtime <= old(canonical).value.mtime) ==>
                key == KeyOf(old(canonical).value.content) && Guarded(old(canonical), canonical) && legacy.None?
      ensures st == Done && legacyGiven && old(legacy).Some? && KeyOf(old(legacy).value.content) != ""
              && (old(canonical).None? || old(legacy).value.mtime > old(canonical).value.mtime) ==>
                && key == KeyOf(old(legacy).value.content) && legacy.None?
                && canonical.Some? && canonical.value.content == key && canonical.value.guarded
      ensures st == Done && legacyGiven && old(legacy).Some? && KeyOf(old(legacy).value.content) == ""
              && (old(canonical).None? || old(legacy).value.mtime > old(canonical).value.mtime) ==>
                && key == (if old(canonical).Some? then KeyOf(old(canonical).value.content) else "")
                && Guarded(old(canonical), canonical) && legacy.Some?
                && legacy.value.content == old(legacy).value.content
      ensures if st == Leaked then OneLeft(old(temps), temps) else temps == old(temps)
    {
      hide KeyOf, MigrateFate, Steps, SameKey, CanonicalWhole, EffectiveKey;
      key := "";
      ghost var start := Current();
      SameKeyAsItself(start, legacyGiven);
      if legacy.Some? { KeyOfKey(legacy.value.content); }
      st := MigrateLegacy(legacyGiven);
      if st != Done {
        return st, "";
      }
      ghost var mid := Current();
      assert history[|history| - 1] == mid;
      NoSteps(faults, tick);
      if canonical.Some? {
        st, key := ReadCanonical(legacyGiven);
      }
      GuardingKeepsKey(start, mid, Current(), legacyGiven);
    }

    /** `read_key`: a successful read answers the key the state stands for, and no step changes that key. */
    method ReadKey(legacyGiven: bool) returns (st: Status, key: string)
      requires Valid()
      modifies `canonical, `legacy, `temps, `nextTemp, `tick, `history
      ensures Valid() && old(history) <= history
      ensures Trail(history, |old(history)|, old(Current()), legacyGiven, None)
      ensures RetiresAlong(history, |old(history)|)
      ensures NoFaults() ==> st == Done
      ensures st == Done ==> key == EffectiveKey(Seen(old(Current()), legacyGiven))
      ensures st == Done && !legacyGiven ==>
                && legacy == old(legacy) && Guarded(old(canonical), canonical)
                && key == (if old(canonical).Some? then KeyOf(old(canonical).value.content) else "")
      ensures st == Done && legacyGiven && old(canonical).Some?
              && (old(legacy).None? || old(legacy).value.mtime <= old(canonical).value.mtime) ==>
                key == KeyOf(old(canonical).value.content) && Guarded(old(canonical), canonical) && legacy.None?
      ensures st == Done && legacyGiven && old(legacy).Some? && KeyOf(old(legacy).value.content) != ""
              && (old(canonical).None? || old(legacy).value.mtime > old(canonical).value.mtime) ==>
                && key == KeyOf(old(legacy).value.content) && legacy.None?
                && canonical.Some? && canonical.value.content == key && canonical.value.guarded
      ensures st == Done && legacyGiven && old(legacy).Some? && KeyOf(old(legacy).value.content) == ""
              && (old(canonical).None? || old(legacy).value.mtime > old(canonical).value.mtime) ==>
                && key == (if old(canonical).Some? then KeyOf(old(canonical).value.content) else "")
                && Guarded(old(canonical), canonical) && legacy.Some?
                && legacy.value.content == old(legacy).value.content
      ensures var d := Seen(old(Current()), legacyGiven);
              && Fate(st, tick) == ReadFate(faults, old(tick), d)
              && (st == Done <==> AllOk(faults, old(tick), ReadEnd(old(tick), d)))
              && (st == Leaked <==> Leaks(faults, old(tick), ReadPublishes(old(tick), d)))
      ensures if st == Leaked then OneLeft(old(temps), temps) else temps == old(temps)
    {
      hide KeyOf, ReadLockedFate, Steps, Leaks, AllOk, ReadEnd, ReadPublishes;
      ReadEndings(faults, tick, Seen(Current(), legacyGiven));
      if canonical.None? && (!legacyGiven || legacy.None?) {
        return Done, "";
      }
      var locked := Lock();
      if !locked {
        return Raised, "";
      }
      st, key := ReadLocked(legacyGiven);
      st := Release(st);
    }
  }

  /** The same file, or the same content guarded. */
  predicate Guarded(before: Option<File>, now: Option<File>) {
    now == before || (before.Some? && now == Some(before.value.(guarded := true)))
  }

  /** One new temporary file stayed beside the others, empty or guarded. */
  ghost predicate OneLeft(before: map<nat, File>, now: map<nat, File>) {
    exists t :: t !in before && t in now && now - {t} == before && (now[t].content == "" || now[t].guarded)
  }

  lemma SameKeyAsItself(d: Disk, legacyGiven: bool)
    ensures SameKey(d, d, legacyGiven) && CanonicalWhole(d, d, None)
  {
  }

  /** Guarding the canonical file once no legacy key is pending: it is read for the key the state stands for. */
  lemma GuardingKeepsKey(start: Disk, mid: Disk, now: Disk, legacyGiven: bool)
    requires SameKey(start, mid, legacyGiven) && CanonicalWhole(start, mid, None)
    requires legacyGiven && mid.legacy.Some? ==> KeyOf(mid.legacy.value.content) == ""
    requires
      || now == mid
      || (mid.canonical.Some? && now == mid.(canonical := Some(mid.canonical.value.(guarded := true))))
    ensures SameKey(start, now, legacyGiven) && CanonicalWhole(start, now, None) && RetiresSafely(mid, now)
    ensures EffectiveKey(Seen(start, legacyGiven)) ==
            if mid.canonical.Some? then KeyOf(mid.canonical.value.content) else ""
  {
    hide KeyOf;
  }

  lemma StoreTrail(start: Disk, mid: Disk, h: seq<Disk>, from: nat, cut: nat, key: string, legacyGiven: bool)
    requires SameKey(start, mid, legacyGiven) && CanonicalWhole(start, mid, None) && start.temps == mid.temps
    requires legacyGiven && mid.legacy.Some? ==> KeyOf(mid.legacy.value.content) == ""
    requires forall i :: from <= i < |h| ==> Publishing(mid, h[i], key, i >= cut)
    ensures forall i :: from <= i < |h| ==>
              EffectiveKey(Seen(h[i], legacyGiven)) ==
              if i >= cut then KeyOf(key) else EffectiveKey(Seen(start, legacyGiven))
    ensures forall i :: from <= i < |h| ==> TempsSafe(start.temps, h[i].temps) && CanonicalWhole(start, h[i], Some(key))
  {
    hide KeyOf;
    forall i | from <= i < |h|
      ensures EffectiveKey(Seen(h[i], legacyGiven)) ==
              if i >= cut then KeyOf(key) else EffectiveKey(Seen(start, legacyGiven))
      ensures TempsSafe(start.temps, h[i].temps) && CanonicalWhole(start, h[i], Some(key))
    {
      StoringGivesKey(mid, h[i], key, i >= cut, legacyGiven);
    }
  }

  /** The canonical file alone already gives the key. */
  predicate KeyIsCanonical(d: Disk) {
    d.canonical.Some? && KeyOf(d.canonical.value.content) == EffectiveKey(d)
  }

  lemma PublishTrail(start: Disk, mid: Disk, h: seq<Disk>, from: nat, cut: nat)
    requires start.legacy.Some? && mid == start.(legacy := Some(start.legacy.value.(guarded := true)))
    requires LegacyIsNewer(start) && KeyOf(start.legacy.value.content) != ""
    requires forall i :: from <= i < |h| ==> Publishing(mid, h[i], KeyOf(start.legacy.value.content), i >= cut)
    ensures Trail(h, from, start, true, None)
    ensures forall i :: from <= i < |h| && i >= cut ==> KeyIsCanonical(h[i])
  {
    hide KeyOf;
    forall i | from <= i < |h|
      ensures SameKey(start, h[i], true) && CanonicalWhole(start, h[i], None) && (i >= cut ==> KeyIsCanonical(h[i]))
    {
      MigratingKeepsKey(mid, h[i], i >= cut);
    }
  }

  /** From index `lo` on every recorded state still stands for the key of `before`, keeps secrets out of
      unguarded temporary files and has a whole canonical file. */
  ghost predicate Trail(h: seq<Disk>, lo: nat, before: Disk, legacyGiven: bool, key: Option<string>) {
    forall i :: lo <= i < |h| ==>
      SameKey(before, h[i], legacyGiven) && TempsSafe(before.temps, h[i].temps) && CanonicalWhole(before, h[i], key)
  }

  /** From index `lo` on the legacy file goes only when the canonical one already gives the key. */
  ghost predicate RetiresAlong(h: seq<Disk>, lo: nat) {
    forall i :: 0 < i && lo <= i < |h| ==> RetiresSafely(h[i - 1], h[i])
  }
}
