/** What the tools of the process get once a migration has failed. */
module MigrationTools {
  import opened Wrappers
  import opened ProcessBackend
  import opened MigrationProtocol
  import opened MigrationTheorems

  // ------------------------------------------------------------------ the last rebuild of a run

  predicate NoRebuild(s: Sys, es: seq<Event>)
    decreases |es|
  {
    es == [] || (!Rebuilds(s, es[0]) && NoRebuild(Next(s, es[0]), es[1..]))
  }

  /** The run rebuilds, and the last of its rebuilds raises. */
  predicate LastRebuildRaised(s: Sys, es: seq<Event>)
    decreases |es|
  {
    es != [] &&
    (|| LastRebuildRaised(Next(s, es[0]), es[1..])
     || (Rebuilds(s, es[0]) && Raises(s, es[0]) && NoRebuild(Next(s, es[0]), es[1..])))
  }

  lemma {:induction false} RaisedIsARebuild(s: Sys, es: seq<Event>)
    requires LastRebuildRaised(s, es)
    ensures !NoRebuild(s, es)
    decreases |es|
  {
    hide Next, Rebuilds, Raises;
    if LastRebuildRaised(Next(s, es[0]), es[1..]) { RaisedIsARebuild(Next(s, es[0]), es[1..]); }
  }

  lemma StaleAfterRebuild(s: Sys, e: Event)
    requires Inv(s) && Rebuilds(s, e)
    ensures Next(s, e).stale <==> Raises(s, e) && s.sh.common.Some?
  {
    hide Next, Rebuild, Raises;
    AfterRebuild(s, e);
    RaisesIffNotOk(s, e);
  }

  /** A run that rebuilds ends stale exactly when its last rebuild raised, provided rebuilds only raise over a
      cached object; one that does not rebuild ends as it began. */
  lemma {:induction false} StaleIffLastRebuildRaised(s: Sys, es: seq<Event>)
    requires Inv(s) && RaisesOverCached(s, es)
    ensures Run(s, es).stale <==> if NoRebuild(s, es) then s.stale else LastRebuildRaised(s, es)
    decreases |es|
  {
    hide Next, Inv, Rebuilds, Raises;
    if es != [] {
      var s' := Next(s, es[0]);
      StepKeepsInv(s, es[0]);
      StaleIffLastRebuildRaised(s', es[1..]);
      if Rebuilds(s, es[0]) {
        StaleAfterRebuild(s, es[0]);
        if LastRebuildRaised(s', es[1..]) { RaisedIsARebuild(s', es[1..]); }
      } else {
        OtherEventsKeepStale(s, es[0]);
        if LastRebuildRaised(s', es[1..]) { RaisedIsARebuild(s', es[1..]); }
      }
    }
  }

  /** Every rebuild of the run that raises does so while the common cache holds an object. */
  predicate RaisesOverCached(s: Sys, es: seq<Event>)
    decreases |es|
  {
    es == [] ||
    ((Rebuilds(s, es[0]) && Raises(s, es[0]) ==> s.sh.common.Some?) && RaisesOverCached(Next(s, es[0]), es[1..]))
  }

  // ------------------------------------------------------------------ the kind of a backend that stays

  predicate CommonIsLocal(sh: Shared) {
    sh.common.Some? && sh.common.value < |sh.objs| && sh.objs[sh.common.value].LocalBackend?
  }

  predicate GoesBack(pc: Pc) {
    pc.Reverting? || pc.Restoring?
  }

  /** What a running migration that began in `s0` can leave cached. */
  predicate Cached(s0: Sys, s: Sys) {
    && (s.mig.Forwarded? || s.mig.Importing? ==> !s.stale)
    && (s.mig.Importing? ==> s.sh.common.Some?)
    && (GoesBack(s.mig) && s.mig.call.target == Local ==> CommonIsLocal(s.sh))
    && (GoesBack(s.mig) && s.mig.call.target == Remote && s.stale ==> (CommonIsLocal(s.sh) <==> s0.sh.mode == Local))
  }

  /** In a coherent state that is not stale a cached object is of the mode's kind. */
  lemma CachedIsOfTheMode(s: Sys)
    requires Inv(s) && !s.stale && s.sh.common.Some?
    ensures CommonIsLocal(s.sh) <==> s.sh.mode == Local
  {
  }

  lemma CachedStep(s0: Sys, s: Sys, e: Event)
    requires Inv(s) && During(s0, s) && Cached(s0, s) && !Next(s, e).mig.Idle?
    ensures Cached(s0, Next(s, e))
    ensures Rebuilds(s, e) && Raises(s, e) ==> s.sh.common.Some?
  {
    hide Next, Inv, During, Cached, Rebuilds, Raises, Takes;
    if Rebuilds(s, e) {
      CachedRebuild(s0, s, e);
    } else if Takes(e) {
      CachedTake(s0, s, e);
    } else if e.SwitchCommit? {
      CachedCommit(s0, s, e);
    } else {
      CachedOther(s0, s, e);
    }
  }

  lemma CachedRebuild(s0: Sys, s: Sys, e: Event)
    requires Inv(s) && During(s0, s) && Cached(s0, s) && Rebuilds(s, e)
    ensures !Next(s, e).mig.Idle? ==> Cached(s0, Next(s, e))
    ensures Raises(s, e) ==> s.sh.common.Some?
    ensures Next(s, e).stale && GoesBack(s.mig) ==> CommonIsLocal(Next(s, e).sh)
  {
    hide Rebuild, SourcePick, LiveWorkspace;
    AfterRebuild(s, e);
    RaisesIffNotOk(s, e);
    RebuildKeeps(s.sh, Wanted(s, e).0, Wanted(s, e).1, e.env);
    if s.mig.Saved? && !s.stale { CachedIsOfTheMode(s); }
  }

  lemma CachedTake(s0: Sys, s: Sys, e: Event)
    requires Inv(s) && During(s0, s) && Cached(s0, s) && Takes(e) && !Next(s, e).mig.Idle?
    ensures Cached(s0, Next(s, e))
  {
    hide GetBackend, SourcePick, LiveWorkspace;
    AfterTake(s, e);
    GetBackendKeeps(s.sh, e.env);
    if s.mig.Forwarded? && e.TakeTarget? { LocalIsAlwaysBuilt(s.sh, e.env); }
  }

  lemma LocalIsAlwaysBuilt(sh: Shared, env: BuildEnv)
    ensures sh.mode == Local ==> GetBackend(sh, env).1.Some?
  {
  }

  lemma CachedCommit(s0: Sys, s: Sys, e: Event)
    requires Inv(s) && Cached(s0, s) && e.SwitchCommit?
    ensures Cached(s0, Next(s, e))
  {
    AfterCommit(s, e);
  }

  lemma CachedOther(s0: Sys, s: Sys, e: Event)
    requires Inv(s) && During(s0, s) && Cached(s0, s) && !Rebuilds(s, e) && !Takes(e) && !e.SwitchCommit?
    requires !Next(s, e).mig.Idle?
    ensures Cached(s0, Next(s, e))
  {
    hide Lookup, SourcePick, LiveWorkspace;
    AfterOther(s, e);
    if s.mig.Importing? { CachedIsOfTheMode(s); }
  }

  /** The last event of a failing migration: what it leaves stale is local, unless a hosted process went to remote. */
  lemma CachedAtTheEnd(s0: Sys, s: Sys, e: Event)
    requires Inv(s) && During(s0, s) && Cached(s0, s) && Fails(Next(s, e))
    ensures var t := Next(s, e);
            t.stale ==> t.sh.common.Some? && t.sh.mode == Remote && (CommonIsLocal(t.sh) <==> s0.sh.mode != Hosted)
    ensures Rebuilds(s, e) && Raises(s, e) ==> s.sh.common.Some?
  {
    hide Next, Inv, During, Cached, Rebuilds, Raises, CommonIsLocal, Fails;
    StepKeepsInv(s, e);
    EndingEvents(s0, s, e);
    if Rebuilds(s, e) {
      CachedRebuild(s0, s, e);
      RebuildOfARevert(s0, s, e);
    } else {
      UnsavedEnding(s0, s);
    }
    StaleIsRemote(Next(s, e));
  }

  /** A migration fails by a revert that cannot save, or at the rebuild of one that can. */
  lemma EndingEvents(s0: Sys, s: Sys, e: Event)
    requires During(s0, s) && Fails(Next(s, e))
    ensures GoesBack(s.mig)
    ensures !Rebuilds(s, e) ==> s.mig.Reverting? && Next(s, e).sh == s.sh && Next(s, e).stale == s.stale
  {
    hide Rebuild, SourcePick, LiveWorkspace, GetBackend, Lookup;
  }

  lemma RebuildOfARevert(s0: Sys, s: Sys, e: Event)
    requires Inv(s) && During(s0, s) && Rebuilds(s, e) && GoesBack(s.mig)
    ensures Next(s, e).sh.mode == s0.sh.mode
  {
    hide Next, Rebuild, SourcePick;
    AfterRebuild(s, e);
    RebuildKeeps(s.sh, Wanted(s, e).0, Wanted(s, e).1, e.env);
  }

  lemma UnsavedEnding(s0: Sys, s: Sys)
    requires Inv(s) && During(s0, s) && Cached(s0, s) && s.mig.Reverting?
    ensures s.stale ==> (CommonIsLocal(s.sh) <==> s0.sh.mode != Hosted)
  {
  }

  lemma StaleIsRemote(s: Sys)
    requires Inv(s)
    ensures s.stale ==> s.sh.common.Some? && s.sh.mode == Remote
  {
  }

  // ------------------------------------------------------------------ over the whole migration

  lemma {:induction false} CachedInFlight(s0: Sys, s: Sys, es: seq<Event>)
    requires Inv(s) && During(s0, s) && Cached(s0, s) && Flying(s, es)
    ensures Inv(Run(s, es)) && During(s0, Run(s, es)) && Cached(s0, Run(s, es)) && RaisesOverCached(s, es)
    decreases |es|
  {
    hide Next, Inv, During, Cached, Rebuilds, Raises;
    if es != [] {
      assert !Next(s, es[0]).mig.Idle?;
      StepKeepsInv(s, es[0]);
      MigrationStep(s0, s, es[0]);
      CachedStep(s0, s, es[0]);
      CachedInFlight(s0, Next(s, es[0]), es[1..]);
    }
  }

  /** No forward rebuild yet. */
  predicate NotYetAcross(pc: Pc) {
    pc.Chosen? || pc.Sourced? || pc.Exporting? || pc.Exported? || pc.Saved?
  }

  lemma AcrossByRebuild(s: Sys, e: Event)
    requires NotYetAcross(s.mig) && !Rebuilds(s, e)
    ensures NotYetAcross(Next(s, e).mig) || (Next(s, e).mig.Idle? && !Fails(Next(s, e)))
  {
    hide GetBackend, Lookup, SourcePick, ExportReads;
  }

  lemma {:induction false} FailureFollowsARebuild(s: Sys, es: seq<Event>, last: Event)
    requires Flying(s, es) && NotYetAcross(s.mig) && Fails(Next(Run(s, es), last))
    ensures !NoRebuild(s, es + [last])
    decreases |es|
  {
    hide Next, Rebuilds, Fails;
    if es == [] {
      assert es + [last] == [last] && [last][1..] == [];
      if !Rebuilds(s, last) { AcrossByRebuild(s, last); FailsIsIdle(Next(s, last)); }
    } else {
      assert (es + [last])[1..] == es[1..] + [last];
      if !Rebuilds(s, es[0]) {
        AcrossByRebuild(s, es[0]);
        assert !Next(s, es[0]).mig.Idle?;
        FailureFollowsARebuild(Next(s, es[0]), es[1..], last);
      }
    }
  }

  lemma FailsIsIdle(s: Sys)
    requires Fails(s)
    ensures s.mig.Idle? && !NotYetAcross(s.mig)
  {
  }

  lemma {:induction false} RaisesOverCachedAppend(s: Sys, es: seq<Event>, e: Event)
    requires RaisesOverCached(s, es)
    requires var t := Run(s, es); Rebuilds(t, e) && Raises(t, e) ==> t.sh.common.Some?
    ensures RaisesOverCached(s, es + [e]) && Run(s, es + [e]) == Next(Run(s, es), e)
    decreases |es|
  {
    hide Next, Rebuilds, Raises;
    if es == [] {
      assert es + [e] == [e] && [e][1..] == [];
      assert Run(Next(s, e), []) == Next(s, e);
    } else {
      assert (es + [e])[1..] == es[1..] + [e];
      RaisesOverCachedAppend(Next(s, es[0]), es[1..], e);
    }
  }

  lemma BeginIsCached(s0: Sys, to: Mode)
    requires s0.mig.Idle? && !Next(s0, Begin(to)).mig.Idle?
    ensures Cached(s0, Next(s0, Begin(to))) && During(s0, Next(s0, Begin(to))) && NotYetAcross(Next(s0, Begin(to)).mig)
  {
  }

  /** After a migration that fails, with anything interleaved, a tool gets a backend of another kind than the process
      mode selects if and only if the last rebuild of the migration raised, in a process that was not hosted. It is then
      the object from before that rebuild; in every other case the tool gets one of the mode's kind, or none when none
      can be built. The mode is the one from before the call whenever a revert saved it back. */
  lemma FailedMigrationLeavesTheModesBackendIff(s0: Sys, to: Mode, mid: seq<Event>, last: Event, env: BuildEnv)
    requires Inv(s0) && OneMigration(s0, to, mid, last) && Fails(Next(Before(s0, to, mid), last))
    ensures var t := Next(Before(s0, to, mid), last);
            var (sh, got) := GetBackend(t.sh, env);
            var raised := LastRebuildRaised(Next(s0, Begin(to)), mid + [last]);
            && (got.Some? ==> got.value < |sh.objs|)
            && (raised ==> got.Some? && sh == t.sh && got == t.sh.common)
            && (got.Some? && (sh.objs[got.value].LocalBackend? <==> t.sh.mode != Local)
                <==> raised && s0.sh.mode != Hosted)
            && (SavedBack(Next(s0, Begin(to)), mid + [last]) ==> t.sh.mode == s0.sh.mode)
  {
    hide Next, Run, Inv, During, Cached, Rebuilds, Raises, Fails, GetBackend, SavedBack, LastRebuildRaised, NoRebuild;
    hide RaisesOverCached;
    var s1, s := Next(s0, Begin(to)), Before(s0, to, mid);
    var t := Next(s, last);
    FlyingEndsFlying(s1, mid);
    StepKeepsInv(s0, Begin(to));
    BeginIsCached(s0, to);
    CachedInFlight(s0, s1, mid);
    CachedAtTheEnd(s0, s, last);
    RaisesOverCachedAppend(s1, mid, last);
    StaleIffLastRebuildRaised(s1, mid + [last]);
    FailureFollowsARebuild(s1, mid, last);
    StepKeepsInv(s, last);
    FailingMigrationRestoresIffSavedBack(s0, to, mid, last);
    ToolsGet(t, env);
  }

  /** What a tool gets in any state that keeps the invariant. */
  lemma ToolsGet(t: Sys, env: BuildEnv)
    requires Inv(t)
    ensures var (sh, got) := GetBackend(t.sh, env);
            && (got.Some? ==> got.value < |sh.objs|)
            && (t.stale ==> got.Some? && sh == t.sh && got == t.sh.common
                            && (sh.objs[got.value].LocalBackend? <==> CommonIsLocal(t.sh)))
            && (!t.stale && got.Some? ==> (sh.objs[got.value].LocalBackend? <==> t.sh.mode == Local))
  {
    hide GetBackend;
    GetBackendKeeps(t.sh, env);
  }

  // ------------------------------------------------------------------ a revert whose rebuild raises

  lemma {:induction false} FlyingOn(s: Sys, es: seq<Event>, e: Event)
    requires Flying(s, es) && !Next(Run(s, es), e).mig.Idle?
    ensures Flying(s, es + [e]) && Run(s, es + [e]) == Next(Run(s, es), e)
    decreases |es|
  {
    hide Next;
    if es == [] {
      assert es + [e] == [e] && [e][1..] == [];
      NoFlight(Next(s, e));
    } else {
      assert (es + [e])[1..] == es[1..] + [e];
      FlyingOn(Next(s, es[0]), es[1..], e);
    }
  }

  lemma RevertSaves(s: Sys)
    requires s.mig.Reverting? && !s.mig.again
    ensures Next(s, RevertSave(true)).mig == Restoring(s.mig.call, false)
    ensures Next(s, RevertSave(true)).sh == s.sh.(cfgMode := s.mig.call.original)
  {
    hide GetBackend, Rebuild, SourcePick, ExportReads;
  }

  lemma RevertRaises(s: Sys, bare: BuildEnv)
    requires s.mig.Restoring? && !s.mig.again && s.mig.call.source == Remote && s.mig.call.src < |s.sh.objs|
    requires s.sh.objs[s.mig.call.src].RemoteBackend? && s.sh.objs[s.mig.call.src].pick != ""
    requires !bare.apiKey && !bare.config
    ensures var t := Next(s, RevertRebuild(bare));
            t.mig == Idle(Stranded(true)) && t.sh == s.sh.(mode := Remote, dispatch := None)
  {
  }

  /** The failing input: a remote process with a pick, an import that raises, a revert that saves the config and then
      finds neither key nor config to build from. Both modes are remote again and every tool is on the local object. */
  lemma RaisingRevertKeepsTheLocalBackend(env: BuildEnv, bare: BuildEnv, later: BuildEnv)
    requires (env.apiKey || env.config) && env.envWorkspace != "" && !bare.apiKey && !bare.config
    ensures var s0, last := Start(Remote, "remote", ""), RevertRebuild(bare);
            var es := UntilImportRaises(env) + [RevertSave(true)];
            var t := Next(Before(s0, Local, es), last);
            var (sh, got) := GetBackend(t.sh, later);
            && OneMigration(s0, Local, es, last) && t.mig == Idle(Stranded(true))
            && t.sh.mode == Remote && t.sh.cfgMode == "remote"
            && got == Some(1) && |sh.objs| == 2 && sh.objs[1] == LocalBackend
  {
    hide Next, Run, Flying;
    var s1 := Next(Start(Remote, "remote", ""), Begin(Local));
    ImportRaisedState(env);
    var s := Run(s1, UntilImportRaises(env));
    RevertSaves(s);
    FlyingOn(s1, UntilImportRaises(env), RevertSave(true));
    RevertRaises(Next(s, RevertSave(true)), bare);
  }
}
