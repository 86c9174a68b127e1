/** What holds over whole interleaved runs of the migration protocol. */
module MigrationTheorems {
  import opened Wrappers
  import opened ProcessBackend
  import opened MigrationProtocol

  /** A process before any backend was built. */
  function Start(mode: Mode, cfgMode: string, parked: string): Sys {
    Sys(Shared([], None, None, mode, cfgMode, parked), map[], Idle(NotRun), [], false)
  }

  lemma {:induction false} RunKeepsInv(s: Sys, es: seq<Event>)
    requires Inv(s)
    ensures Inv(Run(s, es))
    decreases |es|
  {
    if es != [] {
      StepKeepsInv(s, es[0]);
      RunKeepsInv(Next(s, es[0]), es[1..]);
    }
  }

  // ------------------------------------------------------------------ coherence

  /** In every interleaving, whenever the lock is free: the caches never name two objects, a cached
      process backend is of the kind the mode selects, and the common cache outlives the dispatch
      cache exactly while the last rebuild is one that raised over it. */
  lemma CachesStayCoherent(mode: Mode, cfgMode: string, parked: string, es: seq<Event>)
    ensures var s := Run(Start(mode, cfgMode, parked), es);
            && InRange(s.sh)
            && (s.sh.common.None? || s.sh.dispatch.None? || s.sh.common == s.sh.dispatch)
            && (s.sh.dispatch.Some? ==> (s.sh.objs[s.sh.dispatch.value].LocalBackend? <==> s.sh.mode == Local))
            && (s.stale <==> s.sh.common.Some? && s.sh.dispatch.None?)
  {
    RunKeepsInv(Start(mode, cfgMode, parked), es);
  }

  /** The event rebuilds the process backend. */
  predicate Rebuilds(s: Sys, e: Event) {
    (e.Forward? && s.mig.Saved?) || (e.RevertRebuild? && s.mig.Restoring?)
  }

  /** The mode and workspace a rebuild asks for. */
  function Wanted(s: Sys, e: Event): (Mode, string)
    requires Rebuilds(s, e)
  {
    if e.Forward? then (s.mig.call.target, s.mig.call.carried)
    else (s.mig.call.source, SourcePick(s, s.mig.call.source, s.mig.call.src))
  }

  /** The rebuild builds eagerly and finds neither a key nor a config. */
  predicate Raises(s: Sys, e: Event)
    requires Rebuilds(s, e)
  {
    Wanted(s, e).0 == Remote && Wanted(s, e).1 != "" && !e.env.apiKey && !e.env.config
  }

  /** The event fetches the backend. */
  predicate Takes(e: Event) {
    e.ToolCall? || e.SwitchTake? || e.SwitchLabel? || e.TakeSource? || e.TakeTarget?
  }

  // What one event does to the shared state, kind by kind.

  lemma AfterRebuild(s: Sys, e: Event)
    requires Rebuilds(s, e)
    ensures var (sh, ok) := Rebuild(s.sh, Wanted(s, e).0, Wanted(s, e).1, e.env);
            Next(s, e).sh == sh && Next(s, e).stale == (!ok && s.sh.common.Some?) && Next(s, e).switches == s.switches
  {
    hide Rebuild, SourcePick;
  }

  lemma AfterTake(s: Sys, e: Event)
    requires Takes(e)
    ensures Next(s, e).stale == s.stale && (Next(s, e).sh == s.sh || Next(s, e).sh == GetBackend(s.sh, e.env).0)
  {
    hide GetBackend;
  }

  lemma AfterCommit(s: Sys, e: Event)
    requires e.SwitchCommit?
    ensures var s' := Next(s, e);
            && s'.stale == s.stale
            && if Lands(s, e.k) && s.sh.objs[s.switches[e.k].backend].RemoteBackend? then
                 var w := s.switches[e.k];
                 && s'.sh == s.sh.(objs := s.sh.objs[w.backend := RemoteBackend(w.workspace)])
                 && s'.switches == s.switches[e.k := Switched(w.backend, w.workspace, w.listed)]
               else s'.sh == s.sh
  {
  }

  /** Only the config mode and the parked workspace can change by any other event. */
  lemma AfterOther(s: Sys, e: Event)
    requires !Rebuilds(s, e) && !Takes(e) && !e.SwitchCommit?
    ensures Next(s, e).stale == s.stale
    ensures Next(s, e).sh.(cfgMode := s.sh.cfgMode, parked := s.sh.parked) == s.sh
  {
    hide Lookup, ExportReads, SourcePick;
  }

  lemma OtherEventsKeepStale(s: Sys, e: Event)
    requires Inv(s) && !Rebuilds(s, e)
    ensures Next(s, e).stale == s.stale
  {
    hide Next, Inv, Rebuilds, Takes;
    if Takes(e) {
      AfterTake(s, e);
    } else if e.SwitchCommit? {
      AfterCommit(s, e);
    } else {
      AfterOther(s, e);
    }
  }

  /** The state where only the common cache is left is entered by a raising rebuild alone, and a
      rebuild that returns always leaves it. */
  lemma StaleOnlyByRaisedBuild(s: Sys, e: Event)
    requires Inv(s)
    ensures !s.stale && Next(s, e).stale ==> Rebuilds(s, e) && Raises(s, e) && s.sh.common.Some?
    ensures Rebuilds(s, e) && !Raises(s, e) ==> !Next(s, e).stale && Next(s, e).sh.common.None?
    ensures s.stale && !Next(s, e).stale ==> Rebuilds(s, e) && !Raises(s, e)
  {
    hide Next, Rebuild, Lands;
    if Rebuilds(s, e) {
      AfterRebuild(s, e);
      RebuildKeeps(s.sh, Wanted(s, e).0, Wanted(s, e).1, e.env);
      RaisesIffNotOk(s, e);
    } else {
      OtherEventsKeepStale(s, e);
    }
  }

  lemma RaisesIffNotOk(s: Sys, e: Event)
    requires Rebuilds(s, e)
    ensures Raises(s, e) <==> !Rebuild(s.sh, Wanted(s, e).0, Wanted(s, e).1, e.env).1
  {
    hide Wanted;
  }

  // ------------------------------------------------------------------ switches

  /** The commit of switch `k` lands: its object is still the one every tool gets. */
  predicate Lands(s: Sys, k: nat) {
    && k in s.switches && s.switches[k].Resolved?
    && s.switches[k].backend < |s.sh.objs|
    && s.sh.common == Some(s.switches[k].backend)
  }

  /** A reply "Switched" means a listed workspace was written onto the object every tool then gets. */
  lemma SwitchedIsLive(s: Sys, k: nat, env: BuildEnv)
    requires Inv(s) && k in s.switches && s.switches[k].Resolved?
    ensures var s' := Next(s, SwitchCommit(k));
            var w := s.switches[k];
            if Lands(s, k) && s.sh.objs[w.backend].RemoteBackend? then
              && s'.switches[k] == Switched(w.backend, w.workspace, w.listed) && w.workspace in w.listed
              && s'.sh.objs[w.backend] == RemoteBackend(w.workspace)
              && GetBackend(s'.sh, env) == (s'.sh, Some(w.backend))
            else
              && !s'.switches[k].Switched? && s'.sh.objs == s.sh.objs
  {
    if Lands(s, k) { assert s.sh.objs[s.switches[k].backend := s.sh.objs[s.switches[k].backend]] == s.sh.objs; }
  }

  /** The event replaces what every tool gets, or its pick. */
  predicate Disturbs(s: Sys, e: Event) {
    || (e.SwitchCommit? && Lands(s, e.k))
    || (Rebuilds(s, e) && !Raises(s, e))
  }

  /** No event of the run disturbs. */
  predicate Quiet(s: Sys, es: seq<Event>)
    decreases |es|
  {
    es == [] || (!Disturbs(s, es[0]) && Quiet(Next(s, es[0]), es[1..]))
  }

  lemma QuietStep(s: Sys, e: Event)
    requires Inv(s) && s.sh.common.Some? && !Disturbs(s, e)
    ensures Next(s, e).sh.common == s.sh.common && Next(s, e).sh.objs == s.sh.objs
  {
    hide Next, Rebuild, Lands;
    if Rebuilds(s, e) {
      AfterRebuild(s, e);
      RebuildKeeps(s.sh, Wanted(s, e).0, Wanted(s, e).1, e.env);
      RaisesIffNotOk(s, e);
    } else if Takes(e) {
      AfterTake(s, e);
      GetBackendKeeps(s.sh, e.env);
    } else if e.SwitchCommit? {
      AfterCommit(s, e);
    } else {
      AfterOther(s, e);
    }
  }

  /** After "Switched", any run of tool calls, lookups, refused switches and failed rebuilds leaves
      every tool on that object and that pick; only another commit or a finished rebuild ends it. */
  lemma {:induction false} SwitchedPickHolds(s: Sys, es: seq<Event>, id: nat, workspace: string, env: BuildEnv)
    requires Inv(s) && s.sh.common == Some(id) && s.sh.objs[id] == RemoteBackend(workspace)
    requires Quiet(s, es)
    ensures var t := Run(s, es);
            && GetBackend(t.sh, env) == (t.sh, Some(id)) && id < |t.sh.objs|
            && t.sh.objs[id] == RemoteBackend(workspace)
    decreases |es|
  {
    if es != [] {
      StepKeepsInv(s, es[0]);
      QuietStep(s, es[0]);
      SwitchedPickHolds(Next(s, es[0]), es[1..], id, workspace, env);
    }
  }

  /** No event but a commit answered "Switched" changes the pick of an existing object; in
      particular no event of a switch that ends refused does. */
  lemma OnlySwitchedChangesAPick(s: Sys, e: Event, i: nat)
    requires Inv(s) && i < |s.sh.objs|
    ensures var s' := Next(s, e);
            && |s.sh.objs| <= |s'.sh.objs|
            && (s'.sh.objs[i] != s.sh.objs[i] ==>
                  && e.SwitchCommit? && Lands(s, e.k) && s.switches[e.k].backend == i
                  && s'.switches[e.k].Switched? && s'.sh.objs[i] == RemoteBackend(s'.switches[e.k].workspace))
  {
    hide Next, Rebuild, GetBackend;
    if Rebuilds(s, e) {
      AfterRebuild(s, e);
      RebuildKeeps(s.sh, Wanted(s, e).0, Wanted(s, e).1, e.env);
    } else if Takes(e) {
      AfterTake(s, e);
      GetBackendKeeps(s.sh, e.env);
    } else if e.SwitchCommit? {
      AfterCommit(s, e);
    } else {
      AfterOther(s, e);
    }
  }

  /** An object neither cache holds is never written again: a switch still resolving on it is
      refused, and the pick `revert` reads from the source is final once the rebuild returned. */
  lemma {:induction false} OrphanIsFrozen(s: Sys, es: seq<Event>, i: nat)
    requires Inv(s) && i < |s.sh.objs| && s.sh.common != Some(i) && s.sh.dispatch != Some(i)
    ensures var t := Run(s, es);
            i < |t.sh.objs| && t.sh.objs[i] == s.sh.objs[i] && t.sh.common != Some(i) && t.sh.dispatch != Some(i)
    decreases |es|
  {
    if es != [] {
      OnlySwitchedChangesAPick(s, es[0], i);
      OrphanStaysOut(s, es[0], i);
      StepKeepsInv(s, es[0]);
      OrphanIsFrozen(Next(s, es[0]), es[1..], i);
    }
  }

  lemma OrphanStaysOut(s: Sys, e: Event, i: nat)
    requires Inv(s) && i < |s.sh.objs| && s.sh.common != Some(i) && s.sh.dispatch != Some(i)
    ensures Next(s, e).sh.common != Some(i) && Next(s, e).sh.dispatch != Some(i)
  {
    hide Next, GetBackend;
    if Rebuilds(s, e) {
      AfterRebuild(s, e);
    } else if Takes(e) {
      AfterTake(s, e);
      OrphanStaysOutOfTakes(s.sh, e.env, i);
    } else if e.SwitchCommit? {
      AfterCommit(s, e);
    } else {
      AfterOther(s, e);
    }
  }

  lemma OrphanStaysOutOfTakes(sh: Shared, env: BuildEnv, i: nat)
    requires i < |sh.objs| && sh.common != Some(i) && sh.dispatch != Some(i)
    ensures GetBackend(sh, env).0.common != Some(i) && GetBackend(sh, env).0.dispatch != Some(i)
  {
  }

  // ------------------------------------------------------------------ one migration

  predicate SameSettings(a: Shared, b: Shared) {
    a.mode == b.mode && a.cfgMode == b.cfgMode && a.parked == b.parked
  }

  predicate CallFrom(s0: Sys, c: Call) {
    c.source == s0.sh.mode && c.target != c.source && c.target != Hosted
  }

  /** The modes are at the target's values. */
  predicate AtTarget(s: Sys, c: Call) {
    s.sh.mode == c.target && s.sh.cfgMode == ModeName(c.target)
  }

  /** Where a migration that began in `s0` stands while it is running. */
  predicate During(s0: Sys, s: Sys) {
    && s.sh.parked == s0.sh.parked
    && !s.mig.Idle?
    && (s.mig.Chosen? ==>
          && SameSettings(s.sh, s0.sh) && s.mig.source == s0.sh.mode
          && s.mig.target != s.mig.source && s.mig.target != Hosted)
    && (!s.mig.Chosen? ==> CallFrom(s0, s.mig.call))
    && (s.mig.Sourced? || s.mig.Exporting? || s.mig.Exported? ==> SameSettings(s.sh, s0.sh))
    && (s.mig.Exported? ==> FromIsLive(s.mig.call))
    && (s.mig.Saved? ==> s.sh.mode == s0.sh.mode && s.sh.cfgMode == ModeName(s.mig.call.target))
    && (s.mig.Saved? ==> s.mig.call.carried == (if s.mig.call.target == Remote then s.sh.parked else ""))
    && (s.mig.Forwarded? || s.mig.Importing? ==> AtTarget(s, s.mig.call))
    && (s.mig.Saved? || s.mig.Forwarded? || s.mig.Importing? || s.mig.Reverting? || s.mig.Restoring? ==>
          s.mig.call.original == s0.sh.cfgMode && FromIsLive(s.mig.call))
    && (s.mig.Reverting? && s.mig.saved ==> SameSettings(s.sh, s0.sh))
    && (s.mig.Reverting? && !s.mig.saved ==> AtTarget(s, s.mig.call))
    && (s.mig.Restoring? ==> s.sh.cfgMode == s0.sh.cfgMode)
  }

  /** A remote source's export read exactly the pick captured before it began. */
  predicate FromIsLive(c: Call) {
    c.source == Remote ==> c.from == c.live
  }

  /** How a migration that began in `s0` ended, in the state just after its last step. */
  predicate Ended(s0: Sys, s: Sys, target: Mode) {
    && s.mig.Idle?
    && match s.mig.outcome
       case NotRun => false
       case Nothing => SameSettings(s.sh, s0.sh)
       case Failed(_) => SameSettings(s.sh, s0.sh)
       case Stranded(saved) =>
         && s.sh.parked == s0.sh.parked
         && (if saved then SameSettings(s.sh, s0.sh) else s.sh.mode == target && s.sh.cfgMode == ModeName(target))
       case Succeeded(from) =>
         && s.sh.mode == target && s.sh.cfgMode == ModeName(target)
         && (target == Remote ==> s.sh.parked == "")
         && (target == Local && s0.sh.mode == Remote ==> s.sh.parked == from)
  }

  function Target(pc: Pc): Mode
    requires !pc.Idle?
  {
    if pc.Chosen? then pc.target else pc.call.target
  }

  lemma MigrationStep(s0: Sys, s: Sys, e: Event)
    requires Inv(s) && During(s0, s)
    ensures var s' := Next(s, e);
            if s'.mig.Idle? then Ended(s0, s', Target(s.mig))
            else During(s0, s') && Target(s'.mig) == Target(s.mig)
  {
    hide During, Ended, Inv, Next, Rebuilds, Target;
    if Rebuilds(s, e) {
      RebuildingStep(s0, s, e);
    } else if Takes(e) {
      TakingStep(s0, s, e);
    } else {
      LocklessStep(s0, s, e);
    }
  }

  lemma RebuildingStep(s0: Sys, s: Sys, e: Event)
    requires Inv(s) && During(s0, s) && Rebuilds(s, e)
    ensures var s' := Next(s, e);
            if s'.mig.Idle? then Ended(s0, s', Target(s.mig))
            else During(s0, s') && Target(s'.mig) == Target(s.mig)
  {
    hide Rebuild, SourcePick;
    RebuildKeeps(s.sh, Wanted(s, e).0, Wanted(s, e).1, e.env);
  }

  lemma TakingStep(s0: Sys, s: Sys, e: Event)
    requires Inv(s) && During(s0, s)
    requires Takes(e)
    ensures var s' := Next(s, e);
            if s'.mig.Idle? then Ended(s0, s', Target(s.mig))
            else During(s0, s') && Target(s'.mig) == Target(s.mig)
  {
    hide Lookup, GetBackend, ExportReads, SourcePick;
    GetBackendKeeps(s.sh, e.env);
  }

  lemma LocklessStep(s0: Sys, s: Sys, e: Event)
    requires Inv(s) && During(s0, s)
    requires !Rebuilds(s, e)
    requires !Takes(e)
    ensures var s' := Next(s, e);
            if s'.mig.Idle? then Ended(s0, s', Target(s.mig))
            else During(s0, s') && Target(s'.mig) == Target(s.mig)
  {
    hide Next, During, Ended, Inv, Rebuilds, Target;
    if e.RunImport? || e.RevertSave? {
      LateStep(s0, s, e);
    } else if e.ReadLive? || e.RunExport? || e.SaveConfig? {
      EarlyStep(s0, s, e);
    } else {
      PassingStep(s0, s, e);
    }
  }

  lemma PassingStep(s0: Sys, s: Sys, e: Event)
    requires Inv(s) && During(s0, s) && !Rebuilds(s, e)
    requires e.SwitchLookup? || e.SwitchCommit? || e.Begin? || e.Forward? || e.RevertRebuild?
    ensures During(s0, Next(s, e)) && Next(s, e).mig == s.mig && !s.mig.Idle?
  {
    hide Next, Inv, Rebuilds, During;
    PassedOver(s0, s, e);
    DuringBySettings(s0, s, Next(s, e));
  }

  lemma PassedOver(s0: Sys, s: Sys, e: Event)
    requires During(s0, s) && !Rebuilds(s, e)
    requires e.SwitchLookup? || e.SwitchCommit? || e.Begin? || e.Forward? || e.RevertRebuild?
    ensures Next(s, e).mig == s.mig && SameSettings(Next(s, e).sh, s.sh)
  {
    hide Lookup, GetBackend, Rebuild, SourcePick, ExportReads, LiveWorkspace, ModeName;
  }

  lemma DuringBySettings(s0: Sys, s: Sys, t: Sys)
    requires During(s0, s) && t.mig == s.mig && SameSettings(t.sh, s.sh)
    ensures During(s0, t) && !s.mig.Idle?
  {
    hide ModeName;
  }

  lemma EarlyStep(s0: Sys, s: Sys, e: Event)
    requires Inv(s) && During(s0, s) && (e.ReadLive? || e.RunExport? || e.SaveConfig?)
    ensures var s' := Next(s, e);
            if s'.mig.Idle? then Ended(s0, s', Target(s.mig))
            else During(s0, s') && Target(s'.mig) == Target(s.mig)
  {
    hide Lookup, GetBackend, Rebuild, SourcePick;
  }

  lemma LateStep(s0: Sys, s: Sys, e: Event)
    requires Inv(s) && During(s0, s) && (e.RunImport? || e.RevertSave?)
    ensures var s' := Next(s, e);
            if s'.mig.Idle? then Ended(s0, s', Target(s.mig))
            else During(s0, s') && Target(s'.mig) == Target(s.mig)
  {
    hide Next, During, Ended, Inv, Target;
    if e.RunImport? { ImportStep(s0, s, e); } else { RevertSaveStep(s0, s, e); }
  }

  lemma ImportStep(s0: Sys, s: Sys, e: Event)
    requires During(s0, s) && e.RunImport?
    ensures var s' := Next(s, e);
            if s'.mig.Idle? then Ended(s0, s', Target(s.mig))
            else During(s0, s') && Target(s'.mig) == Target(s.mig)
  {
    hide Lookup, GetBackend, Rebuild, SourcePick, ExportReads;
  }

  lemma RevertSaveStep(s0: Sys, s: Sys, e: Event)
    requires During(s0, s) && e.RevertSave?
    ensures var s' := Next(s, e);
            if s'.mig.Idle? then Ended(s0, s', Target(s.mig))
            else During(s0, s') && Target(s'.mig) == Target(s.mig)
  {
    hide Lookup, GetBackend, Rebuild, SourcePick, ExportReads;
  }

  /** The migration is running in every state of the run. */
  predicate Flying(s: Sys, es: seq<Event>)
    decreases |es|
  {
    !s.mig.Idle? && (es == [] || Flying(Next(s, es[0]), es[1..]))
  }

  lemma {:induction false} FlightStaysDuring(s0: Sys, s: Sys, es: seq<Event>)
    requires Inv(s) && During(s0, s) && Flying(s, es)
    ensures Inv(Run(s, es)) && During(s0, Run(s, es)) && Target(Run(s, es).mig) == Target(s.mig)
    decreases |es|
  {
    if es != [] {
      StepKeepsInv(s, es[0]);
      MigrationStep(s0, s, es[0]);
      FlightStaysDuring(s0, Next(s, es[0]), es[1..]);
    }
  }

  /** One migration, from its call to its last step, with anything interleaved. */
  predicate OneMigration(s0: Sys, to: Mode, mid: seq<Event>, last: Event) {
    && s0.mig.Idle?
    && Flying(Next(s0, Begin(to)), mid)
    && Next(Run(Next(s0, Begin(to)), mid), last).mig.Idle?
  }

  function Before(s0: Sys, to: Mode, mid: seq<Event>): Sys {
    Run(Next(s0, Begin(to)), mid)
  }

  lemma MigrationEnds(s0: Sys, to: Mode, mid: seq<Event>, last: Event)
    requires Inv(s0) && OneMigration(s0, to, mid, last)
    ensures var s := Before(s0, to, mid);
            Inv(s) && During(s0, s) && Target(s.mig) == to && Inv(Next(s, last)) && Ended(s0, Next(s, last), to)
  {
    StepKeepsInv(s0, Begin(to));
    FlightStaysDuring(s0, Next(s0, Begin(to)), mid);
    MigrationStep(s0, Before(s0, to, mid), last);
    StepKeepsInv(Before(s0, to, mid), last);
  }

  /** A migration that reverts leaves the config mode, the process mode and the parked workspace as
      before the call. The workspace it names is the last pick given to the source object, and a
      non-empty one is the pick of the fresh backend every tool then gets. */
  lemma FailedMigrationRestores(s0: Sys, to: Mode, mid: seq<Event>, last: Event, env: BuildEnv)
    requires Inv(s0) && OneMigration(s0, to, mid, last)
    requires Next(Before(s0, to, mid), last).mig.outcome.Failed?
    ensures var s := Before(s0, to, mid);
            var t := Next(s, last);
            var now := t.mig.outcome.now;
            && t.sh.cfgMode == s0.sh.cfgMode && t.sh.mode == s0.sh.mode && t.sh.parked == s0.sh.parked
            && s.mig.Restoring?
            && (s0.sh.mode == Remote ==> LastPick(s.picks, s.mig.call.src) == Some(now))
            && (now != "" ==>
                  && s0.sh.mode == Remote && t.sh.objs == s.sh.objs + [RemoteBackend(now)]
                  && GetBackend(t.sh, env).1 == Some(|s.sh.objs|))
            && (now == "" ==> t.sh.common.None? && t.sh.dispatch.None?)
  {
    hide During, Ended, Inv, Next, Run, SourcePick, Flying;
    MigrationEnds(s0, to, mid, last);
    var s := Before(s0, to, mid);
    EndedFailed(s0, Next(s, last), to);
    FailedIsRebuild(s0, s, last);
    RestoredNow(s, last, env);
  }

  lemma EndedFailed(s0: Sys, t: Sys, to: Mode)
    requires Ended(s0, t, to) && t.mig.outcome.Failed?
    ensures SameSettings(t.sh, s0.sh)
  {
  }

  lemma FailedIsRebuild(s0: Sys, s: Sys, last: Event)
    requires Inv(s) && During(s0, s) && Next(s, last).mig.Idle? && Next(s, last).mig.outcome.Failed?
    ensures s.mig.Restoring? && last.RevertRebuild? && s.mig.call.source == s0.sh.mode
  {
    hide GetBackend, Rebuild, Lookup, SourcePick, ExportReads, LiveWorkspace, Inv;
  }

  /** The revert's rebuild: the last pick of the source is read and carried under one lock. */
  lemma RestoredNow(s: Sys, last: Event, env: BuildEnv)
    requires Inv(s) && s.mig.Restoring? && last.RevertRebuild?
    requires Next(s, last).mig.Idle? && Next(s, last).mig.outcome.Failed?
    ensures var t := Next(s, last);
            var now := t.mig.outcome.now;
            && (s.mig.call.source == Remote ==> LastPick(s.picks, s.mig.call.src) == Some(now))
            && (now != "" ==>
                  && s.mig.call.source == Remote && t.sh.objs == s.sh.objs + [RemoteBackend(now)]
                  && GetBackend(t.sh, env).1 == Some(|s.sh.objs|))
            && (now == "" ==> t.sh.common.None? && t.sh.dispatch.None?)
  {
    RebuildKeeps(s.sh, Wanted(s, last).0, Wanted(s, last).1, last.env);
  }

  /** Some config save of a revert returned. */
  predicate SavedBack(s: Sys, es: seq<Event>)
    decreases |es|
  {
    es != [] && (SavesBack(s, es[0]) || SavedBack(Next(s, es[0]), es[1..]))
  }

  predicate SavesBack(s: Sys, e: Event) {
    s.mig.Reverting? && e.RevertSave? && e.written
  }

  /** The counter of a running migration remembers such a save. */
  predicate Remembers(s: Sys) {
    s.mig.Restoring? || (s.mig.Reverting? && s.mig.saved)
  }

  lemma RemembersStep(s: Sys, e: Event)
    requires !s.mig.Idle? && !Next(s, e).mig.Idle?
    ensures Remembers(Next(s, e)) <==> Remembers(s) || SavesBack(s, e)
  {
    hide GetBackend, Rebuild, Lookup, CommitIfCurrent;
  }

  lemma LastStepRemembers(s: Sys, e: Event)
    requires !s.mig.Idle? && Next(s, e).mig.Idle?
    ensures Next(s, e).mig.outcome.Failed? ==> Remembers(s)
    ensures Next(s, e).mig.outcome.Stranded? ==> (Next(s, e).mig.outcome.saved <==> Remembers(s) || SavesBack(s, e))
  {
    hide GetBackend, Rebuild, Lookup, CommitIfCurrent;
  }

  lemma {:induction false} RemembersIffSavedBack(s: Sys, es: seq<Event>)
    requires Flying(s, es)
    ensures Remembers(Run(s, es)) <==> Remembers(s) || SavedBack(s, es)
    decreases |es|
  {
    hide Next, Remembers, SavesBack;
    if es != [] {
      assert !Next(s, es[0]).mig.Idle?;
      RemembersStep(s, es[0]);
      RemembersIffSavedBack(Next(s, es[0]), es[1..]);
    }
  }

  lemma {:induction false} SavedBackOfAppend(s: Sys, es: seq<Event>, e: Event)
    ensures SavedBack(s, es + [e]) <==> SavedBack(s, es) || SavesBack(Run(s, es), e)
    decreases |es|
  {
    hide Next, SavesBack;
    if es == [] {
      assert es + [e] == [e] && [e][1..] == [];
    } else {
      assert (es + [e])[1..] == es[1..] + [e];
      SavedBackOfAppend(Next(s, es[0]), es[1..], e);
    }
  }

  predicate Fails(s: Sys) {
    s.mig.Idle? && (s.mig.outcome.Failed? || s.mig.outcome.Stranded?)
  }

  /** A migration that fails after its config save, with anything interleaved, has both modes back if and only if
      some config save of its revert returned; without one both are at the target's. Parking is untouched. */
  lemma FailingMigrationRestoresIffSavedBack(s0: Sys, to: Mode, mid: seq<Event>, last: Event)
    requires Inv(s0) && OneMigration(s0, to, mid, last) && Fails(Next(Before(s0, to, mid), last))
    ensures var t := Next(Before(s0, to, mid), last);
            var back := SavedBack(Next(s0, Begin(to)), mid + [last]);
            && (t.sh.mode == s0.sh.mode && t.sh.cfgMode == s0.sh.cfgMode <==> back)
            && (!back ==> t.sh.mode == to != s0.sh.mode && t.sh.cfgMode == ModeName(to))
            && (t.mig.outcome.Failed? ==> back) && (t.mig.outcome.Stranded? ==> (t.mig.outcome.saved <==> back))
            && t.sh.parked == s0.sh.parked
  {
    hide Next, Run, During, Inv, Remembers, SavesBack, SavedBack;
    var s1, s := Next(s0, Begin(to)), Before(s0, to, mid);
    MigrationEnds(s0, to, mid, last);
    FlyingEndsFlying(s1, mid);
    NothingRemembered(s0, to);
    RemembersIffSavedBack(s1, mid);
    SavedBackOfAppend(s1, mid, last);
    LastStepRemembers(s, last);
    TargetIsAnother(s0, s);
  }

  lemma {:induction false} FlyingEndsFlying(s: Sys, es: seq<Event>)
    requires Flying(s, es)
    ensures !s.mig.Idle? && !Run(s, es).mig.Idle?
    decreases |es|
  {
    hide Next;
    if es != [] { FlyingEndsFlying(Next(s, es[0]), es[1..]); }
  }

  lemma NothingRemembered(s0: Sys, to: Mode)
    requires s0.mig.Idle?
    ensures !Remembers(Next(s0, Begin(to)))
  {
  }

  lemma TargetIsAnother(s0: Sys, s: Sys)
    requires During(s0, s)
    ensures Target(s.mig) != s0.sh.mode
  {
  }

  /** A migration from remote to local up to an import that raises. */
  function UntilImportRaises(env: BuildEnv): seq<Event> {
    [TakeSource(env), ReadLive, RunExport(Wrote), SaveConfig(true, true), Forward(env), TakeTarget(env),
     RunImport(ImportRaised)]
  }

  /** The pick of a backend built without a carried workspace. */
  function DefaultPick(env: BuildEnv): string {
    FirstSet("", env.envWorkspace, if env.config then env.savedTeam else "")
  }

  lemma FlightStep(s: Sys, es: seq<Event>)
    requires es != [] && !s.mig.Idle? && Flying(Next(s, es[0]), es[1..])
    ensures Flying(s, es) && Run(s, es) == Run(Next(s, es[0]), es[1..])
  {
  }

  lemma NoFlight(s: Sys)
    requires !s.mig.Idle?
    ensures Flying(s, []) && Run(s, []) == s
  {
  }

  lemma TakesTheRemote(env: BuildEnv)
    requires env.apiKey || env.config
    ensures var s := Next(Next(Start(Remote, "remote", ""), Begin(Local)), TakeSource(env));
            && s.sh == Shared([RemoteBackend(DefaultPick(env))], Some(0), Some(0), Remote, "remote", "")
            && s.mig == Sourced(Call(Local, Remote, 0, "", "", "", ""))
    ensures Next(Start(Remote, "remote", ""), Begin(Local)).mig == Chosen(Local, Remote)
  {
    hide FirstSet;
  }

  lemma SavesTheTarget(s: Sys)
    requires s.mig.Sourced? && s.mig.call.target == Local
    ensures var s1 := Next(s, ReadLive);
            var s2 := Next(s1, RunExport(Wrote));
            var s3 := Next(s2, SaveConfig(true, true));
            && s1.mig.Exporting? && s2.mig.Exported? && s3.mig.Saved? && s3.sh == s.sh.(cfgMode := "local")
            && s3.mig.call.target == Local
            && s3.mig.call.source == s.mig.call.source && s3.mig.call.src == s.mig.call.src
            && s3.mig.call.original == s.sh.cfgMode && s3.mig.call.carried == ""
  {
    hide SourcePick, ExportReads;
  }

  lemma CrossesToLocal(s: Sys, env: BuildEnv)
    requires s.mig.Saved? && s.mig.call.target == Local && s.mig.call.carried == ""
    ensures var s1 := Next(s, Forward(env));
            var s2 := Next(s1, TakeTarget(env));
            && s1.mig == Forwarded(s.mig.call) && s2.mig == Importing(s.mig.call)
            && s2.sh == s.sh.(objs := s.sh.objs + [LocalBackend], dispatch := Some(|s.sh.objs|),
                              common := Some(|s.sh.objs|), mode := Local)
  {
    hide FirstSet, SourcePick, ExportReads;
  }

  lemma ImportRaises(s: Sys)
    requires s.mig.Importing?
    ensures Next(s, RunImport(ImportRaised)).mig == Reverting(s.mig.call, false, false)
    ensures Next(s, RunImport(ImportRaised)).sh == s.sh
  {
    hide GetBackend, Rebuild, SourcePick, ExportReads;
  }

  lemma FlightOfSeven(s: Sys, es: seq<Event>)
    requires |es| == 7 && !s.mig.Idle?
    requires var t := Next(Next(Next(Next(s, es[0]), es[1]), es[2]), es[3]);
             && !Next(s, es[0]).mig.Idle? && !Next(Next(s, es[0]), es[1]).mig.Idle?
             && !Next(Next(Next(s, es[0]), es[1]), es[2]).mig.Idle? && !t.mig.Idle?
             && !Next(t, es[4]).mig.Idle? && !Next(Next(t, es[4]), es[5]).mig.Idle?
             && !Next(Next(Next(t, es[4]), es[5]), es[6]).mig.Idle?
    ensures var t := Next(Next(Next(Next(s, es[0]), es[1]), es[2]), es[3]);
            Flying(s, es) && Run(s, es) == Next(Next(Next(t, es[4]), es[5]), es[6])
  {
    hide Next, Run, Flying;
    var s1 := Next(s, es[0]);
    var s2 := Next(s1, es[1]);
    var s3 := Next(s2, es[2]);
    var s4 := Next(s3, es[3]);
    var s5 := Next(s4, es[4]);
    var s6 := Next(s5, es[5]);
    assert forall k :: 0 <= k < 7 ==> es[k..][1..] == es[k + 1..];
    assert es[7..] == [] && es[0..] == es;
    NoFlight(Next(s6, es[6]));
    FlightStep(s6, es[6..]);
    FlightStep(s5, es[5..]);
    FlightStep(s4, es[4..]);
    FlightStep(s3, es[3..]);
    FlightStep(s2, es[2..]);
    FlightStep(s1, es[1..]);
    FlightStep(s, es[0..]);
  }

  /** Where such a migration of a fresh remote process stands: on a local object, both modes local, about to revert. */
  lemma ImportRaisedState(env: BuildEnv)
    requires env.apiKey || env.config
    ensures var s1 := Next(Start(Remote, "remote", ""), Begin(Local));
            var s := Run(s1, UntilImportRaises(env));
            && Flying(s1, UntilImportRaises(env)) && s.mig.Reverting? && !s.mig.again && !s.mig.saved
            && s.mig.call.source == Remote && s.mig.call.src == 0 && s.mig.call.original == "remote"
            && s.sh == Shared([RemoteBackend(DefaultPick(env)), LocalBackend], Some(1), Some(1), Local, "local", "")
  {
    hide Next, Run, Flying, DefaultPick;
    var s1 := Next(Start(Remote, "remote", ""), Begin(Local));
    var es := UntilImportRaises(env);
    TakesTheRemote(env);
    var s2 := Next(s1, es[0]);
    SavesTheTarget(s2);
    var s5 := Next(Next(Next(s2, es[1]), es[2]), es[3]);
    CrossesToLocal(s5, env);
    ImportRaises(Next(Next(s5, es[4]), es[5]));
    FlightOfSeven(s1, es);
  }

  /** The failing input: a remote process whose import raises and whose revert cannot save the config. */
  lemma UnsavedRevertStrands(env: BuildEnv)
    requires env.apiKey || env.config
    ensures var s0, es, last := Start(Remote, "remote", ""), UntilImportRaises(env), RevertSave(false);
            var t := Next(Before(s0, Local, es), last);
            && OneMigration(s0, Local, es, last) && t.mig == Idle(Stranded(false))
            && t.sh.mode == Local && t.sh.cfgMode == "local" && s0.sh.mode == Remote && s0.sh.cfgMode == "remote"
  {
    hide Next, Run, Flying;
    ImportRaisedState(env);
    UnsavedRevert(Before(Start(Remote, "remote", ""), Local, UntilImportRaises(env)));
  }

  lemma UnsavedRevert(s: Sys)
    requires s.mig.Reverting? && !s.mig.again && !s.mig.saved
    ensures Next(s, RevertSave(false)).sh == s.sh && Next(s, RevertSave(false)).mig == Idle(Stranded(false))
  {
    hide GetBackend, Rebuild, SourcePick, ExportReads;
  }

  // ------------------------------------------------------------------ parking

  /** The event is the import that completes a migration. */
  predicate Completes(s: Sys, e: Event) {
    s.mig.Importing? && e.RunImport? && e.imported.SomeImported?
  }

  predicate NoneCompletes(s: Sys, es: seq<Event>)
    decreases |es|
  {
    es == [] || (!Completes(s, es[0]) && NoneCompletes(Next(s, es[0]), es[1..]))
  }

  lemma ParkedChangesOnlyByCompletion(s: Sys, e: Event)
    requires Inv(s)
    ensures Next(s, e).sh.parked != s.sh.parked ==> Completes(s, e)
  {
    hide Lookup, GetBackend, Rebuild, ExportReads, SourcePick;
    if Rebuilds(s, e) {
      RebuildKeeps(s.sh, Wanted(s, e).0, Wanted(s, e).1, e.env);
    } else if Takes(e) {
      GetBackendKeeps(s.sh, e.env);
    }
  }

  /** What a `Saved` migration carries is what is parked. */
  predicate CarriesParked(s: Sys) {
    s.mig.Saved? && s.mig.call.target == Remote ==> s.mig.call.carried == s.sh.parked
  }

  lemma CarriesParkedStep(s: Sys, e: Event)
    requires Inv(s) && CarriesParked(s)
    ensures CarriesParked(Next(s, e))
  {
    hide Lookup, GetBackend, Rebuild, ExportReads, SourcePick;
    if Takes(e) {
      GetBackendKeeps(s.sh, e.env);
    }
  }

  lemma {:induction false} ParkedHolds(s: Sys, es: seq<Event>)
    requires Inv(s) && CarriesParked(s) && NoneCompletes(s, es)
    ensures Inv(Run(s, es)) && CarriesParked(Run(s, es)) && Run(s, es).sh.parked == s.sh.parked
    decreases |es|
  {
    if es != [] {
      StepKeepsInv(s, es[0]);
      CarriesParkedStep(s, es[0]);
      ParkedChangesOnlyByCompletion(s, es[0]);
      ParkedHolds(Next(s, es[0]), es[1..]);
    }
  }

  lemma SuccessIsAnImport(s0: Sys, s: Sys, last: Event)
    requires Inv(s) && During(s0, s) && Next(s, last).mig.Idle? && Next(s, last).mig.outcome.Succeeded?
    ensures s.mig.Importing? && Next(s, last).mig.outcome.from == s.mig.call.from && FromIsLive(s.mig.call)
  {
    hide Lookup, GetBackend, Rebuild, ExportReads, SourcePick, Inv;
  }

  /** Remote to local, then anything (failed migrations and switches included), then the forward
      rebuild of a local to remote: the new backend starts on the workspace the first export read.
      Without such a workspace nothing is built yet, and the first tool call starts from the defaults. */
  lemma RoundTripReturnsHome(s0: Sys, mid: seq<Event>, last: Event, es: seq<Event>, env: BuildEnv, later: BuildEnv)
    requires Inv(s0) && s0.sh.mode == Remote && OneMigration(s0, Local, mid, last)
    requires Next(Before(s0, Local, mid), last).mig.outcome.Succeeded?
    requires NoneCompletes(Next(Before(s0, Local, mid), last), es)
    requires var s := Run(Next(Before(s0, Local, mid), last), es); s.mig.Saved? && s.mig.call.target == Remote
    ensures var before := Before(s0, Local, mid);
            var home := Next(before, last).mig.outcome.from;
            var s := Run(Next(before, last), es);
            var t := Next(s, Forward(env));
            && before.mig.Importing? && home == before.mig.call.live
            && s.mig.call.carried == home
            && (home != "" && t.mig.Forwarded? ==>
                  t.sh.objs == s.sh.objs + [RemoteBackend(home)] && GetBackend(t.sh, later).1 == Some(|s.sh.objs|))
            && (home != "" ==> (t.mig.Forwarded? <==> env.apiKey || env.config))
            && (home == "" ==> t.mig.Forwarded? && t.sh.common.None? && t.sh.dispatch.None?)
  {
    var before := Before(s0, Local, mid);
    MigrationEnds(s0, Local, mid, last);
    SuccessIsAnImport(s0, before, last);
    ParkedHolds(Next(before, last), es);
    CarriedIsBuilt(Run(Next(before, last), es), env, later);
  }

  lemma CarriedIsBuilt(s: Sys, env: BuildEnv, later: BuildEnv)
    requires Inv(s) && s.mig.Saved? && s.mig.call.target == Remote
    ensures var home := s.mig.call.carried;
            var t := Next(s, Forward(env));
            && (home != "" && t.mig.Forwarded? ==>
                  t.sh.objs == s.sh.objs + [RemoteBackend(home)] && GetBackend(t.sh, later).1 == Some(|s.sh.objs|))
            && (home != "" ==> (t.mig.Forwarded? <==> env.apiKey || env.config))
            && (home == "" ==> t.mig.Forwarded? && t.sh.common.None? && t.sh.dispatch.None?)
  {
    RebuildKeeps(s.sh, Remote, s.mig.call.carried, env);
  }
}
