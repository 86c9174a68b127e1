/** When a migration ends, and as what; and which workspace its export reads. */
module MigrationEndings {
  import opened Wrappers
  import opened ProcessBackend
  import opened MigrationProtocol
  import opened MigrationTheorems

  /** Nothing is cached and nothing can be built. */
  predicate NoBackend(sh: Shared, env: BuildEnv) {
    sh.common.None? && sh.dispatch.None? && sh.mode != Local && !env.apiKey && !env.config
  }

  /** The pick can be rebuilt: there is none, the process is not remote, or a key or config is there. */
  predicate Rebuildable(source: Mode, now: Option<string>, env: BuildEnv) {
    source != Remote || now == Some("") || env.apiKey || env.config
  }

  /** How event `e` ends a running migration, None when it goes on. */
  ghost function Ending(s: Sys, e: Event): Option<Outcome>
    requires !s.mig.Idle?
  {
    match e
    case TakeSource(env) => if s.mig.Chosen? && NoBackend(s.sh, env) then Some(Nothing) else None
    case RunExport(x) => if s.mig.Exporting? && (x == ExportRaised || x == NoMemories) then Some(Nothing) else None
    case SaveConfig(available, written) =>
      if s.mig.Exported? && !(available && written) then Some(Nothing) else None
    case RunImport(x) => if s.mig.Importing? && x == SomeImported then Some(Succeeded(s.mig.call.from)) else None
    case RevertSave(written) =>
      if s.mig.Reverting? && !s.mig.again && !written then Some(Stranded(s.mig.saved)) else None
    case RevertRebuild(env) =>
      if !s.mig.Restoring? then None
      else
        var now := LastPick(s.picks, s.mig.call.src);
        if Rebuildable(s.mig.call.source, now, env) then
          Some(Failed(if s.mig.call.source == Remote then now.GetOr("") else ""))
        else if s.mig.again then None
        else Some(Stranded(true))
    case _ => None
  }

  /** A running migration ends at exactly these events and so: with nothing done when no source can be had, the export
      brings nothing or the config cannot be saved; with success when some item was imported; reverted when the revert
      saves and rebuilds; stranded when it does not and is not tried again. It is tried again only after an import that
      failed for every item. */
  lemma MigrationEndsIff(s0: Sys, s: Sys, e: Event)
    requires Inv(s) && During(s0, s) && !s.mig.Idle?
    ensures var pc := Next(s, e).mig;
            && (pc.Idle? <==> Ending(s, e).Some?) && (pc.Idle? ==> pc.outcome == Ending(s, e).value)
            && (s.mig.Importing? && e == RunImport(AllFailed) ==> pc == Reverting(s.mig.call, true, false))
            && (s.mig.Importing? && e == RunImport(ImportRaised) ==> pc == Reverting(s.mig.call, false, false))
  {
    hide Next, Inv, During, LastPick;
    match e
    case TakeSource(env) => TakenIff(s, env);
    case Forward(env) => RebuiltIff(s, e);
    case RevertRebuild(env) =>
      RebuiltIff(s, e);
      if s.mig.Restoring? { SourcesPick(s0, s); }
    case _ => GoesOn(s, e);
  }

  lemma TakenIff(s: Sys, env: BuildEnv)
    requires !s.mig.Idle?
    ensures Next(s, TakeSource(env)).mig.Idle? <==> s.mig.Chosen? && NoBackend(s.sh, env)
    ensures Next(s, TakeSource(env)).mig.Idle? ==> Next(s, TakeSource(env)).mig.outcome == Nothing
  {
  }

  lemma RebuiltIff(s: Sys, e: Event)
    requires !s.mig.Idle? && (e.Forward? || e.RevertRebuild?)
    ensures e.Forward? ==> !Next(s, e).mig.Idle?
    ensures e.RevertRebuild? && !s.mig.Restoring? ==> Next(s, e).mig == s.mig
    ensures e.RevertRebuild? && s.mig.Restoring? ==>
              var now := SourcePick(s, s.mig.call.source, s.mig.call.src);
              var ok := Rebuildable(s.mig.call.source, Some(now), e.env);
              Next(s, e).mig == if ok then Idle(Failed(now))
                                else if s.mig.again then Reverting(s.mig.call, false, true) else Idle(Stranded(true))
  {
    hide SourcePick, LiveWorkspace;
    if e.RevertRebuild? && s.mig.Restoring? && s.mig.call.source != Remote { NoPickElsewhere(s); }
  }

  lemma NoPickElsewhere(s: Sys)
    requires !s.mig.Idle? && !s.mig.Chosen?
    ensures s.mig.call.source != Remote ==> SourcePick(s, s.mig.call.source, s.mig.call.src) == ""
  {
  }

  lemma SourcesPick(s0: Sys, s: Sys)
    requires Inv(s) && During(s0, s) && !s.mig.Chosen?
    ensures s.mig.call.source == Remote ==>
              LastPick(s.picks, s.mig.call.src) == Some(SourcePick(s, s.mig.call.source, s.mig.call.src))
    ensures s.mig.call.source != Remote ==> SourcePick(s, s.mig.call.source, s.mig.call.src) == ""
  {
    hide LastPick;
  }

  lemma GoesOn(s: Sys, e: Event)
    requires !s.mig.Idle? && !e.TakeSource? && !e.Forward? && !e.RevertRebuild?
    ensures var pc := Next(s, e).mig;
            && (pc.Idle? <==> Ending(s, e).Some?) && (pc.Idle? ==> pc.outcome == Ending(s, e).value)
            && (s.mig.Importing? && e == RunImport(AllFailed) ==> pc == Reverting(s.mig.call, true, false))
            && (s.mig.Importing? && e == RunImport(ImportRaised) ==> pc == Reverting(s.mig.call, false, false))
  {
    hide GetBackend, Lookup, ExportReads, CommitIfCurrent, LastPick;
  }

  /** A call with the mode the process is in, or for hosted, does nothing; every other call starts. */
  lemma MigrationStartsIff(s: Sys, to: Mode)
    requires s.mig.Idle?
    ensures Next(s, Begin(to)) == s.(mig := if to == Hosted || to == s.sh.mode then Idle(Nothing)
                                            else Chosen(to, s.sh.mode))
  {
  }

  // ------------------------------------------------------------------ what the export reads

  lemma LiveStep(s: Sys, e: Event)
    requires !s.mig.Idle? && !s.mig.Chosen? && !s.mig.Sourced? && !Next(s, e).mig.Idle?
    ensures var pc := Next(s, e).mig;
            !pc.Chosen? && !pc.Sourced? && pc.call.live == s.mig.call.live && pc.call.src == s.mig.call.src
  {
    hide GetBackend, Rebuild, Lookup, SourcePick, CommitIfCurrent;
  }

  lemma {:induction false} LiveHolds(s: Sys, es: seq<Event>)
    requires !s.mig.Idle? && !s.mig.Chosen? && !s.mig.Sourced? && Flying(s, es)
    ensures var pc := Run(s, es).mig;
            !pc.Idle? && !pc.Chosen? && !pc.Sourced? && pc.call.live == s.mig.call.live
    decreases |es|
  {
    hide Next;
    if es != [] {
      LiveStep(s, es[0]);
      LiveHolds(Next(s, es[0]), es[1..]);
    }
  }

  /** From a remote source a migration that succeeds moved the workspace last picked on the source object when the call
      read it, whatever switches committed during the export; going local, it parks that workspace. */
  lemma SuccessMovesThePickItRead(s0: Sys, s: Sys, es: seq<Event>, last: Event)
    requires Inv(s) && During(s0, s) && s.mig.Sourced? && s.mig.call.source == Remote
    requires Flying(Next(s, ReadLive), es)
    requires var t := Next(Run(Next(s, ReadLive), es), last); t.mig.Idle? && t.mig.outcome.Succeeded?
    ensures var t := Next(Run(Next(s, ReadLive), es), last);
            && Some(t.mig.outcome.from) == LastPick(s.picks, s.mig.call.src)
            && (t.sh.mode == Local ==> t.sh.parked == t.mig.outcome.from)
  {
    hide Next, Inv, During, LastPick, Flying;
    var s1 := Next(s, ReadLive);
    ReadsLive(s0, s);
    StepKeepsInv(s, ReadLive);
    MigrationStep(s0, s, ReadLive);
    FlightStaysDuring(s0, s1, es);
    LiveHolds(s1, es);
    var u := Run(s1, es);
    MigrationStep(s0, u, last);
    SuccessIsAnImport(s0, u, last);
    SourceIsRemote(s0, s, u);
    ParkedOnArrival(s0, Next(u, last), Target(u.mig));
  }

  lemma ReadsLive(s0: Sys, s: Sys)
    requires Inv(s) && During(s0, s) && s.mig.Sourced? && s.mig.call.source == Remote
    ensures var pc := Next(s, ReadLive).mig;
            pc.Exporting? && Some(pc.call.live) == LastPick(s.picks, s.mig.call.src)
  {
    hide LastPick;
  }

  lemma SourceIsRemote(s0: Sys, s: Sys, u: Sys)
    requires During(s0, s) && During(s0, u) && s.mig.Sourced? && s.mig.call.source == Remote && u.mig.Importing?
    ensures u.mig.call.source == Remote == s0.sh.mode
  {
  }

  lemma ParkedOnArrival(s0: Sys, t: Sys, target: Mode)
    requires Ended(s0, t, target) && t.mig.outcome.Succeeded? && s0.sh.mode == Remote
    ensures t.sh.mode == Local ==> t.sh.parked == t.mig.outcome.from
  {
  }
}
