/** One `memory_migrate` interleaved with any number of `switch_workspace` calls and tool calls.
    Every event is one section the code runs without releasing `rebuild_lock`, or one step that
    takes no lock at all. An event that is not enabled changes nothing. */
module MigrationProtocol {
  import opened Wrappers
  import opened ProcessBackend
  import WorkspaceSelect
  import Text

  /** What one `memory_migrate` call has fixed so far. `from` is the workspace the export read. */
  datatype Call = Call(
    target: Mode,
    source: Mode,
    src: nat,
    live: string,
    from: string,
    original: string,
    carried: string)

  datatype Outcome =
    | NotRun
    | Nothing                 // refused or ended before the config was saved
    | Failed(now: string)     // reverted; `now` is the workspace the reply names
    | Stranded(saved: bool)   // the revert itself raised
    | Succeeded(from: string)

  /** The program counter of the migration. */
  datatype Pc =
    | Idle(outcome: Outcome)
    | Chosen(target: Mode, source: Mode)
    | Sourced(call: Call)
    | Exporting(call: Call)
    | Exported(call: Call)
    | Saved(call: Call)
    | Forwarded(call: Call)
    | Importing(call: Call)
    | Reverting(call: Call, again: bool, saved: bool)
    | Restoring(call: Call, again: bool)

  datatype Switch =
    | Holding(backend: nat)
    | Resolved(backend: nat, workspace: string, listed: set<string>)
    | Outrun
    | Switched(backend: nat, workspace: string, listed: set<string>)
    | AlreadyThere
    | Refused

  datatype Found = Found(workspace: string, listed: set<string>)
  datatype Export = ExportRaised | NoMemories | Wrote
  datatype Import = ImportRaised | AllFailed | SomeImported

  /** A pick entering an object: at construction or by a committed switch. */
  datatype Pick = Pick(owner: nat, workspace: string)

  datatype Sys = Sys(
    sh: Shared,
    switches: map<nat, Switch>,
    mig: Pc,
    picks: seq<Pick>,
    stale: bool)    // a rebuild raised and left the common cache on its old object

  datatype Event =
    | ToolCall(env: BuildEnv)
    | SwitchTake(k: nat, env: BuildEnv)
    | SwitchLookup(k: nat, ref: string, loggedIn: bool, rows: Option<seq<WorkspaceSelect.Row>>)
    | SwitchCommit(k: nat)
    | SwitchLabel(k: nat, env: BuildEnv)
    | Begin(to: Mode)
    | TakeSource(env: BuildEnv)
    | ReadLive
    | RunExport(exported: Export)
    | SaveConfig(available: bool, written: bool)
    | Forward(env: BuildEnv)
    | TakeTarget(env: BuildEnv)
    | RunImport(imported: Import)
    | RevertSave(written: bool)
    | RevertRebuild(env: BuildEnv)

  /** The picks of objects built by this event, appended to the record. */
  function Built(before: Shared, after: Shared): seq<Pick> {
    if |after.objs| > |before.objs| then [Pick(|before.objs|, LiveWorkspace(after.objs[|before.objs|]))] else []
  }

  function Moved(s: Sys, sh: Shared): Sys {
    s.(sh := sh, picks := s.picks + Built(s.sh, sh))
  }

  /** A rebuild; when it raises, the common cache (if any) outlives the dispatch cache. */
  function Rebuilt(s: Sys, m: Mode, workspace: string, env: BuildEnv): (Sys, bool) {
    var (sh, ok) := Rebuild(s.sh, m, workspace, env);
    (Moved(s, sh).(stale := !ok && s.sh.common.Some?), ok)
  }

  /** `resolve_switch`: the workspace found and the ids it was found among; no state changes. */
  function Lookup(b: Backend, ref: string, loggedIn: bool, rows: Option<seq<WorkspaceSelect.Row>>): (r: Option<Found>)
    ensures r.Some? ==> r.value.workspace in r.value.listed
  {
    if b.LocalBackend? then
      if Text.Lower(Text.Strip(ref)) == "default" then Some(Found("default", {"default"})) else None
    else
      match WorkspaceSelect.Choose(WorkspaceSelect.Asks(ref, loggedIn), ref, rows)
      case None => None
      case Some(w) => Some(Found(w, WorkspaceSelect.Ids(WorkspaceSelect.Usable(rows.value))))
  }

  function NextSwitch(s: Sys, e: Event): Sys {
    match e
    case ToolCall(env) => Moved(s, GetBackend(s.sh, env).0)
    case SwitchTake(k, env) =>
      if k in s.switches then s
      else
        var (sh, got) := GetBackend(s.sh, env);
        Moved(s, sh).(switches := s.switches[k := if got.Some? then Holding(got.value) else Refused])
    case SwitchLookup(k, ref, loggedIn, rows) =>
      if k in s.switches && s.switches[k].Holding? && s.switches[k].backend < |s.sh.objs| then
        var id := s.switches[k].backend;
        match Lookup(s.sh.objs[id], ref, loggedIn, rows)
        case None => s.(switches := s.switches[k := Refused])
        case Some(found) => s.(switches := s.switches[k := Resolved(id, found.workspace, found.listed)])
      else s
    case SwitchCommit(k) =>
      if k in s.switches && s.switches[k].Resolved? && s.switches[k].backend < |s.sh.objs| then
        var Resolved(id, w, listed) := s.switches[k];
        var (sh, ran) := CommitIfCurrent(s.sh, id, w);
        if !ran then s.(switches := s.switches[k := Outrun])
        else if s.sh.objs[id].LocalBackend? then s.(switches := s.switches[k := AlreadyThere])
        else s.(sh := sh, switches := s.switches[k := Switched(id, w, listed)], picks := s.picks + [Pick(id, w)])
      else s
    case SwitchLabel(k, env) =>
      if k in s.switches && s.switches[k].Outrun? then
        Moved(s, GetBackend(s.sh, env).0).(switches := s.switches[k := Refused])
      else s
    case _ => s
  }

  /** The pick `_live_workspace` reads for this call: only a remote source has one. */
  function SourcePick(s: Sys, source: Mode, src: nat): string {
    if source == Remote && src < |s.sh.objs| then LiveWorkspace(s.sh.objs[src]) else ""
  }

  /** What the export reads: pinned to `live` for a remote source, else the pick at that moment. */
  function ExportReads(s: Sys, c: Call): string {
    if c.source == Remote then c.live
    else if c.src < |s.sh.objs| then LiveWorkspace(s.sh.objs[c.src])
    else ""
  }

  function NextMigration(s: Sys, e: Event): Sys {
    match (s.mig, e)
    case (Idle(_), Begin(to)) =>
      var source := s.sh.mode;
      s.(mig := if to == Hosted || source == to then Idle(Nothing) else Chosen(to, source))
    case (Chosen(target, source), TakeSource(env)) =>
      var (sh, got) := GetBackend(s.sh, env);
      Moved(s, sh).(mig :=
        if got.Some? then Sourced(Call(target, source, got.value, "", "", "", "")) else Idle(Nothing))
    case (Sourced(c), ReadLive) =>
      s.(mig := Exporting(c.(live := SourcePick(s, c.source, c.src))))
    case (Exporting(c), RunExport(x)) =>
      s.(mig := if x.Wrote? then Exported(c.(from := ExportReads(s, c))) else Idle(Nothing))
    case (Exported(c), SaveConfig(available, written)) =>
      if !available || !written then s.(mig := Idle(Nothing))
      else
        var carried := if c.target == Remote then s.sh.parked else "";
        s.(sh := s.sh.(cfgMode := ModeName(c.target)),
           mig := Saved(c.(original := s.sh.cfgMode, carried := carried)))
    case (Saved(c), Forward(env)) =>
      var (s', ok) := Rebuilt(s, c.target, c.carried, env);
      s'.(mig := if ok then Forwarded(c) else Reverting(c, false, false))
    case (Forwarded(c), TakeTarget(env)) =>
      var (sh, got) := GetBackend(s.sh, env);
      Moved(s, sh).(mig := if got.Some? then Importing(c) else Reverting(c, false, false))
    case (Importing(c), RunImport(x)) =>
      if x.SomeImported? then
        s.(sh := s.sh.(parked := if c.target == Local then c.live else ""), mig := Idle(Succeeded(c.from)))
      else s.(mig := Reverting(c, x.AllFailed?, false))
    case (Reverting(c, again, saved), RevertSave(written)) =>
      if written then s.(sh := s.sh.(cfgMode := c.original), mig := Restoring(c, again))
      else s.(mig := if again then Reverting(c, false, saved) else Idle(Stranded(saved)))
    case (Restoring(c, again), RevertRebuild(env)) =>
      var now := SourcePick(s, c.source, c.src);
      var (s', ok) := Rebuilt(s, c.source, now, env);
      s'.(mig := if ok then Idle(Failed(now)) else if again then Reverting(c, false, true) else Idle(Stranded(true)))
    case _ => s
  }

  function Next(s: Sys, e: Event): Sys {
    if e.ToolCall? || e.SwitchTake? || e.SwitchLookup? || e.SwitchCommit? || e.SwitchLabel?
    then NextSwitch(s, e) else NextMigration(s, e)
  }

  function Run(s: Sys, es: seq<Event>): Sys
    decreases |es|
  {
    if es == [] then s else Run(Next(s, es[0]), es[1..])
  }

  // ------------------------------------------------------------------ invariant

  /** The last pick recorded for an object. */
  function LastPick(picks: seq<Pick>, id: nat): Option<string> {
    if picks == [] then None
    else if picks[|picks| - 1].owner == id then Some(picks[|picks| - 1].workspace)
    else LastPick(picks[..|picks| - 1], id)
  }

  ghost predicate PicksRecorded(s: Sys) {
    && (forall p :: p in s.picks ==> p.owner < |s.sh.objs|)
    && forall i :: 0 <= i < |s.sh.objs| ==> LastPick(s.picks, i) == Some(LiveWorkspace(s.sh.objs[i]))
  }

  predicate SwitchesInRange(s: Sys) {
    forall k :: k in s.switches ==>
      var w := s.switches[k];
      && (w.Holding? || w.Resolved? || w.Switched? ==> w.backend < |s.sh.objs|)
      && (w.Resolved? || w.Switched? ==> w.workspace in w.listed)
  }

  /** From taking the source until the forward rebuild the source is what every tool gets. */
  predicate SourceIsCurrent(s: Sys) {
    && (s.mig.Sourced? || s.mig.Exporting? || s.mig.Exported? || s.mig.Saved? ==>
          s.sh.common == Some(s.mig.call.src))
    && (!s.mig.Idle? && !s.mig.Chosen? ==> s.mig.call.src < |s.sh.objs|)
  }

  ghost predicate Inv(s: Sys) {
    && InRange(s.sh) && Coherent(s.sh) && KindMatches(s.sh)
    && (s.stale <==> s.sh.common.Some? && s.sh.dispatch.None?)
    && (s.stale ==> s.sh.mode == Remote)
    && PicksRecorded(s) && SwitchesInRange(s) && SourceIsCurrent(s)
  }

  lemma LastPickOfAppend(picks: seq<Pick>, p: Pick, id: nat)
    ensures LastPick(picks + [p], id) == if p.owner == id then Some(p.workspace) else LastPick(picks, id)
  {
    assert (picks + [p])[..|picks|] == picks;
  }

  /** Objects are only ever added by a section that moves the shared state, never changed. */
  predicate Grows(a: Shared, b: Shared) {
    && |a.objs| <= |b.objs| <= |a.objs| + 1
    && a.objs == b.objs[..|a.objs|]
  }

  lemma MovedKeepsPicks(s: Sys, sh: Shared)
    requires PicksRecorded(s) && Grows(s.sh, sh)
    ensures PicksRecorded(Moved(s, sh))
  {
    if |sh.objs| > |s.sh.objs| {
      var p := Pick(|s.sh.objs|, LiveWorkspace(sh.objs[|s.sh.objs|]));
      forall i | 0 <= i < |sh.objs|
        ensures LastPick(s.picks + [p], i) == Some(LiveWorkspace(sh.objs[i]))
      {
        LastPickOfAppend(s.picks, p, i);
        if i < |s.sh.objs| { assert sh.objs[i] == s.sh.objs[i]; }
      }
    } else {
      assert sh.objs == s.sh.objs;
      assert s.picks + [] == s.picks;
    }
  }

  lemma GetBackendKeeps(sh: Shared, env: BuildEnv)
    requires InRange(sh) && Coherent(sh) && KindMatches(sh)
    ensures var (sh', got) := GetBackend(sh, env);
            && InRange(sh') && Coherent(sh') && KindMatches(sh') && Grows(sh, sh')
            && sh'.common == got
            && (sh.common.Some? ==> sh' == sh)
            && (sh.common.None? && got.Some? ==> sh'.dispatch == got)
            && sh'.mode == sh.mode && sh'.cfgMode == sh.cfgMode && sh'.parked == sh.parked
  {
  }

  lemma RebuildKeeps(sh: Shared, m: Mode, workspace: string, env: BuildEnv)
    requires InRange(sh)
    ensures var (sh', ok) := Rebuild(sh, m, workspace, env);
            && InRange(sh') && Coherent(sh') && KindMatches(sh') && Grows(sh, sh')
            && sh'.mode == m
            && sh'.cfgMode == sh.cfgMode && sh'.parked == sh.parked
            && (ok ==> sh'.common.None?)
            && (!ok ==>
                  && sh'.common == sh.common && sh'.dispatch.None? && sh'.objs == sh.objs
                  && m == Remote && workspace != "")
            && (ok && m == Remote && workspace != "" ==>
                  sh'.dispatch == Some(|sh.objs|) && sh'.objs == sh.objs + [RemoteBackend(workspace)])
            && (ok && !(m == Remote && workspace != "") ==> sh'.dispatch.None? && sh'.objs == sh.objs)
  {
  }

  lemma GetStepKeepsInv(s: Sys, env: BuildEnv)
    requires Inv(s)
    ensures Inv(Moved(s, GetBackend(s.sh, env).0))
    ensures Grows(s.sh, GetBackend(s.sh, env).0)
  {
    GetBackendKeeps(s.sh, env);
    MovedKeepsPicks(s, GetBackend(s.sh, env).0);
  }

  lemma RebuildStepKeepsInv(s: Sys, m: Mode, workspace: string, env: BuildEnv, pc: Pc)
    requires Inv(s)
    requires !pc.Sourced? && !pc.Exporting? && !pc.Exported? && !pc.Saved?
    requires !pc.Idle? && !pc.Chosen? ==> pc.call.src < |s.sh.objs|
    ensures Inv(Rebuilt(s, m, workspace, env).0.(mig := pc))
    ensures Grows(s.sh, Rebuilt(s, m, workspace, env).0.sh)
  {
    RebuildKeeps(s.sh, m, workspace, env);
    MovedKeepsPicks(s, Rebuild(s.sh, m, workspace, env).0);
  }

  lemma SwitchStepKeepsInv(s: Sys, e: Event)
    requires Inv(s)
    ensures Inv(NextSwitch(s, e)) && NextSwitch(s, e).mig == s.mig
  {
    hide Lookup, CommitIfCurrent, GetBackend;
    match e
    case ToolCall(env) => GetStepKeepsInv(s, env);
    case SwitchTake(k, env) => TakeKeepsInv(s, k, env);
    case SwitchLookup(k, ref, loggedIn, rows) => LookupKeepsInv(s, e);
    case SwitchCommit(k) => CommitKeepsInv(s, k);
    case SwitchLabel(k, env) => GetStepKeepsInv(s, env);
    case _ =>
  }

  lemma LookupKeepsInv(s: Sys, e: Event)
    requires Inv(s) && e.SwitchLookup?
    ensures Inv(NextSwitch(s, e))
  {
    hide Lookup;
  }

  lemma TakeKeepsInv(s: Sys, k: nat, env: BuildEnv)
    requires Inv(s)
    ensures Inv(NextSwitch(s, SwitchTake(k, env)))
  {
    GetStepKeepsInv(s, env);
    GetBackendKeeps(s.sh, env);
  }

  lemma CommitKeepsInv(s: Sys, k: nat)
    requires Inv(s)
    ensures Inv(NextSwitch(s, SwitchCommit(k)))
  {
    var s' := NextSwitch(s, SwitchCommit(k));
    if s'.sh != s.sh || s'.picks != s.picks {
      var Resolved(id, w, listed) := s.switches[k];
      forall i | 0 <= i < |s'.sh.objs|
        ensures LastPick(s'.picks, i) == Some(LiveWorkspace(s'.sh.objs[i]))
      {
        LastPickOfAppend(s.picks, Pick(id, w), i);
      }
    }
  }

  lemma TakesKeepInv(s: Sys, e: Event)
    requires Inv(s) && (e.TakeSource? || e.TakeTarget?)
    ensures Inv(NextMigration(s, e))
  {
    GetStepKeepsInv(s, e.env);
    GetBackendKeeps(s.sh, e.env);
  }

  lemma RebuildsKeepInv(s: Sys, e: Event)
    requires Inv(s) && (e.Forward? || e.RevertRebuild?)
    ensures Inv(NextMigration(s, e))
  {
    var pc := NextMigration(s, e).mig;
    if s.mig.Saved? && e.Forward? {
      RebuildStepKeepsInv(s, s.mig.call.target, s.mig.call.carried, e.env, pc);
    } else if s.mig.Restoring? && e.RevertRebuild? {
      RebuildStepKeepsInv(s, s.mig.call.source, SourcePick(s, s.mig.call.source, s.mig.call.src), e.env, pc);
    }
  }

  lemma PlainStepKeepsInv(s: Sys, e: Event)
    requires Inv(s)
    requires !e.TakeSource? && !e.TakeTarget? && !e.Forward? && !e.RevertRebuild?
    ensures Inv(NextMigration(s, e))
  {
    hide Rebuild, GetBackend, LiveWorkspace, ModeName;
  }

  lemma StepKeepsInv(s: Sys, e: Event)
    requires Inv(s)
    ensures Inv(Next(s, e))
  {
    if e.ToolCall? || e.SwitchTake? || e.SwitchLookup? || e.SwitchCommit? || e.SwitchLabel? {
      SwitchStepKeepsInv(s, e);
    } else if e.TakeSource? || e.TakeTarget? {
      TakesKeepInv(s, e);
    } else if e.Forward? || e.RevertRebuild? {
      RebuildsKeepInv(s, e);
    } else {
      PlainStepKeepsInv(s, e);
    }
  }
}
