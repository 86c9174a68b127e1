/** The same process as objects on the heap: module globals become fields, backends are references.
    Each method is one section under `rebuild_lock`, proved against the function that specifies it;
    the two tools are proved against the protocol when nothing else runs. */
module Process {
  import opened Wrappers
  import opened ProcessBackend
  import opened MigrationProtocol
  import Text
  import WorkspaceSelect

  /** What `switch_workspace` answers. */
  datatype Reply = Moved(workspace: string) | Unmoved | Declined

  class BackendObject {
    ghost const id: nat     // its place in the order of construction
    const local: bool
    var pick: string

    constructor (ghost id: nat, local: bool, pick: string)
      ensures this.id == id && this.local == local && this.pick == pick
    {
      this.id := id;
      this.local := local;
      this.pick := pick;
    }

    function Value(): Backend
      reads this
    {
      if local then LocalBackend else RemoteBackend(pick)
    }

    /** `set_active_workspace`. */
    method SetActiveWorkspace(workspace: string)
      modifies this
      ensures Value() == WithPick(old(Value()), workspace)
      ensures pick == if local then old(pick) else workspace
    {
      if !local { pick := workspace; }
    }

    /** `_live_workspace`. */
    method LiveWorkspace() returns (workspace: string)
      ensures workspace == ProcessBackend.LiveWorkspace(Value())
    {
      workspace := if local then "" else pick;
    }
  }

  class ProcessState {
    var dispatchCache: BackendObject?
    var commonCache: BackendObject?
    var mode: Mode
    var cfgMode: string
    var parkedWorkspace: string
    ghost var objects: seq<BackendObject>

    constructor (mode: Mode, cfgMode: string)
      ensures Valid() && View() == Shared([], None, None, mode, cfgMode, "")
    {
      this.mode := mode;
      this.cfgMode := cfgMode;
      this.parkedWorkspace := "";
      this.dispatchCache := null;
      this.commonCache := null;
      this.objects := [];
    }

    ghost predicate Known(b: BackendObject)
      reads this
    {
      b.id < |objects| && objects[b.id] == b
    }

    ghost predicate Valid()
      reads this
    {
      && (forall i :: 0 <= i < |objects| ==> objects[i].id == i)
      && (dispatchCache != null ==> Known(dispatchCache))
      && (commonCache != null ==> Known(commonCache))
    }

    ghost function Id(o: BackendObject?): Option<nat> {
      if o == null then None else Some(o.id)
    }

    ghost function Values(): seq<Backend>
      reads this, objects
    {
      seq(|objects|, i requires 0 <= i < |objects| reads this, objects => objects[i].Value())
    }

    ghost function View(): Shared
      reads this, objects
    {
      Shared(Values(), Id(dispatchCache), Id(commonCache), mode, cfgMode, parkedWorkspace)
    }

    /** Builds and caches; null when construction raises. */
    method BuildInto(local: bool, team: string, env: BuildEnv) returns (b: BackendObject?)
      requires Valid() && dispatchCache == null
      modifies `dispatchCache, `objects
      ensures Valid() && old(objects) <= objects
      ensures b != null ==> Known(b)
      ensures match Build(local, team, env)
              case None => b == null && View() == old(View())
              case Some(v) => Id(b) == Some(|old(objects)|) && View() == Install(old(View()), v)
      ensures forall i :: |old(objects)| <= i < |objects| ==> fresh(objects[i])
    {
      if !local && !env.apiKey && !env.config {
        return null;
      }
      var pick := FirstSet(team, env.envWorkspace, if env.config then env.savedTeam else "");
      var made := new BackendObject(|objects|, local, pick);
      b := made;
      dispatchCache := made;
      objects := objects + [made];
      assert Values() == old(Values()) + [made.Value()];
    }

    /** `resolve_backend`. */
    method ResolveBackend(env: BuildEnv) returns (b: BackendObject?)
      requires Valid()
      modifies `dispatchCache, `objects
      ensures Valid() && old(objects) <= objects
      ensures b != null ==> Known(b)
      ensures (View(), Id(b)) == ProcessBackend.ResolveBackend(old(View()), env)
      ensures forall i :: |old(objects)| <= i < |objects| ==> fresh(objects[i])
    {
      if dispatchCache != null {
        return dispatchCache;
      }
      b := BuildInto(mode == Local, "", env);
    }

    /** `get_backend`: null when there is no backend to be had. */
    method GetBackend(env: BuildEnv) returns (b: BackendObject?)
      requires Valid()
      modifies this
      ensures Valid() && old(objects) <= objects
      ensures b == commonCache && (b != null ==> Known(b))
      ensures (View(), Id(b)) == ProcessBackend.GetBackend(old(View()), env)
      ensures forall i :: |old(objects)| <= i < |objects| ==> fresh(objects[i])
    {
      if commonCache == null {
        var got := ResolveBackend(env);
        label resolved:
        commonCache := got;
        assert Values() == old@resolved(Values());
      }
      b := commonCache;
    }

    /** `set_process_mode`; answers whether it returned. */
    method SetProcessMode(m: Mode, workspace: string, env: BuildEnv) returns (ok: bool)
      requires Valid()
      modifies this
      ensures Valid() && old(objects) <= objects
      ensures (View(), ok) == ProcessBackend.SetProcessMode(old(View()), m, workspace, env)
      ensures forall i :: |old(objects)| <= i < |objects| ==> fresh(objects[i])
    {
      mode := m;
      dispatchCache := null;
      assert Values() == old(Values());
      if workspace != "" && m == Remote {
        var b := BuildInto(false, workspace, env);
        return b != null;
      }
      return true;
    }

    /** `_rebuild_process_backend`. */
    method Rebuild(m: Mode, workspace: string, env: BuildEnv) returns (ok: bool)
      requires Valid()
      modifies this
      ensures Valid() && old(objects) <= objects
      ensures (View(), ok) == ProcessBackend.Rebuild(old(View()), m, workspace, env)
      ensures forall i :: |old(objects)| <= i < |objects| ==> fresh(objects[i])
    {
      ok := SetProcessMode(m, workspace, env);
      if ok {
        label built:
        commonCache := null;
        assert Values() == old@built(Values());
      }
    }

    /** `commit_if_current` around `set_active_workspace`. */
    method CommitIfCurrent(b: BackendObject, workspace: string) returns (ran: bool)
      requires Valid() && Known(b)
      modifies b
      ensures Valid() && (View(), ran) == ProcessBackend.CommitIfCurrent(old(View()), b.id, workspace)
      ensures ran == (commonCache == b) && b.pick == if ran && !b.local then workspace else old(b.pick)
    {
      if commonCache != b {
        return false;
      }
      b.SetActiveWorkspace(workspace);
      assert Values() == old(Values())[b.id := WithPick(old(Values())[b.id], workspace)];
      return true;
    }

    /** `_switch_workspace`: take, look up, commit. Whatever the reference names in the caller's listing becomes the
        pick of the object every tool gets; a reference that names nothing changes no pick. */
    method Switch(ref: string, loggedIn: bool, rows: Option<seq<WorkspaceSelect.Row>>, env: BuildEnv)
      returns (reply: Reply)
      requires Valid()
      modifies this, objects
      ensures Valid()
      ensures var (sh, got) := ProcessBackend.GetBackend(old(View()), env);
              && Id(commonCache) == got && (got.Some? ==> got.value < |sh.objs|)
              && (got.None? ==> View() == sh && reply == Declined)
              && (got.Some? ==>
                    match Lookup(sh.objs[got.value], ref, loggedIn, rows)
                    case None => View() == sh && reply == Declined
                    case Some(f) =>
                      && View() == ProcessBackend.CommitIfCurrent(sh, got.value, f.workspace).0
                      && reply == if sh.objs[got.value].LocalBackend? then Unmoved else Moved(f.workspace))
      ensures reply.Moved? ==> commonCache != null && !commonCache.local && commonCache.pick == reply.workspace
      ensures commonCache != null && commonCache.local ==> !reply.Moved?
      ensures commonCache != null && !commonCache.local ==> !reply.Unmoved?
      ensures !reply.Moved? ==> forall b :: b in old(objects) ==> b.pick == old(b.pick)
    {
      hide Lookup, ProcessBackend.GetBackend;
      var b := GetBackend(env);
      if b == null {
        return Declined;
      }
      assert View().objs[b.id] == b.Value();
      var found := Lookup(b.Value(), ref, loggedIn, rows);
      if found.None? {
        return Declined;
      }
      var ran := CommitIfCurrent(b, found.value.workspace);
      if b.local {
        return Unmoved;
      }
      return Moved(found.value.workspace);
    }

    /** The switch with nothing interleaved, against the protocol and against the listing. */
    method SwitchWorkspace(ref: string, loggedIn: bool, rows: Option<seq<WorkspaceSelect.Row>>, env: BuildEnv,
                           ghost s: Sys, ghost k: nat) returns (reply: Reply)
      requires Valid() && s.sh == View() && k !in s.switches
      modifies this, objects
      ensures Valid()
      ensures var t := Run(s, [SwitchTake(k, env), SwitchLookup(k, ref, loggedIn, rows), SwitchCommit(k)]);
              && t.sh == View() && k in t.switches
              && (match reply
                  case Moved(w) => t.switches[k].Switched? && t.switches[k].workspace == w
                  case Unmoved => t.switches[k].AlreadyThere?
                  case Declined => t.switches[k].Refused?)
      ensures commonCache == null ==> reply == Declined
      ensures commonCache != null && commonCache.local ==>
                reply == if Text.Lower(Text.Strip(ref)) == "default" then Unmoved else Declined
      ensures commonCache != null && !commonCache.local ==>
                && !reply.Unmoved?
                && (reply.Moved? ==>
                      && WorkspaceSelect.Asked(ref, loggedIn, rows)
                      && WorkspaceSelect.Names(rows.value, ref, reply.workspace) && commonCache.pick == reply.workspace)
                && (WorkspaceSelect.Asked(ref, loggedIn, rows) ==>
                      forall id :: WorkspaceSelect.Names(rows.value, ref, id) ==> reply == Moved(id))
      ensures !reply.Moved? ==> forall b :: b in old(objects) ==> b.pick == old(b.pick)
    {
      hide Run, Lookup, ProcessBackend.GetBackend, WorkspaceSelect.Asked, WorkspaceSelect.Names;
      SwitchAlone(s, k, ref, loggedIn, rows, env);
      LookupFindsWhatIsNamed(View(), env, ref, loggedIn, rows);
      reply := Switch(ref, loggedIn, rows, env);
      assert commonCache != null ==> View().objs[commonCache.id] == commonCache.Value();
    }

    method SetConfigMode(m: string)
      requires Valid()
      modifies `cfgMode
      ensures Valid() && View() == old(View()).(cfgMode := m)
    {
      cfgMode := m;
      assert Values() == old(Values());
    }

    /** `memory_migrate` up to the config save: the source object stays current until then. */
    method Prepare(target: Mode, w: World, ghost s: Sys) returns (ended: bool, c: Plan, src: BackendObject?)
      requires Valid() && s.sh == View() && s.mig.Idle?
      modifies this
      ensures Valid() && Run(s, Opening(target, w)).sh == View()
      ensures ended ==> Run(s, Opening(target, w)).mig == Idle(Nothing)
      ensures !ended ==> src != null && Known(src) && Run(s, Opening(target, w)).mig == Saved(c.Call(target, src.id))
    {
      hide Run, Next, Opening, ProcessBackend.GetBackend;
      OpeningRuns(s, target, w);
      c := Plan(mode, "", "", "", "");
      if target == Hosted || mode == target {
        return true, c, null;
      }
      src := GetBackend(w.env);
      if src == null {
        return true, c, null;
      }
      var live := src.LiveWorkspace();
      assert View().objs[src.id] == src.Value();
      c := c.(live := if c.source == Remote then live else "");
      if !w.exported.Wrote? {
        return true, c, null;
      }
      c := c.(from := if c.source == Remote then c.live else live);
      if !w.config || !w.saved {
        return true, c, null;
      }
      c := c.(original := cfgMode, carried := if target == Remote then parkedWorkspace else "");
      SetConfigMode(ModeName(target));
      ended := false;
    }

    /** The forward rebuild and the import; `again` says whether a revert that raises is caught. */
    method Cross(target: Mode, c: Plan, src: BackendObject, w: World, ghost s: Sys, ghost before: seq<Event>)
      returns (done: bool, again: bool)
      requires Valid() && Known(src)
      requires Run(s, before).sh == View() && Run(s, before).mig == Saved(c.Call(target, src.id))
      modifies this
      ensures Valid() && old(objects) <= objects && Run(s, before + Crossing(w)).sh == View()
      ensures Run(s, before + Crossing(w)).mig ==
              if done then Idle(Succeeded(c.from)) else Reverting(c.Call(target, src.id), again, false)
    {
      hide Run, Next, Crossing, ProcessBackend.GetBackend, ProcessBackend.Rebuild;
      CrossingRuns(s, before, w);
      var ok := Rebuild(target, c.carried, w.forward);
      if !ok {
        return false, false;
      }
      var t := GetBackend(w.target);
      if t == null {
        return false, false;
      }
      if w.imported.SomeImported? {
        label before:
        parkedWorkspace := if target == Local then c.live else "";
        assert Values() == old@before(Values());
        return true, false;
      }
      return false, w.imported.AllFailed?;
    }

    /** `revert`: answers whether it returned, and the workspace it names. */
    method Revert(c: Plan, src: BackendObject, written: bool, env: BuildEnv,
                  ghost s: Sys, ghost before: seq<Event>, ghost target: Mode, ghost again: bool, ghost saved: bool)
      returns (ok: bool, now: string)
      requires Valid() && Known(src)
      requires Run(s, before).sh == View() && Run(s, before).mig == Reverting(c.Call(target, src.id), again, saved)
      modifies this
      ensures Valid() && old(objects) <= objects && Run(s, before + Back(written, env)).sh == View()
      ensures Run(s, before + Back(written, env)).mig ==
              if ok then Idle(Failed(now))
              else if again then Reverting(c.Call(target, src.id), false, saved || written)
              else Idle(Stranded(saved || written))
    {
      hide Run, Next, ProcessBackend.Rebuild;
      Reverted(s, before, written, env);
      assert View().objs[src.id] == src.Value();
      if !written {
        return false, "";
      }
      var live := src.LiveWorkspace();
      now := if c.source == Remote then live else "";
      assert now == SourcePick(Run(s, before), c.source, src.id);
      SetConfigMode(c.original);
      ok := Rebuild(c.source, now, env);
    }

    /** `memory_migrate` with nothing interleaved is the protocol's run of its script, whatever fails. A
        revert that raises while it reports an all-failed import is caught and run once more. */
    method MemoryMigrate(target: Mode, w: World, ghost s: Sys) returns (outcome: Outcome)
      requires Valid() && s.sh == View() && s.mig.Idle?
      modifies this
      ensures Valid() && Run(s, Script(target, w)).sh == View() && Run(s, Script(target, w)).mig == Idle(outcome)
    {
      hide Run, Opening, Crossing, Back;
      LaterAfterOpening(target, w);
      var ended, c, src := Prepare(target, w, s);
      ghost var es := Opening(target, w);
      if ended {
        EndsEarly(s, es, Script(target, w));
        return Nothing;
      }
      var done, again := Cross(target, c, src, w, s, es);
      es := es + Crossing(w);
      if done {
        EndsEarly(s, es, Script(target, w));
        return Succeeded(c.from);
      }
      var ok, now := Revert(c, src, w.revertSaved, w.revert, s, es, target, again, false);
      es := es + Back(w.revertSaved, w.revert);
      if ok || !again {
        EndsEarly(s, es, Script(target, w));
        return if ok then Failed(now) else Stranded(w.revertSaved);
      }
      ok, now := Revert(c, src, w.againSaved, w.again, s, es, target, false, w.revertSaved);
      return if ok then Failed(now) else Stranded(w.revertSaved || w.againSaved);
    }
  }

  /** What a migration keeps in local variables. */
  datatype Plan = Plan(source: Mode, live: string, from: string, original: string, carried: string) {
    function Call(target: Mode, src: nat): Call {
      MigrationProtocol.Call(target, source, src, live, from, original, carried)
    }
  }

  /** What the world answers to one `memory_migrate` call, in the order it is asked. */
  datatype World = World(
    env: BuildEnv, exported: Export, config: bool, saved: bool, forward: BuildEnv, target: BuildEnv,
    imported: Import, revertSaved: bool, revert: BuildEnv, againSaved: bool, again: BuildEnv)

  function Opening(target: Mode, w: World): seq<Event> {
    [Begin(target), TakeSource(w.env), ReadLive, RunExport(w.exported), SaveConfig(w.config, w.saved)]
  }

  function Crossing(w: World): seq<Event> {
    [Forward(w.forward), TakeTarget(w.target), RunImport(w.imported)]
  }

  function Back(written: bool, env: BuildEnv): seq<Event> {
    [RevertSave(written), RevertRebuild(env)]
  }

  /** Every event one call can go through, in order; those that are not enabled when their turn comes change nothing. */
  function Script(target: Mode, w: World): seq<Event> {
    Opening(target, w) + Crossing(w) + Back(w.revertSaved, w.revert) + Back(w.againSaved, w.again)
  }

  /** An event of a migration under way. */
  predicate Later(e: Event) {
    !(e.ToolCall? || e.SwitchTake? || e.SwitchLookup? || e.SwitchCommit? || e.SwitchLabel? || e.Begin?)
  }

  lemma LaterAfterOpening(target: Mode, w: World)
    ensures |Opening(target, w)| > 0 && forall i :: 0 < i < |Script(target, w)| ==> Later(Script(target, w)[i])
  {
  }

  /** What the script does up to the config save. */
  lemma OpeningRuns(s: Sys, target: Mode, w: World)
    requires InRange(s.sh) && s.mig.Idle?
    ensures var t := Run(s, Opening(target, w));
            var (sh, got) := ProcessBackend.GetBackend(s.sh, w.env);
            if target == Hosted || s.sh.mode == target then t.sh == s.sh && t.mig == Idle(Nothing)
            else if got.None? || !w.exported.Wrote? || !w.config || !w.saved then t.sh == sh && t.mig == Idle(Nothing)
            else
              && got.value < |sh.objs|
              && var live := LiveWorkspace(sh.objs[got.value]);
                 && t.sh == sh.(cfgMode := ModeName(target))
                 && t.mig == Saved(Call(target, s.sh.mode, got.value, if s.sh.mode == Remote then live else "", live,
                                        sh.cfgMode, if target == Remote then sh.parked else ""))
  {
    hide Run, Next, LiveWorkspace;
    var all := Opening(target, w);
    LaterAfterOpening(target, w);
    assert forall i :: 0 < i < |all| ==> all[i] == Script(target, w)[i];
    Begun(s, target);
    var es := [Begin(target)];
    if target == Hosted || s.sh.mode == target {
      EndsEarly(s, es, all);
      return;
    }
    Taken(s, es, w.env);
    es := es + [TakeSource(w.env)];
    if ProcessBackend.GetBackend(s.sh, w.env).1.None? {
      EndsEarly(s, es, all);
      return;
    }
    SourcedRuns(s, es, target, w);
  }

  /** The rest of the opening, once the source object is taken. */
  lemma SourcedRuns(s: Sys, taken: seq<Event>, target: Mode, w: World)
    requires taken == [Begin(target), TakeSource(w.env)] && Run(s, taken).mig.Sourced?
    requires Run(s, taken).mig.call.target == target
    ensures var b, t := Run(s, taken), Run(s, Opening(target, w));
            var c := b.mig.call;
            if !w.exported.Wrote? || !w.config || !w.saved then t.sh == b.sh && t.mig == Idle(Nothing)
            else
              var live := SourcePick(b, c.source, c.src);
              && t.sh == b.sh.(cfgMode := ModeName(target))
              && t.mig == Saved(c.(live := live, from := ExportReads(b, c.(live := live)), original := b.sh.cfgMode,
                                   carried := if target == Remote then b.sh.parked else ""))
  {
    hide Run, Next, LiveWorkspace;
    var all := Opening(target, w);
    Read(s, taken);
    var es := taken + [ReadLive];
    ExportRan(s, es, w.exported);
    es := es + [RunExport(w.exported)];
    if !w.exported.Wrote? {
      assert all == es + [SaveConfig(w.config, w.saved)];
      EndsEarly(s, es, all);
      return;
    }
    ConfigSaved(s, es, w.config, w.saved);
    es := es + [SaveConfig(w.config, w.saved)];
    assert es == all;
  }

  /** What the script does from the config save to the import. */
  lemma CrossingRuns(s: Sys, before: seq<Event>, w: World)
    requires Run(s, before).mig.Saved?
    ensures var b, t := Run(s, before), Run(s, before + Crossing(w));
            var c := b.mig.call;
            var (sh, ok) := ProcessBackend.Rebuild(b.sh, c.target, c.carried, w.forward);
            var (sh', got) := ProcessBackend.GetBackend(sh, w.target);
            if !ok then t.sh == sh && t.mig == Reverting(c, false, false)
            else if got.None? then t.sh == sh' && t.mig == Reverting(c, false, false)
            else if !w.imported.SomeImported? then t.sh == sh' && t.mig == Reverting(c, w.imported.AllFailed?, false)
            else
              && t.sh == sh'.(parked := if c.target == Local then c.live else "")
              && t.mig == Idle(Succeeded(c.from))
  {
    hide Run, Next, ProcessBackend.GetBackend, ProcessBackend.Rebuild;
    var es := before + [Forward(w.forward)];
    ForwardRebuilt(s, before, w.forward);
    if Run(s, es).mig.Forwarded? {
      TargetTaken(s, es, w.target);
    } else {
      Skipped(s, es, TakeTarget(w.target));
    }
    es := es + [TakeTarget(w.target)];
    if Run(s, es).mig.Importing? {
      Imported(s, es, w.imported);
    } else {
      Skipped(s, es, RunImport(w.imported));
    }
    var c := Run(s, before).mig.call;
    var (sh, ok) := ProcessBackend.Rebuild(Run(s, before).sh, c.target, c.carried, w.forward);
    var (sh', got) := ProcessBackend.GetBackend(sh, w.target);
    assert ok <==> Run(s, before + [Forward(w.forward)]).mig.Forwarded?;
    assert ok && got.None? ==> Run(s, es).mig == Reverting(c, false, false);
    assert es + [RunImport(w.imported)] == before + Crossing(w);
  }

  lemma {:induction false} IdleStays(s: Sys, es: seq<Event>)
    requires s.mig.Idle? && forall e :: e in es ==> Later(e)
    ensures Run(s, es) == s
    decreases |es|
  {
    if es != [] {
      assert es[0] in es;
      IdleStays(s, es[1..]);
    }
  }

  /** Once the migration is over, the rest of its script changes nothing. */
  lemma EndsEarly(s: Sys, es: seq<Event>, all: seq<Event>)
    requires 0 < |es| && es <= all && Run(s, es).mig.Idle? && forall i :: 0 < i < |all| ==> Later(all[i])
    ensures Run(s, all) == Run(s, es)
  {
    hide Run;
    var rest := all[|es|..];
    forall e | e in rest
      ensures Later(e)
    {
      var i :| 0 <= i < |rest| && rest[i] == e;
      assert all[|es| + i] == e;
    }
    assert all == es + rest;
    RunOfConcat(s, es, rest);
    IdleStays(Run(s, es), rest);
  }

  lemma {:induction false} RunOfConcat(s: Sys, a: seq<Event>, b: seq<Event>)
    ensures Run(s, a + b) == Run(Run(s, a), b)
    decreases |a|
  {
    hide Next;
    if a == [] {
      assert a + b == b;
    } else {
      assert (a + b)[1..] == a[1..] + b;
      RunOfConcat(Next(s, a[0]), a[1..], b);
    }
  }

  // One event of the migration appended to a run, with what it does to the shared state and the counter.

  /** A migration that reverts passes over what only a forward one does, and over a rebuild no save preceded. */
  lemma Skipped(s: Sys, es: seq<Event>, e: Event)
    requires Run(s, es).mig.Reverting? && (e.TakeTarget? || e.RunImport? || e.RevertRebuild?)
    ensures Run(s, es + [e]) == Run(s, es)
  {
    hide Run, Lookup, ProcessBackend.GetBackend, ProcessBackend.Rebuild;
    RunOfAppend(s, es, e);
  }

  lemma Begun(s: Sys, target: Mode)
    requires s.mig.Idle?
    ensures Run(s, [Begin(target)]).sh == s.sh
    ensures Run(s, [Begin(target)]).mig ==
            if target == Hosted || s.sh.mode == target then Idle(Nothing) else Chosen(target, s.sh.mode)
  {
    Singleton(s, Begin(target));
  }

  lemma Taken(s: Sys, es: seq<Event>, env: BuildEnv)
    requires Run(s, es).mig.Chosen?
    ensures var t, r := Run(s, es), Run(s, es + [TakeSource(env)]);
            var (sh, got) := ProcessBackend.GetBackend(t.sh, env);
            && r.sh == sh
            && r.mig == if got.None? then Idle(Nothing)
                        else Sourced(Call(t.mig.target, t.mig.source, got.value, "", "", "", ""))
  {
    hide Run, Lookup;
    RunOfAppend(s, es, TakeSource(env));
  }

  lemma Read(s: Sys, es: seq<Event>)
    requires Run(s, es).mig.Sourced?
    ensures var t, r := Run(s, es), Run(s, es + [ReadLive]);
            && r.sh == t.sh
            && r.mig == Exporting(t.mig.call.(live := SourcePick(t, t.mig.call.source, t.mig.call.src)))
  {
    hide Run, Lookup, SourcePick;
    RunOfAppend(s, es, ReadLive);
  }

  lemma ExportRan(s: Sys, es: seq<Event>, x: Export)
    requires Run(s, es).mig.Exporting?
    ensures var t, r := Run(s, es), Run(s, es + [RunExport(x)]);
            && r.sh == t.sh
            && r.mig ==
               if x.Wrote? then Exported(t.mig.call.(from := ExportReads(t, t.mig.call))) else Idle(Nothing)
  {
    hide Run, Lookup, ExportReads;
    RunOfAppend(s, es, RunExport(x));
  }

  lemma ConfigSaved(s: Sys, es: seq<Event>, available: bool, written: bool)
    requires Run(s, es).mig.Exported?
    ensures var t, r := Run(s, es), Run(s, es + [SaveConfig(available, written)]);
            var c := t.mig.call;
            if available && written then
              && r.sh == t.sh.(cfgMode := ModeName(c.target))
              && r.mig ==
                 Saved(c.(original := t.sh.cfgMode, carried := if c.target == Remote then t.sh.parked else ""))
            else r.sh == t.sh && r.mig == Idle(Nothing)
  {
    hide Run, Lookup, SourcePick;
    RunOfAppend(s, es, SaveConfig(available, written));
  }

  lemma ForwardRebuilt(s: Sys, es: seq<Event>, env: BuildEnv)
    requires Run(s, es).mig.Saved?
    ensures var t, r := Run(s, es), Run(s, es + [Forward(env)]);
            var c := t.mig.call;
            var (sh, ok) := ProcessBackend.Rebuild(t.sh, c.target, c.carried, env);
            && r.sh == sh
            && r.mig == if ok then Forwarded(c) else Reverting(c, false, false)
  {
    hide Run, Lookup, ProcessBackend.Rebuild;
    RunOfAppend(s, es, Forward(env));
  }

  lemma TargetTaken(s: Sys, es: seq<Event>, env: BuildEnv)
    requires Run(s, es).mig.Forwarded?
    ensures var t, r := Run(s, es), Run(s, es + [TakeTarget(env)]);
            var (sh, got) := ProcessBackend.GetBackend(t.sh, env);
            && r.sh == sh
            && r.mig == if got.Some? then Importing(t.mig.call) else Reverting(t.mig.call, false, false)
  {
    hide Run, Lookup, ProcessBackend.GetBackend;
    RunOfAppend(s, es, TakeTarget(env));
  }

  lemma Imported(s: Sys, es: seq<Event>, x: Import)
    requires Run(s, es).mig.Importing?
    ensures var t, r := Run(s, es), Run(s, es + [RunImport(x)]);
            var c := t.mig.call;
            if x.SomeImported? then
              && r.sh == t.sh.(parked := if c.target == Local then c.live else "")
              && r.mig == Idle(Succeeded(c.from))
            else r.sh == t.sh && r.mig == Reverting(c, x.AllFailed?, false)
  {
    hide Run, Lookup, ProcessBackend.GetBackend, ProcessBackend.Rebuild;
    RunOfAppend(s, es, RunImport(x));
  }

  lemma Reverted(s: Sys, es: seq<Event>, written: bool, env: BuildEnv)
    requires Run(s, es).mig.Reverting?
    ensures var t, r := Run(s, es), Run(s, es + Back(written, env));
            var c := t.mig.call;
            var now := SourcePick(t, c.source, c.src);
            var (sh, ok) := ProcessBackend.Rebuild(t.sh.(cfgMode := c.original), c.source, now, env);
            && r.sh == (if written then sh else t.sh)
            && r.mig ==
               if written && ok then Idle(Failed(now))
               else if t.mig.again then Reverting(c, false, t.mig.saved || written)
               else Idle(Stranded(t.mig.saved || written))
  {
    hide Run;
    RunOfAppend(s, es, RevertSave(written));
    RunOfAppend(s, es + [RevertSave(written)], RevertRebuild(env));
    assert es + Back(written, env) == es + [RevertSave(written)] + [RevertRebuild(env)];
    BackSteps(Run(s, es), written, env);
  }

  lemma BackSteps(t: Sys, written: bool, env: BuildEnv)
    requires t.mig.Reverting?
    ensures var r := Next(Next(t, RevertSave(written)), RevertRebuild(env));
            var c := t.mig.call;
            var now := SourcePick(t, c.source, c.src);
            var (sh, ok) := ProcessBackend.Rebuild(t.sh.(cfgMode := c.original), c.source, now, env);
            && r.sh == (if written then sh else t.sh)
            && r.mig ==
               if written && ok then Idle(Failed(now))
               else if t.mig.again then Reverting(c, false, t.mig.saved || written)
               else Idle(Stranded(t.mig.saved || written))
  {
    hide ProcessBackend.Rebuild, LiveWorkspace;
  }

  lemma Singleton(s: Sys, e: Event)
    ensures Run(s, [e]) == Next(s, e)
  {
    assert [e][1..] == [];
  }

  lemma {:induction false} RunOfAppend(s: Sys, es: seq<Event>, e: Event)
    ensures Run(s, es + [e]) == Next(Run(s, es), e)
    decreases |es|
  {
    if es == [] {
      Singleton(s, e);
      assert es + [e] == [e];
    } else {
      assert (es + [e])[1..] == es[1..] + [e];
      RunOfAppend(Next(s, es[0]), es[1..], e);
    }
  }

  /** With nothing interleaved the three events of a switch come down to one lookup and one commit. */
  lemma SwitchAlone(s: Sys, k: nat, ref: string, loggedIn: bool, rows: Option<seq<WorkspaceSelect.Row>>, env: BuildEnv)
    requires InRange(s.sh) && k !in s.switches
    ensures var t := Run(s, [SwitchTake(k, env), SwitchLookup(k, ref, loggedIn, rows), SwitchCommit(k)]);
            var (sh, got) := ProcessBackend.GetBackend(s.sh, env);
            && InRange(sh) && sh.common == got && k in t.switches
            && (got.None? ==> t.sh == sh && t.switches[k] == Refused)
            && (got.Some? ==>
                  match Lookup(sh.objs[got.value], ref, loggedIn, rows)
                  case None => t.sh == sh && t.switches[k] == Refused
                  case Some(f) =>
                    && t.sh == ProcessBackend.CommitIfCurrent(sh, got.value, f.workspace).0
                    && t.switches[k] == if sh.objs[got.value].LocalBackend? then AlreadyThere
                                        else Switched(got.value, f.workspace, f.listed))
  {
    hide Lookup, Run;
    var es := [SwitchTake(k, env), SwitchLookup(k, ref, loggedIn, rows), SwitchCommit(k)];
    ThreeSteps(s, es);
    var (sh, got) := ProcessBackend.GetBackend(s.sh, env);
    var s1 := Next(s, es[0]);
    var s2 := Next(s1, es[1]);
    if got.Some? {
      assert s1.sh == sh && s1.switches[k] == Holding(got.value);
      match Lookup(sh.objs[got.value], ref, loggedIn, rows)
      case None => assert s2.sh == sh && s2.switches[k] == Refused;
      case Some(f) =>
        assert s2.sh == sh && s2.switches[k] == Resolved(got.value, f.workspace, f.listed);
        assert sh.objs[got.value := sh.objs[got.value]] == sh.objs;
    }
  }

  /** What a switch looks up on the backend it takes is what the reference names. */
  lemma LookupFindsWhatIsNamed(sh0: Shared, env: BuildEnv, ref: string, loggedIn: bool,
                               rows: Option<seq<WorkspaceSelect.Row>>)
    requires InRange(sh0)
    ensures var (sh, got) := ProcessBackend.GetBackend(sh0, env);
            && (got.Some? ==> got.value < |sh.objs|)
            && (got.Some? && sh.objs[got.value].LocalBackend? ==>
                  (Lookup(sh.objs[got.value], ref, loggedIn, rows).Some? <==>
                   Text.Lower(Text.Strip(ref)) == "default"))
            && (got.Some? && sh.objs[got.value].RemoteBackend? ==>
                  && var found := Lookup(sh.objs[got.value], ref, loggedIn, rows);
                     && (found.Some? ==>
                           && WorkspaceSelect.Asked(ref, loggedIn, rows)
                           && WorkspaceSelect.Names(rows.value, ref, found.value.workspace)
                           && found.value.listed == WorkspaceSelect.Ids(WorkspaceSelect.Usable(rows.value)))
                     && (forall id ::
                           WorkspaceSelect.Asked(ref, loggedIn, rows) && WorkspaceSelect.Names(rows.value, ref, id)
                           ==> found.Some? && found.value.workspace == id))
  {
    hide Text.Strip, Text.Lower, WorkspaceSelect.Choose, WorkspaceSelect.Asks, WorkspaceSelect.Asked,
         WorkspaceSelect.Names;
    WorkspaceSelect.ChoosesWhatIsNamed(ref, loggedIn, rows);
  }

  lemma ThreeSteps(s: Sys, es: seq<Event>)
    requires |es| == 3
    ensures Run(s, es) == Next(Next(Next(s, es[0]), es[1]), es[2])
  {
    assert es[1..][1..] == [es[2]];
    assert Run(Next(Next(s, es[0]), es[1]), [es[2]]) == Next(Next(Next(s, es[0]), es[1]), es[2]);
  }
}
