/** The header rule's session and the migration protocol tell the same story: what a rebuild carries, what a switch
    commits and what a move to local parks. */
module MigrationHeaders {
  import opened Wrappers
  import opened ProcessBackend
  import opened MigrationProtocol
  import opened MigrationTheorems
  import H = HeaderRule
  import WorkspaceSelect

  /** The client holds the pick of object `id` and the parked workspace. */
  predicate Shows(c: H.Client, sh: Shared, id: nat) {
    && id < |sh.objs| && sh.objs[id] == RemoteBackend(c.session.pick)
    && c.parked == sh.parked
  }

  /** A remote rebuild that returns: whatever tool comes next gets an object whose pick is that of the session rebuilt
      around the carried workspace, from the environment of the rebuild or, with nothing carried, of the first call. */
  lemma RebuiltObjectShowsRebuiltSession(s: Sys, e: Event, later: BuildEnv, token: string)
    requires Inv(s) && Rebuilds(s, e) && Wanted(s, e).0 == Remote && !Raises(s, e)
    requires later.apiKey || later.config
    ensures var carried := Wanted(s, e).1;
            var (sh, got) := GetBackend(Next(s, e).sh, later);
            && got.Some? && got.value < |sh.objs|
            && sh.objs[got.value] ==
               RemoteBackend(H.Rebuilt(token, carried, if carried != "" then e.env else later).pick)
  {
    hide Next, Rebuild, GetBackend, FirstSet;
    AfterRebuild(s, e);
    RaisesIffNotOk(s, e);
    BuiltShowsRebuilt(s.sh, Wanted(s, e).1, e.env, later, token);
  }

  lemma BuiltShowsRebuilt(sh0: Shared, carried: string, env: BuildEnv, later: BuildEnv, token: string)
    requires Rebuild(sh0, Remote, carried, env).1 && (later.apiKey || later.config)
    ensures var (sh, got) := GetBackend(Rebuild(sh0, Remote, carried, env).0, later);
            && got.Some? && got.value < |sh.objs|
            && sh.objs[got.value] == RemoteBackend(H.Rebuilt(token, carried, if carried != "" then env else later).pick)
  {
  }

  /** The revert's rebuild is the session's `Rebuild`: a client that shows the source object shows the new one. */
  lemma RevertIsRebuild(s: Sys, e: Event, c: H.Client, later: BuildEnv, token: string)
    requires Inv(s) && s.mig.Restoring? && s.mig.call.source == Remote && e.RevertRebuild? && !Raises(s, e)
    requires Shows(c, s.sh, s.mig.call.src) && (later.apiKey || later.config)
    ensures var (sh, got) := GetBackend(Next(s, e).sh, later);
            var env := if c.session.pick != "" then e.env else later;
            got.Some? && Shows(H.Next(c, H.Rebuild(token, env)).0, sh, got.value)
  {
    hide Next, Rebuild, GetBackend, FirstSet;
    RebuiltObjectShowsRebuiltSession(s, e, later, token);
    AfterRebuild(s, e);
    RebuildKeeps(s.sh, Wanted(s, e).0, Wanted(s, e).1, e.env);
    GetBackendKeeps(Next(s, e).sh, later);
  }

  /** A move to local that completes parks what `LeaveRemote` parks, for a client with the pick the export read. */
  lemma CompletionIsLeaveRemote(s: Sys, e: Event, c: H.Client)
    requires Inv(s) && Completes(s, e) && s.mig.call.target == Local && c.session.pick == s.mig.call.live
    ensures Next(s, e).sh.parked == H.Next(c, H.LeaveRemote).0.parked
  {
  }

  /** A move back to remote is `ReturnRemote`: its forward rebuild gives every tool an object with the pick of the
      session returned to, and its completion clears what was parked. */
  lemma ForwardIsReturnRemote(s: Sys, e: Event, c: H.Client, later: BuildEnv, token: string)
    requires Inv(s) && CarriesParked(s) && s.mig.Saved? && s.mig.call.target == Remote && e.Forward? && !Raises(s, e)
    requires c.parked == s.sh.parked && (later.apiKey || later.config)
    ensures var (sh, got) := GetBackend(Next(s, e).sh, later);
            var env := if c.parked != "" then e.env else later;
            var c' := H.Next(c, H.ReturnRemote(token, env)).0;
            && got.Some? && got.value < |sh.objs| && sh.objs[got.value] == RemoteBackend(c'.session.pick)
            && c'.parked == ""
  {
    hide Next, Rebuild, GetBackend, FirstSet;
    RebuiltObjectShowsRebuiltSession(s, e, later, token);
  }

  lemma ArrivalClearsParking(s: Sys, e: Event)
    requires Inv(s) && Completes(s, e) && s.mig.call.target == Remote
    ensures Next(s, e).sh.parked == ""
  {
  }

  /** A switch look-up followed by its landed commit is the session's `Switch`. */
  lemma CommitIsSwitch(s: Sys, k: nat, ref: string, loggedIn: bool, rows: Option<seq<WorkspaceSelect.Row>>,
                       c: H.Client, me: H.AuthMe)
    requires Inv(s) && k in s.switches && s.switches[k].Holding? && s.sh.common == Some(s.switches[k].backend)
    requires Shows(c, s.sh, s.switches[k].backend) && loggedIn == (c.session.token != "")
    ensures var t := Next(Next(s, SwitchLookup(k, ref, loggedIn, rows)), SwitchCommit(k));
            Shows(H.Next(c, H.Switch(ref, rows, me)).0, t.sh, s.switches[k].backend)
  {
    hide WorkspaceSelect.Choose, WorkspaceSelect.Asks;
  }
}
