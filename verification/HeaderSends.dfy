/** What each request of a session names, stated on the requests themselves: an argument or a pin wins over the pick,
    the pick is sent when there is neither, and the listing and the routing questions never name a workspace. */
module HeaderSends {
  import opened Wrappers
  import opened HeaderRule
  import ProcessBackend
  import Text
  import WorkspaceSelect

  function Last(sent: seq<Sent>): Sent
    requires sent != []
  {
    sent[|sent| - 1]
  }

  /** A workspace header, or none for no workspace. */
  function Named(workspace: string): Option<string> {
    if workspace == "" then None else Some(workspace)
  }

  /** The session must still ask who it is before its first request. */
  predicate AsksFirst(c: Client) {
    !c.session.bootstrapped && c.session.token != ""
  }

  /** What a session sends for one request: at most one `/auth/me` before it, and the request itself with the key, the
      client and the workspace given. The pick stays, and a session with a key does not ask again. */
  predicate SendsOne(c: Client, next: (Client, seq<Sent>), workspace: Option<string>) {
    && next.1 == (if AsksFirst(c) then [Sent(c.session.token, None, None)] else [])
                 + [Sent(c.session.token, Some(c.session.clientKey), workspace)]
    && next.0.session.pick == c.session.pick && next.0.parked == c.parked
    && next.0.session.token == c.session.token && next.0.session.clientKey == c.session.clientKey
    && (c.session.token != "" ==> next.0.session.bootstrapped)
  }

  /** A call names its argument, else the pick, else nothing. */
  lemma CallNames(c: Client, w: string, me: AuthMe)
    ensures SendsOne(c, Next(c, Call(w, me)), if w != "" then Some(w) else Named(c.session.pick))
  {
  }

  /** A pinned export names exactly its pin, and nothing when the pin is empty; an unpinned one names the pick. */
  lemma ExportNames(c: Client, p: string, me: AuthMe)
    ensures SendsOne(c, Next(c, ExportOkf(Pinned(p), me)), Named(p))
    ensures SendsOne(c, Next(c, ExportOkf(LivePick, me)), Named(c.session.pick))
  {
  }

  /** The routing question and the listing name no workspace, with or without a pick. */
  lemma QuestionsNameNothing(c: Client, me: AuthMe)
    ensures SendsOne(c, Next(c, Explain(me)), None) && SendsOne(c, Next(c, ListWorkspaces(me)), None)
  {
  }

  /** Clients that differ at most in their pick send the same for a call with an argument and for a pinned export: a
      switch that commits while an export is running cannot change what it reads. */
  lemma PickDoesNotReachAPinnedRequest(c: Client, d: Client, w: string, p: string, me: AuthMe)
    requires w != "" && c.session.(pick := "") == d.session.(pick := "")
    ensures Next(c, Call(w, me)).1 == Next(d, Call(w, me)).1
    ensures Next(c, ExportOkf(Pinned(p), me)).1 == Next(d, ExportOkf(Pinned(p), me)).1
  {
  }

  /** What `switch_workspace` shows and the routing answer displays: the pick, else the suggested default. */
  function Displayed(s: Session): string {
    if s.pick != "" then s.pick else s.defaultTeam
  }

  /** The default the server suggests is what a session without a pick displays after its first request, and still
      nothing it sends. */
  lemma DefaultIsDisplayedOnly(c: Client, d: string, me: AuthMe)
    requires AsksFirst(c) && c.session.pick == "" && me == Account(d)
    ensures Displayed(Next(c, Call("", me)).0.session) == d
    ensures Last(Next(c, Call("", me)).1).workspace == None
  {
    CallNames(c, "", me);
  }

  // ------------------------------------------------------------------ login, client key, rebuild

  /** After a login the requests carry the new key; a team argument is named from then on, but only when the service
      knew the key, and the account default never is. */
  lemma LoginNames(c: Client, key: string, team: string, me: AuthMe, later: AuthMe)
    requires key != ""
    ensures var (c', sent) := Next(c, Login(key, team, me));
            var pick := if me.Account? && team != "" then team else c.session.pick;
            && sent == [Sent(key, None, None)] && c'.parked == c.parked
            && (AsksFirst(c') <==> me.NoAnswer?)
            && Last(Next(c', Call("", later)).1) == Sent(key, Some(c.session.clientKey), Named(pick))
            && (me.Account? ==> Displayed(c'.session) == if pick != "" then pick else me.defaultTeam)
  {
  }

  lemma LoginWithoutAKeyDoesNothing(c: Client, team: string, me: AuthMe)
    ensures Next(c, Login("", team, me)) == (c, [])
  {
  }

  /** The client key set is the one sent; an empty one falls back to `mcp:stdio`. */
  lemma ClientKeyIsSent(c: Client, key: string, me: AuthMe)
    ensures var c' := Next(c, SetClientKey(key)).0;
            && Next(c, SetClientKey(key)).1 == []
            && Last(Next(c', Call("", me)).1) ==
               Sent(c.session.token, Some(if key == "" then "mcp:stdio" else key), Named(c.session.pick))
  {
  }

  /** A rebuilt session names the carried pick, else the environment's workspace, else the saved one; what it then
      sends is under the new key and the fallback client. */
  lemma RebuildNames(c: Client, token: string, env: ProcessBackend.BuildEnv, me: AuthMe)
    ensures var saved := if env.config then env.savedTeam else "";
            var start := (carried: string) =>
              Sent(token, Some("mcp:stdio"), Named(if carried != "" then carried
                                                   else if env.envWorkspace != "" then env.envWorkspace else saved));
            && Last(Next(Next(c, Rebuild(token, env)).0, Call("", me)).1) == start(c.session.pick)
            && Last(Next(Next(c, ReturnRemote(token, env)).0, Call("", me)).1) == start(c.parked)
            && Next(c, ReturnRemote(token, env)).0.parked == ""
            && Next(c, LeaveRemote).0.parked == c.session.pick
  {
  }

  // ------------------------------------------------------------------ one `/auth/me` a key

  /** An event of a session that keeps its key. */
  predicate KeepsKey(e: Event) {
    !e.Login? && !e.Rebuild? && !e.ReturnRemote? && !e.HostedCall?
  }

  lemma AskedOnceStep(c: Client, e: Event)
    requires KeepsKey(e) && !AsksFirst(c)
    ensures !AsksFirst(Next(c, e).0) && forall x :: x in Next(c, e).1 ==> x.client.Some?
  {
    hide WorkspaceSelect.Asks, WorkspaceSelect.Choose;
  }

  /** A session asks `/auth/me` at most once for a key: whatever it does later, every request is one to a route. */
  lemma {:induction false} AskedOnce(c: Client, es: seq<Event>)
    requires !AsksFirst(c) && forall e :: e in es ==> KeepsKey(e)
    ensures forall i :: 0 <= i < |es| ==> forall x :: x in Trace(c, es)[i] ==> x.client.Some?
    decreases |es|
  {
    hide Next;
    if es != [] {
      assert es[0] in es;
      AskedOnceStep(c, es[0]);
      assert forall e :: e in es[1..] ==> e in es;
      AskedOnce(Next(c, es[0]).0, es[1..]);
      assert forall i :: 1 <= i < |es| ==> Trace(c, es)[i] == Trace(Next(c, es[0]).0, es[1..])[i - 1];
    }
  }

  // ------------------------------------------------------------------ switches

  /** The reference names workspace `id` in the listing the caller got. */
  ghost predicate Points(ref: string, token: string, rows: Option<seq<WorkspaceSelect.Row>>, id: string) {
    WorkspaceSelect.Asked(ref, token != "", rows) && WorkspaceSelect.Names(rows.value, ref, id)
  }

  /** A switch names its listing request to nobody's workspace and changes the pick exactly to what the reference names
      in the caller's listing: the id of a row that has one, else the id of the only such row bearing the name. */
  lemma SwitchTakesWhatIsNamed(c: Client, ref: string, rows: Option<seq<WorkspaceSelect.Row>>, me: AuthMe)
    ensures var (c', sent) := Next(c, Switch(ref, rows, me));
            var asked := WorkspaceSelect.Asked(ref, c.session.token != "", rows);
            && (forall x :: x in sent ==> x.workspace.None?)
            && (asked ==> Last(sent) == Sent(c.session.token, Some(c.session.clientKey), None))
            && c'.parked == c.parked && c'.session.token == c.session.token
            && (forall id :: Points(ref, c.session.token, rows, id) ==> c'.session.pick == id)
            && (c'.session.pick != c.session.pick ==> Points(ref, c.session.token, rows, c'.session.pick))
  {
    hide Next, Points, WorkspaceSelect.Choose, WorkspaceSelect.Asks, WorkspaceSelect.Asked, Last;
    ChosenIsPointedAt(ref, c.session.token, rows);
    AskedAsks(ref, c.session.token != "", rows);
    SwitchSends(c, ref, rows, me);
  }

  lemma ChosenIsPointedAt(ref: string, token: string, rows: Option<seq<WorkspaceSelect.Row>>)
    ensures var chosen := WorkspaceSelect.Choose(WorkspaceSelect.Asks(ref, token != ""), ref, rows);
            && (chosen.Some? ==> Points(ref, token, rows, chosen.value))
            && (forall id :: Points(ref, token, rows, id) ==> chosen == Some(id))
  {
    hide WorkspaceSelect.Choose, WorkspaceSelect.Names, WorkspaceSelect.Asks, WorkspaceSelect.Asked;
    WorkspaceSelect.ChoosesWhatIsNamed(ref, token != "", rows);
  }

  lemma SwitchSends(c: Client, ref: string, rows: Option<seq<WorkspaceSelect.Row>>, me: AuthMe)
    ensures var (c', sent) := Next(c, Switch(ref, rows, me));
            var asks := WorkspaceSelect.Asks(ref, c.session.token != "");
            && c'.session.pick == WorkspaceSelect.Choose(asks, ref, rows).GetOr(c.session.pick)
            && c'.parked == c.parked && c'.session.token == c.session.token
            && (forall x :: x in sent ==> x.workspace.None?)
            && (asks ==> sent != [] && Last(sent) == Sent(c.session.token, Some(c.session.clientKey), None))
  {
    hide Bootstrap, WorkspaceSelect.Choose, WorkspaceSelect.Asks;
    BootstrapNamesNothing(c.session, me);
  }

  lemma AskedAsks(ref: string, loggedIn: bool, rows: Option<seq<WorkspaceSelect.Row>>)
    ensures WorkspaceSelect.Asked(ref, loggedIn, rows) ==> WorkspaceSelect.Asks(ref, loggedIn)
  {
    hide Text.Strip;
  }

  lemma BootstrapNamesNothing(s: Session, me: AuthMe)
    ensures var (b, first) := Bootstrap(s, me);
            && b.token == s.token && b.pick == s.pick && b.clientKey == s.clientKey
            && forall x :: x in first ==> x.workspace.None?
  {
  }
}
