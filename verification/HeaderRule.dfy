/** The remote backend's session and the header rule: `X-Workspace-Id` carries an explicit pick only,
    and the default workspace the server suggests is for display. */
module HeaderRule {
  import opened Wrappers
  import ProcessBackend
  import WorkspaceSelect

  datatype Session = Session(token: string, pick: string, defaultTeam: string, bootstrapped: bool, clientKey: string)

  /** What `/auth/me` answers; the suggested default is "" when the account has none. */
  datatype AuthMe = NoAnswer | Account(defaultTeam: string)

  /** The headers of one request: bearer, `X-SM-Client`, `X-Workspace-Id`. */
  datatype Sent = Sent(bearer: string, client: Option<string>, workspace: Option<string>)

  datatype Pin = LivePick | Pinned(workspace: string)

  const CLIENT_KEY_FALLBACK := "mcp:stdio"

  function Fresh(token: string, pick: string): Session {
    Session(token, pick, "", false, CLIENT_KEY_FALLBACK)
  }

  /** `_bootstrap_from_api_key`: at most one `/auth/me` per key. */
  function Bootstrap(s: Session, me: AuthMe): (Session, seq<Sent>) {
    if s.bootstrapped || s.token == "" then (s, [])
    else
      (s.(bootstrapped := true, defaultTeam := if me.Account? then me.defaultTeam else s.defaultTeam),
       [Sent(s.token, None, None)])
  }

  /** `_headers` once the session is bootstrapped. */
  function Headers(s: Session, workspace: string): Sent {
    var w := if workspace != "" then workspace else s.pick;
    Sent(s.token, Some(s.clientKey), if w != "" then Some(w) else None)
  }

  function Headerless(s: Session): Sent {
    Headers(s, "").(workspace := None)
  }

  /** `export_okf`: a pinned export sends the pin, or no workspace header when the pin is empty. */
  function ExportHeaders(s: Session, pin: Pin): Sent {
    match pin
    case LivePick => Headers(s, "")
    case Pinned(w) => if w == "" then Headerless(s) else Headers(s, w)
  }

  datatype Event =
    | Call(workspace: string, me: AuthMe)
    | Explain(me: AuthMe)
    | ListWorkspaces(me: AuthMe)
    | ExportOkf(pin: Pin, me: AuthMe)
    | Login(key: string, team: string, me: AuthMe)
    | Switch(ref: string, rows: Option<seq<WorkspaceSelect.Row>>, me: AuthMe)
    | SetClientKey(key: string)
    | Rebuild(token: string, env: ProcessBackend.BuildEnv)
    | LeaveRemote
    | ReturnRemote(token: string, env: ProcessBackend.BuildEnv)
    | HostedCall(token: string, routed: string, active: string, clientKey: string, arguments: seq<string>)

  /** The process: its session and the workspace parked by a move to local. */
  datatype Client = Client(session: Session, parked: string)

  function Bootstrapped(c: Client, me: AuthMe, then_: Session -> seq<Sent>): (Client, seq<Sent>) {
    var (s, first) := Bootstrap(c.session, me);
    (c.(session := s), first + then_(s))
  }

  /** `build_backend` around a carried pick. */
  function Rebuilt(token: string, carried: string, env: ProcessBackend.BuildEnv): Session {
    Fresh(token, ProcessBackend.FirstSet(carried, env.envWorkspace, if env.config then env.savedTeam else ""))
  }

  /** `login`: a team argument is a pick, the account default is not. */
  function LoggedIn(s: Session, key: string, team: string, me: AuthMe): Session {
    match me
    case NoAnswer => s.(token := key, bootstrapped := false)
    case Account(d) =>
      s.(token := key, bootstrapped := true, defaultTeam := d, pick := if team != "" then team else s.pick)
  }

  /** The per-call hosted session, or None when construction is refused for lack of any workspace id. */
  function HostedSession(token: string, routed: string, active: string, clientKey: string): Option<Session> {
    var resolved := if routed != "" then routed else active;
    if token == "" || resolved == "" then None
    else Some(Session(token, "", if active != "" then active else resolved, true,
                      if clientKey != "" then clientKey else CLIENT_KEY_FALLBACK))
  }

  function SwitchStep(s: Session, ref: string, rows: Option<seq<WorkspaceSelect.Row>>, me: AuthMe)
    : (Session, seq<Sent>)
  {
    var (b, first) := Bootstrap(s, me);
    var asks := WorkspaceSelect.Asks(ref, b.token != "");
    (b.(pick := WorkspaceSelect.Choose(asks, ref, rows).GetOr(b.pick)),
     if asks then first + [Headerless(b)] else first)
  }

  function CallsFrom(s: Session, arguments: seq<string>): seq<Sent> {
    seq(|arguments|, i requires 0 <= i < |arguments| => Headers(s, arguments[i]))
  }

  function Next(c: Client, e: Event): (Client, seq<Sent>) {
    match e
    case Call(w, me) => Bootstrapped(c, me, s => [Headers(s, w)])
    case Explain(me) => Bootstrapped(c, me, s => [Headerless(s)])
    case ListWorkspaces(me) => Bootstrapped(c, me, s => [Headerless(s)])
    case ExportOkf(pin, me) => Bootstrapped(c, me, s => [ExportHeaders(s, pin)])
    case Login(key, team, me) =>
      if key == "" then (c, [])
      else (c.(session := LoggedIn(c.session, key, team, me)), [Sent(key, None, None)])
    case Switch(ref, rows, me) =>
      var (s, sent) := SwitchStep(c.session, ref, rows, me);
      (c.(session := s), sent)
    case SetClientKey(key) =>
      (c.(session := c.session.(clientKey := if key != "" then key else CLIENT_KEY_FALLBACK)), [])
    case Rebuild(token, env) => (c.(session := Rebuilt(token, c.session.pick, env)), [])
    case LeaveRemote => (c.(parked := c.session.pick), [])
    case ReturnRemote(token, env) => (Client(Rebuilt(token, c.parked, env), ""), [])
    case HostedCall(token, routed, active, clientKey, arguments) =>
      var explain := [Sent(token, None, None)];
      match HostedSession(token, routed, active, clientKey)
      case None => (c, explain)
      case Some(s) => (c, explain + CallsFrom(s, arguments))
  }

  /** What each event of a run sends. */
  function Trace(c: Client, es: seq<Event>): (r: seq<seq<Sent>>)
    ensures |r| == |es|
    decreases |es|
  {
    if es == [] then [] else [Next(c, es[0]).1] + Trace(Next(c, es[0]).0, es[1..])
  }

  // ------------------------------------------------------------------ non-interference

  predicate SameAnswer(a: AuthMe, b: AuthMe) {
    a.Account? <==> b.Account?
  }

  /** The two events differ at most in the default workspace the server suggests. */
  predicate SameUser(a: Event, b: Event) {
    match a
    case Call(w, me) => b.Call? && b.workspace == w && SameAnswer(me, b.me)
    case Explain(me) => b.Explain? && SameAnswer(me, b.me)
    case ListWorkspaces(me) => b.ListWorkspaces? && SameAnswer(me, b.me)
    case ExportOkf(pin, me) => b.ExportOkf? && b.pin == pin && SameAnswer(me, b.me)
    case Login(key, team, me) => b.Login? && b.key == key && b.team == team && SameAnswer(me, b.me)
    case Switch(ref, rows, me) => b.Switch? && b.ref == ref && b.rows == rows && SameAnswer(me, b.me)
    case HostedCall(token, _, _, clientKey, arguments) =>
      b.HostedCall? && b.token == token && b.clientKey == clientKey && b.arguments == arguments
    case _ => a == b
  }

  predicate SameUsers(as_: seq<Event>, bs: seq<Event>) {
    |as_| == |bs| && forall i :: 0 <= i < |as_| ==> SameUser(as_[i], bs[i])
  }

  predicate SameButDefault(a: Client, b: Client) {
    a.parked == b.parked && a.session.(defaultTeam := "") == b.session.(defaultTeam := "")
  }

  /** A hosted call that sends data requests: both runs have some workspace id to display, or neither. */
  predicate Admitted(e: Event) {
    e.HostedCall? ==> e.routed != "" || e.active != ""
  }

  predicate AgreeOnAdmission(a: Event, b: Event) {
    a.HostedCall? && a.token != "" && a.arguments != [] ==> (Admitted(a) <==> Admitted(b))
  }

  lemma StepHidesDefault(c: Client, d: Client, a: Event, b: Event)
    requires SameButDefault(c, d) && SameUser(a, b)
    ensures SameButDefault(Next(c, a).0, Next(d, b).0)
    ensures Next(c, a).1 == Next(d, b).1 <==> AgreeOnAdmission(a, b)
  {
    hide WorkspaceSelect.Asks, WorkspaceSelect.Choose, Rebuilt;
    if a.HostedCall? {
      HostedStepHidesDefault(c, d, a, b);
    }
  }

  lemma HostedStepHidesDefault(c: Client, d: Client, a: Event, b: Event)
    requires a.HostedCall? && SameUser(a, b)
    ensures Next(c, a).0 == c && Next(d, b).0 == d
    ensures Next(c, a).1 == Next(d, b).1 <==> AgreeOnAdmission(a, b)
  {
    var x := HostedSession(a.token, a.routed, a.active, a.clientKey);
    var y := HostedSession(b.token, b.routed, b.active, b.clientKey);
    var explain := [Sent(a.token, None, None)];
    if x.Some? && y.Some? {
      assert CallsFrom(x.value, a.arguments) == CallsFrom(y.value, a.arguments);
    } else if a.arguments == [] {
      assert explain + [] == explain;
    } else {
      assert x.Some? ==> |Next(c, a).1| > 1;
      assert y.Some? ==> |Next(d, b).1| > 1;
    }
  }

  /** Two runs of the same user events that differ only in the suggested default send the same
      headers on every request, if and only if every hosted call that sends a data request is
      admitted in both or refused in both. */
  lemma {:induction false} DefaultNeverReachesAHeader(c: Client, d: Client, as_: seq<Event>, bs: seq<Event>)
    requires SameButDefault(c, d) && SameUsers(as_, bs)
    ensures Trace(c, as_) == Trace(d, bs)
            <==> forall i :: 0 <= i < |as_| ==> AgreeOnAdmission(as_[i], bs[i])
    decreases |as_|
  {
    if as_ != [] {
      assert SameUser(as_[0], bs[0]);
      StepHidesDefault(c, d, as_[0], bs[0]);
      var c', d' := Next(c, as_[0]).0, Next(d, bs[0]).0;
      assert forall i :: 0 <= i < |as_[1..]| ==> as_[1..][i] == as_[i + 1] && bs[1..][i] == bs[i + 1];
      DefaultNeverReachesAHeader(c', d', as_[1..], bs[1..]);
      var s, t := Trace(c, as_), Trace(d, bs);
      assert s[0] == Next(c, as_[0]).1 && s[1..] == Trace(c', as_[1..]);
      assert t[0] == Next(d, bs[0]).1 && t[1..] == Trace(d', bs[1..]);
      assert s == t <==> s[0] == t[0] && s[1..] == t[1..] by {
        if s[0] == t[0] && s[1..] == t[1..] { assert s == [s[0]] + s[1..] && t == [t[0]] + t[1..]; }
      }
      if s == t {
        forall i | 0 <= i < |as_| ensures AgreeOnAdmission(as_[i], bs[i]) {
          if i > 0 { assert as_[i] == as_[1..][i - 1] && bs[i] == bs[1..][i - 1]; }
        }
      }
    }
  }

  /** The failing input: one user's hosted call with and without an account default. Without one it is refused and
      sends no data request. */
  lemma DefaultAdmitsAHostedCall(c: Client)
    ensures var a, b := HostedCall("t", "", "ws-default", "k", ["w"]), HostedCall("t", "", "", "k", ["w"]);
            && SameUser(a, b) && SameButDefault(c, c) && SameUsers([a], [b])
            && Trace(c, [a]) != Trace(c, [b])
  {
    var a, b := HostedCall("t", "", "ws-default", "k", ["w"]), HostedCall("t", "", "", "k", ["w"]);
    StepHidesDefault(c, c, a, b);
    assert Trace(c, [a])[0] == Next(c, a).1 && Trace(c, [b])[0] == Next(c, b).1;
  }

  /** Every stdio event alone needs no side condition. */
  lemma StdioRunsNeverShowTheDefault(c: Client, d: Client, as_: seq<Event>, bs: seq<Event>)
    requires SameButDefault(c, d) && SameUsers(as_, bs)
    requires forall e :: e in as_ ==> !e.HostedCall?
    ensures Trace(c, as_) == Trace(d, bs)
  {
    DefaultNeverReachesAHeader(c, d, as_, bs);
    forall i | 0 <= i < |as_| ensures AgreeOnAdmission(as_[i], bs[i]) {
      assert as_[i] in as_;
    }
  }

  // ------------------------------------------------------------------ where a header comes from

  /** The workspaces a person names in one event: arguments, a login team, an own workspace, env or config. */
  function Named(e: Event): set<string> {
    match e
    case Call(w, _) => {w}
    case ExportOkf(pin, _) => if pin.Pinned? then {pin.workspace} else {}
    case Login(_, team, _) => {team}
    case Switch(_, rows, _) => if rows.Some? then WorkspaceSelect.Ids(WorkspaceSelect.Usable(rows.value)) else {}
    case Rebuild(_, env) => {env.envWorkspace, env.savedTeam}
    case ReturnRemote(_, env) => {env.envWorkspace, env.savedTeam}
    case HostedCall(_, _, _, _, arguments) => set a | a in arguments
    case _ => {}
  }

  predicate FromNamed(sent: seq<Sent>, names: set<string>) {
    forall x :: x in sent && x.workspace.Some? ==> x.workspace.value in names && x.workspace.value != ""
  }

  function Held(c: Client): set<string> {
    {c.session.pick, c.parked, ""}
  }

  lemma StepUsesNamed(c: Client, e: Event)
    ensures FromNamed(Next(c, e).1, Held(c) + Named(e))
    ensures Held(Next(c, e).0) <= Held(c) + Named(e)
  {
  }

  /** Every workspace header of a run names a pick held at its start or one a person gave up to then. */
  lemma {:induction false} HeadersCarryOnlyPicks(c: Client, es: seq<Event>, names: set<string>)
    requires Held(c) <= names && forall e :: e in es ==> Named(e) <= names
    ensures forall i :: 0 <= i < |es| ==> FromNamed(Trace(c, es)[i], names)
    decreases |es|
  {
    if es != [] {
      assert es[0] in es;
      StepUsesNamed(c, es[0]);
      assert forall e :: e in es[1..] ==> e in es;
      HeadersCarryOnlyPicks(Next(c, es[0]).0, es[1..], names);
      forall i | 0 <= i < |es| ensures FromNamed(Trace(c, es)[i], names) {
        if i > 0 { assert Trace(c, es)[i] == Trace(Next(c, es[0]).0, es[1..])[i - 1]; }
      }
    }
  }

  // ------------------------------------------------------------------ the session as an object

  class RemoteSession {
    var token: string
    var team: string
    var defaultTeam: string
    var bootstrapped: bool
    var clientKey: string

    constructor (token: string, team: string, envWorkspace: string)
      ensures View() == Fresh(token, if team != "" then team else envWorkspace)
    {
      this.token := token;
      this.team := if team != "" then team else envWorkspace;
      this.defaultTeam := "";
      this.bootstrapped := false;
      this.clientKey := CLIENT_KEY_FALLBACK;
    }

    function View(): Session
      reads this
    {
      Session(token, team, defaultTeam, bootstrapped, clientKey)
    }

    /** `_bootstrap_from_api_key`. */
    method BootstrapFromApiKey(me: AuthMe) returns (sent: seq<Sent>)
      modifies `bootstrapped, `defaultTeam
      ensures (View(), sent) == Bootstrap(old(View()), me)
    {
      if bootstrapped || token == "" {
        return [];
      }
      bootstrapped := true;
      if me.Account? { defaultTeam := me.defaultTeam; }
      sent := [Sent(token, None, None)];
    }

    /** `_request`: what one call with an optional workspace argument puts on the wire. */
    method Request(workspace: string, me: AuthMe, ghost parked: string) returns (sent: seq<Sent>)
      modifies `bootstrapped, `defaultTeam
      ensures (Client(View(), parked), sent) == Next(Client(old(View()), parked), Call(workspace, me))
    {
      sent := BootstrapFromApiKey(me);
      var headers := Sent(token, Some(clientKey), None);
      var w := if workspace != "" then workspace else team;
      if w != "" { headers := headers.(workspace := Some(w)); }
      sent := sent + [headers];
    }

    /** `export_okf`. */
    method Export(pin: Pin, me: AuthMe, ghost parked: string) returns (sent: seq<Sent>)
      modifies `bootstrapped, `defaultTeam
      ensures (Client(View(), parked), sent) == Next(Client(old(View()), parked), ExportOkf(pin, me))
    {
      sent := BootstrapFromApiKey(me);
      var headers := Headers(View(), if pin.LivePick? then "" else pin.workspace);
      if pin.Pinned? && pin.workspace == "" { headers := headers.(workspace := None); }
      sent := sent + [headers];
    }

    /** `login`. */
    method LogIn(key: string, teamArgument: string, me: AuthMe, ghost parked: string) returns (sent: seq<Sent>)
      modifies this
      ensures (Client(View(), parked), sent) == Next(Client(old(View()), parked), Login(key, teamArgument, me))
    {
      if key == "" {
        return [];
      }
      token := key;
      bootstrapped := false;
      sent := [Sent(key, None, None)];
      if me.Account? {
        if teamArgument != "" { team := teamArgument; }
        defaultTeam := me.defaultTeam;
        bootstrapped := true;
      }
    }

    /** `switch_workspace` on the remote backend: on any refusal the pick stays. */
    method SwitchWorkspace(ref: string, rows: Option<seq<WorkspaceSelect.Row>>, me: AuthMe)
      returns (sent: seq<Sent>, ok: bool)
      modifies this
      ensures (View(), sent) == SwitchStep(old(View()), ref, rows, me)
      ensures !ok ==> team == old(team)
    {
      sent := BootstrapFromApiKey(me);
      var asks := WorkspaceSelect.Asks(ref, token != "");
      if asks {
        var headers := Headers(View(), "").(workspace := None);
        sent := sent + [headers];
      }
      var found := WorkspaceSelect.Choose(asks, ref, rows);
      ok := found.Some?;
      if ok { team := found.value; }
    }
  }
}
