/** The process-wide backend: two caches, the process mode, the config mode and the parked
    workspace, with every section the code runs under `rebuild_lock` as one function. */
module ProcessBackend {
  import opened Wrappers
  import Text

  datatype Mode = Local | Remote | Hosted

  function ModeName(m: Mode): string {
    match m
    case Local => "local"
    case Remote => "remote"
    case Hosted => "hosted"
  }

  /** The mode an environment value selects; unset and unknown values mean remote. */
  function RequestedMode(raw: string): Mode {
    var name := Text.Lower(Text.Strip(raw));
    if name == "local" then Local else if name == "hosted" then Hosted else Remote
  }

  /** A backend object's state: only a remote one has a pick ("" when none). */
  datatype Backend = LocalBackend | RemoteBackend(pick: string)

  /** What a construction finds around it: a stored API key, a readable config, the default picks. */
  datatype BuildEnv = BuildEnv(apiKey: bool, config: bool, envWorkspace: string, savedTeam: string)

  function FirstSet(a: string, b: string, c: string): string {
    if a != "" then a else if b != "" then b else c
  }

  /** A fresh backend, or None when construction raises (no key and no config). */
  function Build(local: bool, team: string, env: BuildEnv): Option<Backend> {
    if local then Some(LocalBackend)
    else if !env.apiKey && !env.config then None
    else Some(RemoteBackend(FirstSet(team, env.envWorkspace, if env.config then env.savedTeam else "")))
  }

  /** `objs` lists every backend object ever built, by identity; the caches hold identities.
      `mode` is what `requested_mode` answers. */
  datatype Shared = Shared(
    objs: seq<Backend>,
    dispatch: Option<nat>,
    common: Option<nat>,
    mode: Mode,
    cfgMode: string,
    parked: string)

  function Install(sh: Shared, b: Backend): Shared {
    sh.(objs := sh.objs + [b], dispatch := Some(|sh.objs|))
  }

  /** `dispatch.resolve_backend`; None means the build raised. */
  function ResolveBackend(sh: Shared, env: BuildEnv): (Shared, Option<nat>) {
    if sh.dispatch.Some? then (sh, sh.dispatch)
    else
      match Build(sh.mode == Local, "", env)
      case None => (sh, None)
      case Some(b) => (Install(sh, b), Some(|sh.objs|))
  }

  /** `common.get_backend` outside a hosted call. */
  function GetBackend(sh: Shared, env: BuildEnv): (Shared, Option<nat>) {
    if sh.common.Some? then (sh, sh.common)
    else
      var (sh', got) := ResolveBackend(sh, env);
      (if got.Some? then sh'.(common := got) else sh', got)
  }

  /** `dispatch.set_process_mode`; the flag is false when the eager build raised. */
  function SetProcessMode(sh: Shared, m: Mode, workspace: string, env: BuildEnv): (Shared, bool) {
    var cleared := sh.(mode := m, dispatch := None);
    if workspace != "" && m == Remote then
      match Build(false, workspace, env)
      case None => (cleared, false)
      case Some(b) => (Install(cleared, b), true)
    else (cleared, true)
  }

  /** `_rebuild_process_backend`: the sibling cache is dropped only when the mode change returned. */
  function Rebuild(sh: Shared, m: Mode, workspace: string, env: BuildEnv): (Shared, bool) {
    var (sh', ok) := SetProcessMode(sh, m, workspace, env);
    (if ok then sh'.(common := None) else sh', ok)
  }

  /** `set_active_workspace`: a no-op on a local backend. */
  function WithPick(b: Backend, workspace: string): Backend {
    if b.RemoteBackend? then RemoteBackend(workspace) else b
  }

  /** `commit_if_current` around `set_active_workspace`. */
  function CommitIfCurrent(sh: Shared, id: nat, workspace: string): (Shared, bool)
    requires id < |sh.objs|
  {
    if sh.common != Some(id) then (sh, false)
    else (sh.(objs := sh.objs[id := WithPick(sh.objs[id], workspace)]), true)
  }

  /** `_live_workspace`: the explicit pick, "" for none and for a local backend. */
  function LiveWorkspace(b: Backend): string {
    if b.RemoteBackend? then b.pick else ""
  }

  predicate InRange(sh: Shared) {
    && (sh.dispatch.Some? ==> sh.dispatch.value < |sh.objs|)
    && (sh.common.Some? ==> sh.common.value < |sh.objs|)
  }

  /** The two caches never name different objects. */
  predicate Coherent(sh: Shared) {
    sh.common.None? || sh.dispatch.None? || sh.common == sh.dispatch
  }

  /** A backend in the dispatch cache is of the kind the process mode selects. */
  predicate KindMatches(sh: Shared)
    requires InRange(sh)
  {
    sh.dispatch.Some? ==>
      (sh.objs[sh.dispatch.value].LocalBackend? <==> sh.mode == Local)
  }

  /** Writing a mode name and reading it back selects that mode, whatever was set before. */
  lemma ModeNameRoundTrip(m: Mode)
    ensures RequestedMode(ModeName(m)) == m
  {
    hide Text.Strip, Text.Lower;
    match m {
      case Local => Spelled("local");
      case Remote => Spelled("remote");
      case Hosted => Spelled("hosted");
    }
  }

  lemma Spelled(name: string)
    requires name != []
    requires forall i :: 0 <= i < |name| ==> 'a' <= name[i] <= 'z'
    ensures Text.Lower(Text.Strip(name)) == name
  {
    hide Text.Strip, Text.IsSpace;
    LettersAreNoSpace(name[0]);
    LettersAreNoSpace(name[|name| - 1]);
    assert Text.Strip(name) == name;
  }

  lemma LettersAreNoSpace(c: char)
    requires 'a' <= c <= 'z'
    ensures !Text.IsSpace(c)
  {
  }

  /** Whitespace and letter case aside, `local` and `hosted` select their modes and everything else is remote. */
  lemma RequestedModeIff(left: string, name: string, right: string)
    requires Text.AllSpace(left) && Text.AllSpace(right)
    requires name != "" ==> !Text.IsSpace(name[0]) && !Text.IsSpace(name[|name| - 1])
    ensures var mode := RequestedMode(left + name + right);
            && (mode == Local <==> Text.Lower(name) == "local") && (mode == Hosted <==> Text.Lower(name) == "hosted")
    ensures RequestedMode("") == Remote
  {
    hide Text.Strip, Text.IsSpace, Text.Lower;
    Text.StripOfPadded(left, name, right);
    Text.StripOfPadded("", "", "");
    assert |Text.Lower("")| == 0;
  }

  /** A remote backend starts on the workspace it is built for, else on the environment's, else on the saved team;
      without a key and a config it is not built. A local one always is. */
  lemma BuiltOn(team: string, env: BuildEnv)
    ensures Build(true, team, env) == Some(LocalBackend)
    ensures Build(false, team, env).None? <==> !env.apiKey && !env.config
    ensures Build(false, team, env).Some? ==>
              var b := Build(false, team, env).value;
              && b.RemoteBackend? && (team != "" ==> b.pick == team)
              && (team == "" && env.envWorkspace != "" ==> b.pick == env.envWorkspace)
              && (team == "" && env.envWorkspace == "" && env.config ==> b.pick == env.savedTeam)
              && (team == "" && env.envWorkspace == "" && !env.config ==> b.pick == "")
  {
  }
}
