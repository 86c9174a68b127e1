/** `path_id`: an id from a caller becomes one path segment, or no request is made. */
module PathGuard {
  import opened Wrappers
  import opened Percent
  import opened Text

  datatype Answer = Segment(text: string) | UnknownPrefix | NotOneItem | HoldsSlash | HoldsControl | IsAnotherRoute

  const BESIDE_A_MEMORY :=
    ["adapters", "add", "admin", "agents", "analytics", "anchors", "api-keys", "archive", "ask"] +
    ["audit", "beta", "by-metadata", "clear", "clear-all", "clustering", "code", "context"] +
    ["decisions", "edge", "entities", "evolution", "failures", "feedback", "governance", "graph"] +
    ["health", "idp-drift", "import", "inference", "ingest", "launch", "licensing", "link", "list"] +
    ["lite", "locks", "logs", "maintenance", "okf", "ontology", "opinions", "patterns", "personalize"] +
    ["pipeline", "plans", "platform", "plugins", "policy", "procedures", "progress", "read-around"] +
    ["reasoning", "recall", "reflect", "result-feedback", "schemas", "search", "sequences", "sleep"] +
    ["subscriptions", "summary", "sync", "teams", "telemetry", "temporal", "token-usage", "validate"] +
    ["worker", "workspaces", "zettel"]

  /** The static segments the service has under each prefix. */
  function Reserved(under: string): Option<seq<string>> {
    if under == "/memory/" then Some(BESIDE_A_MEMORY)
    else if under == "/memory/decisions/" then Some(["create", "pending", "search"])
    else if under == "/memory/decisions/pending/" then Some(["create"])
    else if under == "/memory/agents/" then Some([])
    else None
  }

  /** Unicode category Cc. */
  predicate IsControl(c: char) {
    c <= '\U{001F}' || '\U{007F}' <= c <= '\U{009F}'
  }

  function PathId(value: Option<string>, under: string): Answer {
    var text := value.GetOr("");
    if Reserved(under).None? then UnknownPrefix
    else if text in ["", ".", ".."] then NotOneItem
    else if '/' in text || '\\' in text then HoldsSlash
    else if exists i :: 0 <= i < |text| && IsControl(text[i]) then HoldsControl
    else if text in Reserved(under).value then IsAnotherRoute
    else Segment(Quote(text))
  }

  /** The segments a router sees. */
  function Segments(path: string): seq<string> {
    Split(path, '/')
  }

  /** What the service routes: the decoded path. */
  function Routed(path: string): Option<seq<string>> {
    var decoded :- Unquote(path);
    Some(Segments(decoded))
  }

  predicate Plain(s: string) {
    '%' !in s
  }

  lemma PrefixIsPlain(under: string)
    requires Reserved(under).Some?
    ensures Plain(under) && |under| > 1 && under[|under| - 1] == '/'
  {
    hide Reserved;
    PrefixIsOneOfFour(under);
  }

  lemma PrefixIsOneOfFour(under: string)
    requires Reserved(under).Some?
    ensures under in ["/memory/", "/memory/decisions/", "/memory/decisions/pending/", "/memory/agents/"]
  {
  }

  /** An accepted id reaches its own route: in prefix + encoded id + suffix the service sees the prefix, then
      exactly the id as one segment, then the suffix; and that segment is no static sibling and no dot segment. */
  lemma AcceptedIdStaysInItsRoute(id: string, under: string, suffix: string)
    requires PathId(Some(id), under).Segment? && Plain(suffix)
    ensures id !in Reserved(under).value && id !in ["", ".", ".."]
    ensures var before, text := Segments(under[..|under| - 1]), PathId(Some(id), under).text;
            && Routed(under + text) == Some(before + [id])
            && Routed(under + text + "/" + suffix) == Some(before + [id] + Segments(suffix))
  {
    hide Reserved, Quote, Unquote, Split;
    PrefixIsPlain(under);
    var u := under[..|under| - 1];
    assert under == u + "/";
    UnquoteInPlace(under, id, "");
    assert under + Quote(id) + "" == under + Quote(id) && under + id + "" == u + "/" + id;
    SplitAtSeparator(u, '/', id);
    OnePartIff(id, '/');
    UnquoteInPlace(under, id, "/" + suffix);
    assert under + Quote(id) + ("/" + suffix) == under + Quote(id) + "/" + suffix;
    assert under + id + ("/" + suffix) == (u + "/" + id) + "/" + suffix;
    SplitAtSeparator(u + "/" + id, '/', suffix);
  }

  /** Why encoding alone is not enough: an encoded id that holds a slash is more than one segment once decoded. */
  lemma SlashLeavesTheRoute(id: string, under: string)
    requires Reserved(under).Some?
    ensures Routed(under + Quote(id)) == Some(Segments(under[..|under| - 1]) + [id]) <==> '/' !in id
  {
    hide Reserved, Quote, Unquote, Split;
    PrefixIsPlain(under);
    var u := under[..|under| - 1];
    assert under == u + "/";
    UnquoteInPlace(under, id, "");
    assert under + Quote(id) + "" == under + Quote(id) && under + id + "" == u + "/" + id;
    SplitAtSeparator(u, '/', id);
    OnePartIff(id, '/');
    if Segments(u) + Segments(id) == Segments(u) + [id] {
      assert Segments(id) == (Segments(u) + Segments(id))[|Segments(u)|..];
      assert [id] == (Segments(u) + [id])[|Segments(u)|..];
    }
  }

  /** An id is accepted exactly when it reaches its own route as one segment, that segment is no static sibling and no
      dot segment, and it holds no backslash or control character. */
  lemma AcceptedIff(id: string, under: string)
    requires Reserved(under).Some?
    ensures PathId(Some(id), under).Segment? <==>
              && Routed(under + Quote(id)) == Some(Segments(under[..|under| - 1]) + [id])
              && id !in Reserved(under).value && id !in ["", ".", ".."]
              && '\\' !in id
              && forall i :: 0 <= i < |id| ==> ' ' <= id[i] < '\U{007F}' || '\U{009F}' < id[i]
  {
    hide Reserved, Quote, Routed, Segments;
    SlashLeavesTheRoute(id, under);
  }

  /** No two accepted ids are sent as the same text, and what is sent is unreserved characters and triplets. */
  lemma AcceptedIdsStayApart(x: string, y: string, under: string)
    requires PathId(Some(x), under).Segment? && PathId(Some(y), under).Segment?
    ensures WellQuoted(PathId(Some(x), under).text)
    ensures PathId(Some(x), under) == PathId(Some(y), under) <==> x == y
  {
    hide Reserved, WellQuoted, Encode;
    QuotedIsWellFormed(Encode(x));
    if PathId(Some(x), under) == PathId(Some(y), under) {
      QuoteIsInjective(x, y);
    }
  }

  /** The refusal an id gets, if any: an unknown prefix first, then no id at all or one that is a dot segment, then a
      slash of either kind, then a control character, then the name of a static sibling. */
  lemma RefusalsInOrder(value: Option<string>, under: string)
    ensures var answer := PathId(value, under);
            var known := under in ["/memory/", "/memory/decisions/", "/memory/decisions/pending/", "/memory/agents/"];
            && (answer == UnknownPrefix <==> !known)
            && (answer == NotOneItem <==> known && (value == None || value.value in ["", ".", ".."]))
            && (known && answer != NotOneItem ==>
                  var id := value.value;
                  && (answer == HoldsSlash <==> '/' in id || '\\' in id)
                  && (answer == HoldsControl <==>
                        && '/' !in id && '\\' !in id
                        && exists i :: 0 <= i < |id| && (id[i] < ' ' || '\U{007F}' <= id[i] <= '\U{009F}'))
                  && (answer == IsAnotherRoute ==> id in Reserved(under).value)
                  && (answer.Segment? ==> answer.text == Quote(id)))
  {
    hide Quote;
    SiblingsOfFew();
  }

  /** The static siblings: three beside a decision, one beside its pending ones, none beside an agent. */
  lemma SiblingsOfFew()
    ensures Reserved("/memory/decisions/") == Some(["create", "pending", "search"])
    ensures Reserved("/memory/decisions/pending/") == Some(["create"])
    ensures Reserved("/memory/agents/") == Some([])
    ensures Reserved("/memory/").Some? && |Reserved("/memory/").value| == 70
  {
  }

  lemma MemoryIsListed()
    ensures Reserved("/memory/") == Some(BESIDE_A_MEMORY)
  {
  }

  lemma ClearAllIsListed()
    ensures "clear-all" in BESIDE_A_MEMORY
  {
  }

  /** Beside a memory, `clear-all` is another route though it holds nothing special; beside a decision it is an id. */
  lemma ClearAllIsARoute()
    ensures PathId(Some("clear-all"), "/memory/") == IsAnotherRoute
    ensures PathId(Some("clear-all"), "/memory/decisions/") == Segment("clear-all")
    ensures PathId(Some("teams/T1"), "/memory/") == HoldsSlash
  {
    hide Quote, Reserved;
    SiblingsOfFew();
    ClearAllIsListed();
    MemoryIsListed();
    assert AllUnreserved("clear-all");
    QuoteUnchangedIff("clear-all");
    assert "teams/T1"[5] == '/';
  }
}
