/** What the limiter means for whole requests: which are limited, to how many, and which never are. Paths are spelt
    out and the numbers written down, so nothing here rests on the tables of the limiter itself. */
module RequestLimits {
  import opened RateLimit
  import opened Wrappers

  datatype Request = Request(path: string, ip: string, authorized: bool, now: real)

  function Slashes(n: nat): string {
    seq(n, _ => '/')
  }

  /** The path ends in `ending`, trailing slashes aside. */
  ghost predicate Under(path: string, ending: string) {
    exists prefix: string, n: nat :: Spells(path, prefix, ending, n)
  }

  predicate Spells(path: string, prefix: string, ending: string, n: nat) {
    path == prefix + ending + Slashes(n)
  }

  ghost predicate Registers(r: Request) {
    Under(r.path, "/register")
  }

  /** An OAuth endpoint, by its path without trailing slashes. */
  ghost predicate OnOAuth(r: Request, endpoint: string) {
    (Under(endpoint, "/authorize") || Under(endpoint, "/token")) && endpoint[|endpoint| - 1..] != "/"
    && exists n: nat :: r.path == endpoint + Slashes(n)
  }

  ghost predicate Anonymous(r: Request) {
    Under(r.path, "/mcp") && !r.authorized
  }

  // ------------------------------------------------------------------ which rule a path selects

  lemma {:induction false} TrimOfSlashes(s: string, n: nat)
    requires s != "" && s[|s| - 1] != '/'
    ensures TrimSlashes(s + Slashes(n)) == s
    decreases n
  {
    var path := s + Slashes(n);
    if n == 0 {
      assert path == s;
    } else {
      assert path[..|path| - 1] == s + Slashes(n - 1);
      TrimOfSlashes(s, n - 1);
    }
  }

  lemma {:induction false} TrimSplits(path: string) returns (n: nat)
    ensures path == TrimSlashes(path) + Slashes(n)
    ensures TrimSlashes(path) == "" || TrimSlashes(path)[|TrimSlashes(path)| - 1] != '/'
    decreases |path|
  {
    if path != "" && path[|path| - 1] == '/' {
      var k := TrimSplits(path[..|path| - 1]);
      n := k + 1;
      assert path == path[..|path| - 1] + "/" && Slashes(k + 1) == Slashes(k) + "/";
    } else {
      n := 0;
      assert path + Slashes(0) == path;
    }
  }

  predicate Ending(e: string) {
    |e| >= 2 && e[|e| - 1] != '/'
  }

  lemma UnderIff(path: string, ending: string)
    requires Ending(ending)
    ensures Under(path, ending) <==> EndsWith(Served(path), ending)
  {
    hide TrimSlashes;
    var p := TrimSlashes(path);
    var n := TrimSplits(path);
    if EndsWith(Served(path), ending) {
      assert p == p[..|p| - |ending|] + ending;
      assert Spells(path, p[..|p| - |ending|], ending, n);
    }
    if Under(path, ending) {
      var prefix: string, m: nat :| Spells(path, prefix, ending, m);
      TrimOfSlashes(prefix + ending, m);
      assert p == prefix + ending;
    }
  }

  /** No path ends in two of the four endings. */
  lemma EndingsDiffer(s: string)
    ensures EndsWith(s, "/register") ==> !EndsWith(s, "/authorize") && !EndsWith(s, "/token") && !EndsWith(s, "/mcp")
    ensures EndsWith(s, "/authorize") || EndsWith(s, "/token") ==> !EndsWith(s, "/mcp")
  {
    assert EndsWith(s, "/register") ==> s[|s| - 1] == 'r';
    assert EndsWith(s, "/authorize") ==> s[|s| - 1] == 'e';
    assert EndsWith(s, "/token") ==> s[|s| - 1] == 'n';
    assert EndsWith(s, "/mcp") ==> s[|s| - 1] == 'p';
  }

  /** The budgets a request is charged to, by its spelling: rule names, limits and windows as literals. */
  lemma BudgetsOf(r: Request)
    ensures var budgets := Budgets(r.path, r.ip, r.authorized);
            && (Registers(r) ==>
                  budgets == [(Rule("register-global", 200, 3600.0), "all"), (Rule("register", 10, 60.0), r.ip)])
            && (Under(r.path, "/authorize") || Under(r.path, "/token") ==>
                  budgets == [(Rule("oauth", 30, 60.0), TrimSlashes(r.path) + "|" + r.ip)])
            && (Anonymous(r) ==> budgets == [(Rule("mcp-unauthenticated", 60, 60.0), r.ip)])
            && (!Registers(r) && !Under(r.path, "/authorize") && !Under(r.path, "/token") && !Anonymous(r) ==>
                  budgets == [])
  {
    hide TrimSlashes, EndsWith, Under;
    UnderIff(r.path, "/register");
    UnderIff(r.path, "/authorize");
    UnderIff(r.path, "/token");
    UnderIff(r.path, "/mcp");
    EndingsDiffer(Served(r.path));
    ServedIsTrimmed(r.path, "/authorize");
    ServedIsTrimmed(r.path, "/token");
  }

  lemma ServedIsTrimmed(path: string, ending: string)
    requires Ending(ending)
    ensures EndsWith(Served(path), ending) ==> Served(path) == TrimSlashes(path)
  {
    hide TrimSlashes;
  }

  /** A request the limiter has nothing to do with always passes and changes no bucket: any with a bearer to a path
      ending in `/mcp`, and any to a path with none of the four endings. */
  lemma OthersAlwaysPass(b: map<string, Window>, r: Request)
    requires !Registers(r) && !Under(r.path, "/authorize") && !Under(r.path, "/token") && !Anonymous(r)
    ensures Charge(b, Budgets(r.path, r.ip, r.authorized), r.now) == (b, None)
  {
    hide Budgets, Under, Hit;
    BudgetsOf(r);
  }

  lemma BearersAlwaysPass(b: map<string, Window>, r: Request)
    requires Under(r.path, "/mcp") && r.authorized
    ensures Charge(b, Budgets(r.path, r.ip, r.authorized), r.now) == (b, None)
  {
    hide Budgets, Hit, TrimSlashes, EndsWith, Under;
    UnderIff(r.path, "/register");
    UnderIff(r.path, "/authorize");
    UnderIff(r.path, "/token");
    UnderIff(r.path, "/mcp");
    EndingsDiffer(Served(r.path));
    OthersAlwaysPass(b, r);
  }

  // ------------------------------------------------------------------ runs of requests

  function Answer(b: map<string, Window>, r: Request): (map<string, Window>, Option<real>) {
    Charge(b, Budgets(r.path, r.ip, r.authorized), r.now)
  }

  function After(b: map<string, Window>, rs: seq<Request>): map<string, Window>
    decreases |rs|
  {
    if rs == [] then b else After(Answer(b, rs[0]).0, rs[1..])
  }

  /** How many of the requests `mine` selects pass at a time in [a, e). */
  ghost function Passed(b: map<string, Window>, rs: seq<Request>, mine: Request -> bool, a: real, e: real): nat
    decreases |rs|
  {
    if rs == [] then 0
    else
      (if mine(rs[0]) && Answer(b, rs[0]).1.None? && a <= rs[0].now < e then 1 else 0)
      + Passed(Answer(b, rs[0]).0, rs[1..], mine, a, e)
  }

  predicate InOrder(rs: seq<Request>) {
    forall i, j :: 0 <= i < j < |rs| ==> rs[i].now <= rs[j].now
  }

  /** The hits one request makes, and those of a run. */
  function HitsOf(b: map<string, Window>, budgets: seq<(Rule, string)>, now: real): seq<Event>
    decreases |budgets|
  {
    if budgets == [] then []
    else
      var (b', wait) := Hit(b, budgets[0].0, budgets[0].1, now);
      [Event(budgets[0].0, budgets[0].1, now)] + (if wait.Some? then [] else HitsOf(b', budgets[1..], now))
  }

  function AllHits(b: map<string, Window>, rs: seq<Request>): seq<Event>
    decreases |rs|
  {
    if rs == [] then []
    else HitsOf(b, Budgets(rs[0].path, rs[0].ip, rs[0].authorized), rs[0].now) + AllHits(Answer(b, rs[0]).0, rs[1..])
  }

  lemma {:induction false} HitsAreTheCharge(b: map<string, Window>, budgets: seq<(Rule, string)>, now: real)
    ensures RunHits(b, HitsOf(b, budgets, now)) == Charge(b, budgets, now).0
    ensures forall x :: x in HitsOf(b, budgets, now) ==> x.now == now && (x.rule, x.key) in budgets
    decreases |budgets|
  {
    hide Hit;
    if budgets != [] {
      var (b', wait) := Hit(b, budgets[0].0, budgets[0].1, now);
      var rest := if wait.Some? then [] else HitsOf(b', budgets[1..], now);
      HitsAreTheCharge(b', budgets[1..], now);
      assert ([Event(budgets[0].0, budgets[0].1, now)] + rest)[1..] == rest;
    }
  }

  lemma {:induction false} RunHitsConcat(b: map<string, Window>, x: seq<Event>, y: seq<Event>, rule: Rule, key: string,
                                         a: real, e: real)
    ensures RunHits(b, x + y) == RunHits(RunHits(b, x), y)
    ensures AdmittedTo(b, x + y, rule, key, a, e) ==
            AdmittedTo(b, x, rule, key, a, e) + AdmittedTo(RunHits(b, x), y, rule, key, a, e)
    decreases |x|
  {
    hide Hit;
    if x == [] {
      assert x + y == y;
    } else {
      assert (x + y)[1..] == x[1..] + y;
      RunHitsConcat(Hit(b, x[0].rule, x[0].key, x[0].now).0, x[1..], y, rule, key, a, e);
    }
  }

  /** A request that passes was admitted by each of its budgets. */
  lemma {:induction false} PassingIsAdmitted(b: map<string, Window>, budgets: seq<(Rule, string)>, now: real,
                                             rule: Rule, key: string, a: real, e: real)
    requires Charge(b, budgets, now).1.None? && (rule, key) in budgets && a <= now < e
    ensures AdmittedTo(b, HitsOf(b, budgets, now), rule, key, a, e) >= 1
    decreases |budgets|
  {
    hide Hit;
    var b' := Hit(b, budgets[0].0, budgets[0].1, now).0;
    var rest := HitsOf(b', budgets[1..], now);
    assert ([Event(budgets[0].0, budgets[0].1, now)] + rest)[1..] == rest;
    if budgets[0] != (rule, key) {
      PassingIsAdmitted(b', budgets[1..], now, rule, key, a, e);
    }
  }

  lemma {:induction false} PassedAtMostAdmitted(b: map<string, Window>, rs: seq<Request>, mine: Request -> bool,
                                                rule: Rule, key: string, a: real, e: real)
    requires forall r :: mine(r) ==> (rule, key) in Budgets(r.path, r.ip, r.authorized)
    ensures Passed(b, rs, mine, a, e) <= AdmittedTo(b, AllHits(b, rs), rule, key, a, e)
    decreases |rs|
  {
    hide Hit, Budgets, HitsOf, Charge, AdmittedTo;
    if rs != [] {
      var budgets := Budgets(rs[0].path, rs[0].ip, rs[0].authorized);
      var hits := HitsOf(b, budgets, rs[0].now);
      var b' := Answer(b, rs[0]).0;
      HitsAreTheCharge(b, budgets, rs[0].now);
      RunHitsConcat(b, hits, AllHits(b', rs[1..]), rule, key, a, e);
      PassedAtMostAdmitted(b', rs[1..], mine, rule, key, a, e);
      if mine(rs[0]) && Answer(b, rs[0]).1.None? && a <= rs[0].now < e {
        PassingIsAdmitted(b, budgets, rs[0].now, rule, key, a, e);
      }
    }
  }

  /** The budgets of any request are those of the four rules. */
  predicate Known(rule: Rule) {
    rule in [REGISTER_GLOBAL_RULE, REGISTER_RULE, OAUTH_RULE, MCP_RULE]
  }

  lemma {:induction false} AllHitsKnown(b: map<string, Window>, rs: seq<Request>)
    requires InOrder(rs)
    ensures forall x :: x in AllHits(b, rs) ==> Known(x.rule)
    ensures InTimeOrder(AllHits(b, rs))
    ensures forall x :: x in AllHits(b, rs) ==> rs != [] && rs[0].now <= x.now
    decreases |rs|
  {
    hide Hit, HitsOf, Charge;
    if rs != [] {
      var budgets := Budgets(rs[0].path, rs[0].ip, rs[0].authorized);
      var hits := HitsOf(b, budgets, rs[0].now);
      var rest := AllHits(Answer(b, rs[0]).0, rs[1..]);
      HitsAreTheCharge(b, budgets, rs[0].now);
      BudgetsAreKnown(rs[0]);
      assert forall i :: 0 <= i < |rs[1..]| ==> rs[1..][i] == rs[i + 1];
      AllHitsKnown(Answer(b, rs[0]).0, rs[1..]);
      OrderedThenOrdered(hits, rest, rs[0].now);
    }
  }

  lemma BudgetsAreKnown(r: Request)
    ensures forall x :: x in Budgets(r.path, r.ip, r.authorized) ==> Known(x.0)
  {
    hide EndsWith, TrimSlashes;
  }

  lemma OrderedThenOrdered(x: seq<Event>, y: seq<Event>, now: real)
    requires forall e :: e in x ==> e.now == now
    requires InTimeOrder(y) && forall e :: e in y ==> now <= e.now
    ensures InTimeOrder(x + y) && forall e :: e in x + y ==> now <= e.now
  {
    assert forall i :: 0 <= i < |x| ==> x[i] in x;
    assert forall i :: 0 <= i < |y| ==> y[i] in y;
  }

  /** Two of the four rules share a bucket only when they are one rule. */
  lemma KnownRulesAreOne(es: seq<Event>, rule: Rule, key: string)
    requires Known(rule) && forall x :: x in es ==> Known(x.rule)
    ensures OneRule(es, rule, key)
  {
    NamesHoldNoColon();
    forall x | x in es && BucketName(x.rule, x.key) == BucketName(rule, key)
      ensures x.rule == rule
    {
      BucketsAreDistinct(x.rule, x.key, rule, key);
    }
  }

  lemma NamesHoldNoColon()
    ensures ':' !in REGISTER_GLOBAL_RULE.name && ':' !in REGISTER_RULE.name
    ensures ':' !in OAUTH_RULE.name && ':' !in MCP_RULE.name
  {
  }

  lemma PassedIsBounded(rs: seq<Request>, mine: Request -> bool, rule: Rule, key: string, a: real)
    requires InOrder(rs) && Known(rule)
    requires forall r :: mine(r) ==> (rule, key) in Budgets(r.path, r.ip, r.authorized)
    ensures Passed(map[], rs, mine, a, a + rule.window) <= 2 * rule.limit - 1
  {
    hide Budgets, AllHits, AdmittedTo, Passed;
    var hits := AllHits(map[], rs);
    PassedAtMostAdmitted(map[], rs, mine, rule, key, a, a + rule.window);
    AllHitsKnown(map[], rs);
    KnownRulesAreOne(hits, rule, key);
    AdmissionsInAnyRun(hits, rule, key, a, rule.window, 1);
  }

  // ------------------------------------------------------------------ how many pass

  /** Of the requests of one address without a bearer to paths ending in `/mcp`, at most 119 pass in any 60 seconds of
      any run; of its registrations at most 19, and of everybody's registrations at most 399 in any hour; and of its
      requests to one OAuth endpoint at most 59. */
  lemma AnonymousIsLimited(rs: seq<Request>, mine: Request -> bool, ip: string, a: real)
    requires InOrder(rs) && forall r :: mine(r) ==> Anonymous(r) && r.ip == ip
    ensures Passed(map[], rs, mine, a, a + 60.0) <= 119
  {
    hide Budgets, Under, Passed;
    forall r | mine(r) ensures (MCP_RULE, ip) in Budgets(r.path, r.ip, r.authorized) { BudgetsOf(r); }
    PassedIsBounded(rs, mine, MCP_RULE, ip, a);
  }

  lemma RegistrationIsLimited(rs: seq<Request>, mine: Request -> bool, ip: string, a: real)
    requires InOrder(rs) && forall r :: mine(r) ==> Registers(r) && r.ip == ip
    ensures Passed(map[], rs, mine, a, a + 60.0) <= 19
  {
    hide Budgets, Under, Passed;
    forall r | mine(r) ensures (REGISTER_RULE, ip) in Budgets(r.path, r.ip, r.authorized) { BudgetsOf(r); }
    PassedIsBounded(rs, mine, REGISTER_RULE, ip, a);
  }

  lemma AllRegistrationIsLimited(rs: seq<Request>, mine: Request -> bool, a: real)
    requires InOrder(rs) && forall r :: mine(r) ==> Registers(r)
    ensures Passed(map[], rs, mine, a, a + 3600.0) <= 399
  {
    hide Budgets, Under, Passed;
    forall r | mine(r) ensures (REGISTER_GLOBAL_RULE, "all") in Budgets(r.path, r.ip, r.authorized) { BudgetsOf(r); }
    PassedIsBounded(rs, mine, REGISTER_GLOBAL_RULE, "all", a);
  }

  lemma OAuthKey(r: Request, endpoint: string)
    requires OnOAuth(r, endpoint)
    ensures Budgets(r.path, r.ip, r.authorized) == [(Rule("oauth", 30, 60.0), endpoint + "|" + r.ip)]
  {
    hide Budgets, TrimSlashes, EndsWith;
    var n: nat :| r.path == endpoint + Slashes(n);
    EndpointIsUnder(endpoint, n);
    TrimOfSlashes(endpoint, n);
    BudgetsOf(r);
  }

  lemma EndpointIsUnder(endpoint: string, n: nat)
    requires Under(endpoint, "/authorize") || Under(endpoint, "/token")
    ensures endpoint != ""
    ensures endpoint[|endpoint| - 1..] != "/" ==> endpoint[|endpoint| - 1] != '/'
    ensures Under(endpoint, "/authorize") ==> Under(endpoint + Slashes(n), "/authorize")
    ensures Under(endpoint, "/token") ==> Under(endpoint + Slashes(n), "/token")
  {
    if Under(endpoint, "/authorize") { MoreSlashes(endpoint, "/authorize", n); }
    if Under(endpoint, "/token") { MoreSlashes(endpoint, "/token", n); }
  }

  lemma MoreSlashes(path: string, ending: string, n: nat)
    requires Under(path, ending) && ending != ""
    ensures path != "" && Under(path + Slashes(n), ending)
  {
    var prefix: string, m: nat :| Spells(path, prefix, ending, m);
    assert Slashes(m) + Slashes(n) == Slashes(m + n);
    assert path + Slashes(n) == prefix + ending + (Slashes(m) + Slashes(n));
    assert Spells(path + Slashes(n), prefix, ending, m + n);
  }

  lemma OAuthIsLimited(rs: seq<Request>, mine: Request -> bool, endpoint: string, ip: string, a: real)
    requires InOrder(rs) && forall r :: mine(r) ==> OnOAuth(r, endpoint) && r.ip == ip
    ensures Passed(map[], rs, mine, a, a + 60.0) <= 59
  {
    hide Budgets, OnOAuth, Passed;
    forall r | mine(r) ensures (OAUTH_RULE, endpoint + "|" + ip) in Budgets(r.path, r.ip, r.authorized) {
      OAuthKey(r, endpoint);
    }
    PassedIsBounded(rs, mine, OAUTH_RULE, endpoint + "|" + ip, a);
  }

  /** OAuth endpoints do not share a budget: a request to one leaves the bucket of every other endpoint and address
      alone, addresses holding no bar. */
  lemma OAuthEndpointsAreApart(b: map<string, Window>, r: Request, endpoint: string, q: Request, other: string)
    requires OnOAuth(r, endpoint) && OnOAuth(q, other) && (endpoint != other || r.ip != q.ip)
    requires '|' !in r.ip && '|' !in q.ip
    ensures Answer(Answer(b, r).0, q).1 == Answer(b, q).1
  {
    hide Budgets, OnOAuth, HitWindow;
    OAuthKey(r, endpoint);
    OAuthKey(q, other);
    var x, y := (OAUTH_RULE, endpoint + "|" + r.ip), (OAUTH_RULE, other + "|" + q.ip);
    ChargeOne(b, x, r.now);
    ChargeOne(b, y, q.now);
    ChargeOne(Hit(b, x.0, x.1, r.now).0, y, q.now);
    if BucketName(x.0, x.1) == BucketName(y.0, y.1) {
      assert x.1 == BucketName(x.0, x.1)[|OAUTH_RULE.name| + 1..];
      assert y.1 == BucketName(y.0, y.1)[|OAUTH_RULE.name| + 1..];
      BarsSplit(endpoint, r.ip, other, q.ip);
    }
  }

  lemma EarlierBarIsInTheTail(p: string, x: string, q: string, y: string)
    requires p + "|" + x == q + "|" + y
    ensures |p| < |q| ==> '|' in x
  {
    if |p| < |q| {
      assert (q + "|" + y)[|q|] == '|';
      assert (p + "|" + x)[|q|] == x[|q| - |p| - 1];
    }
  }

  lemma BarsSplit(p: string, x: string, q: string, y: string)
    requires p + "|" + x == q + "|" + y && '|' !in x && '|' !in y
    ensures p == q && x == y
  {
    EarlierBarIsInTheTail(p, x, q, y);
    EarlierBarIsInTheTail(q, y, p, x);
    assert p == (p + "|" + x)[..|p|] && q == (q + "|" + y)[..|q|];
    assert x == (p + "|" + x)[|p| + 1..] && y == (q + "|" + y)[|q| + 1..];
  }

  // ------------------------------------------------------------------ bursts

  /** The table after `n` copies of one request. */
  function Repeated(b: map<string, Window>, r: Request, n: nat): map<string, Window> {
    if n == 0 then b else Answer(Repeated(b, r, n - 1), r).0
  }

  /** What the bucket has admitted in the window a hit at `now` falls in. */
  function Used(b: map<string, Window>, rule: Rule, key: string, now: real): int {
    Current(Of(b, BucketName(rule, key)), rule, now).count
  }

  lemma HitUses(b: map<string, Window>, rule: Rule, key: string, now: real)
    requires rule.window > 0.0
    ensures var (b', wait) := Hit(b, rule, key, now);
            var used := Used(b, rule, key, now);
            && (wait.None? <==> used < rule.limit)
            && Used(b', rule, key, now) == (if used < rule.limit then used + 1 else used)
            && (forall x :: x != BucketName(rule, key) ==> Of(b', x) == Of(b, x))
  {
  }

  lemma {:induction false} CopiesOfOneBudget(b: map<string, Window>, r: Request, rule: Rule, key: string, n: nat)
    requires Budgets(r.path, r.ip, r.authorized) == [(rule, key)] && rule.window > 0.0
    ensures var used := Used(b, rule, key, r.now);
            var now := Used(Repeated(b, r, n), rule, key, r.now);
            && (now >= rule.limit <==> used + n >= rule.limit || used >= rule.limit)
            && (used + n < rule.limit ==> now == used + n)
    ensures Answer(Repeated(b, r, n), r).1.None? <==> Used(b, rule, key, r.now) + n < rule.limit
    decreases n
  {
    hide Budgets, Hit, Used, Charge;
    var before := Repeated(b, r, n);
    ChargeOne(before, (rule, key), r.now);
    HitUses(before, rule, key, r.now);
    if n > 0 {
      CopiesOfOneBudget(b, r, rule, key, n - 1);
      ChargeOne(Repeated(b, r, n - 1), (rule, key), r.now);
      HitUses(Repeated(b, r, n - 1), rule, key, r.now);
    }
  }

  predicate Counted(b: map<string, Window>) {
    forall x :: x in b ==> b[x].count >= 0
  }

  lemma {:induction false} ChargeCounts(b: map<string, Window>, budgets: seq<(Rule, string)>, now: real)
    requires Counted(b)
    ensures Counted(Charge(b, budgets, now).0)
    decreases |budgets|
  {
    if budgets != [] {
      ChargeCounts(Hit(b, budgets[0].0, budgets[0].1, now).0, budgets[1..], now);
    }
  }

  lemma {:induction false} RunsCount(b: map<string, Window>, rs: seq<Request>)
    requires Counted(b)
    ensures Counted(After(b, rs))
    decreases |rs|
  {
    hide Budgets, Charge;
    if rs != [] {
      ChargeCounts(b, Budgets(rs[0].path, rs[0].ip, rs[0].authorized), rs[0].now);
      RunsCount(Answer(b, rs[0]).0, rs[1..]);
    }
  }

  /** A burst at one instant on an idle limiter: the first 60 unauthenticated requests of an address pass and no
      others; and whatever came before, the 61st is refused. */
  lemma AnonymousBurst(rs: seq<Request>, r: Request, n: nat)
    requires Anonymous(r)
    ensures Answer(Repeated(map[], r, n), r).1.None? <==> n < 60
    ensures n >= 60 ==> Answer(Repeated(After(map[], rs), r, n), r).1.Some?
  {
    hide Budgets, After, Answer, Repeated, Under;
    BudgetsOf(r);
    RunsCount(map[], rs);
    CopiesOfOneBudget(map[], r, Rule("mcp-unauthenticated", 60, 60.0), r.ip, n);
    CopiesOfOneBudget(After(map[], rs), r, Rule("mcp-unauthenticated", 60, 60.0), r.ip, n);
  }

  /** The same for an OAuth endpoint, with 30. */
  lemma OAuthBurst(rs: seq<Request>, r: Request, endpoint: string, n: nat)
    requires OnOAuth(r, endpoint)
    ensures Answer(Repeated(map[], r, n), r).1.None? <==> n < 30
    ensures n >= 30 ==> Answer(Repeated(After(map[], rs), r, n), r).1.Some?
  {
    hide Budgets, After, Answer, Repeated, OnOAuth;
    OAuthKey(r, endpoint);
    RunsCount(map[], rs);
    CopiesOfOneBudget(map[], r, Rule("oauth", 30, 60.0), endpoint + "|" + r.ip, n);
    CopiesOfOneBudget(After(map[], rs), r, Rule("oauth", 30, 60.0), endpoint + "|" + r.ip, n);
  }

  const ALL := Rule("register-global", 200, 3600.0)
  const OWN := Rule("register", 10, 60.0)

  /** One registration, in what the two budgets have used. */
  lemma RegistrationUses(b: map<string, Window>, r: Request)
    requires Registers(r)
    ensures var (b', wait) := Answer(b, r);
            var (all, own) := (Used(b, ALL, "all", r.now), Used(b, OWN, r.ip, r.now));
            && (wait.None? <==> all < 200 && own < 10)
            && Used(b', ALL, "all", r.now) == (if all < 200 then all + 1 else all)
            && Used(b', OWN, r.ip, r.now) == (if all < 200 && own < 10 then own + 1 else own)
            && (forall ip, t :: ip != r.ip ==> Used(b', OWN, ip, t) == Used(b, OWN, ip, t))
  {
    hide Budgets, Hit, Charge, Under;
    BudgetsOf(r);
    var first := Hit(b, ALL, "all", r.now);
    ChargeTwo(b, (ALL, "all"), (OWN, r.ip), r.now);
    HitUses(b, ALL, "all", r.now);
    HitUses(first.0, OWN, r.ip, r.now);
    RegisterBucketsDiffer(r.ip);
  }

  lemma RegisterBucketsDiffer(own: string)
    ensures forall ip :: BucketName(ALL, "all") != BucketName(OWN, ip)
    ensures forall ip :: ip != own ==> BucketName(OWN, ip) != BucketName(OWN, own)
  {
    forall ip ensures BucketName(ALL, "all") != BucketName(OWN, ip) {
      if BucketName(ALL, "all") == BucketName(OWN, ip) { BucketsAreDistinct(ALL, "all", OWN, ip); }
    }
    forall ip | ip != own ensures BucketName(OWN, ip) != BucketName(OWN, own) {
      if BucketName(OWN, ip) == BucketName(OWN, own) { BucketsAreDistinct(OWN, ip, OWN, own); }
    }
  }

  lemma {:induction false} CopiesOfARegistration(b: map<string, Window>, r: Request, n: nat)
    requires Registers(r) && Counted(b)
    ensures var b' := Repeated(b, r, n);
            && Used(b', OWN, r.ip, r.now) >= 0
            && (n >= 10 ==> Used(b', OWN, r.ip, r.now) >= 10 || Used(b', ALL, "all", r.now) >= 200)
            && (Used(b', ALL, "all", r.now) < 200 && Used(b', OWN, r.ip, r.now) < 10 ==>
                  Used(b', OWN, r.ip, r.now) >= n)
            && (b == map[] && n <= 10 ==> Used(b', OWN, r.ip, r.now) == n && Used(b', ALL, "all", r.now) == n)
    decreases n
  {
    hide Answer, Under;
    if n > 0 {
      CopiesOfARegistration(b, r, n - 1);
      RegistrationUses(Repeated(b, r, n - 1), r);
    }
  }

  /** One address's registrations at one instant: on an idle limiter the first 10 pass and no others; whatever came
      before, the 11th is refused. */
  lemma RegistrationBurst(rs: seq<Request>, r: Request, n: nat)
    requires Registers(r)
    ensures Answer(Repeated(map[], r, n), r).1.None? <==> n < 10
    ensures n >= 10 ==> Answer(Repeated(After(map[], rs), r, n), r).1.Some?
  {
    hide Answer, After, Repeated, Under, Used;
    RunsCount(map[], rs);
    CopiesOfARegistration(map[], r, n);
    CopiesOfARegistration(After(map[], rs), r, n);
    RegistrationUses(Repeated(map[], r, n), r);
    RegistrationUses(Repeated(After(map[], rs), r, n), r);
  }

  /** Registrations at one instant, each from an address of its own. */
  ghost predicate Crowd(rs: seq<Request>, now: real) {
    && (forall i :: 0 <= i < |rs| ==> Registers(rs[i]) && rs[i].now == now)
    && (forall i, j :: 0 <= i < j < |rs| ==> rs[i].ip != rs[j].ip)
  }

  lemma {:induction false} CrowdUses(rs: seq<Request>, now: real, n: nat)
    requires Crowd(rs, now) && n <= |rs|
    ensures var b := After(map[], rs[..n]);
            && Used(b, ALL, "all", now) == (if n < 200 then n else 200)
            && (forall i :: n <= i < |rs| ==> Used(b, OWN, rs[i].ip, now) == 0)
    decreases n
  {
    hide Answer, Under, Registers;
    if n > 0 {
      var b := After(map[], rs[..n - 1]);
      CrowdUses(rs, now, n - 1);
      assert rs[..n] == rs[..n - 1] + [rs[n - 1]];
      AfterAppend(map[], rs[..n - 1], rs[n - 1]);
      RegistrationUses(b, rs[n - 1]);
    }
  }

  lemma {:induction false} AfterAppend(b: map<string, Window>, rs: seq<Request>, r: Request)
    ensures After(b, rs + [r]) == Answer(After(b, rs), r).0
    decreases |rs|
  {
    hide Answer;
    if rs == [] {
      assert rs + [r] == [r] && [r][1..] == [];
    } else {
      assert (rs + [r])[1..] == rs[1..] + [r];
      AfterAppend(Answer(b, rs[0]).0, rs[1..], r);
    }
  }

  /** However many addresses join in, 200 registrations pass at one instant. */
  lemma CrowdIsLimited(rs: seq<Request>, now: real, n: nat)
    requires Crowd(rs, now) && n < |rs|
    ensures Answer(After(map[], rs[..n]), rs[n]).1.None? <==> n < 200
  {
    hide Answer, After, Used, Registers;
    CrowdUses(rs, now, n);
    RegistrationUses(After(map[], rs[..n]), rs[n]);
  }
}
