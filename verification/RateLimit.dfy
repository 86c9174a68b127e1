/** Fixed-window rate limiting: one (start, count) per bucket, opened by the first hit after the last window. */
module RateLimit {
  import opened Wrappers

  datatype Rule = Rule(name: string, limit: int, window: real)
  datatype Window = Window(start: real, count: int)

  const MINUTE := 60.0
  const HOUR := 3600.0
  const REGISTER_RULE := Rule("register", 10, MINUTE)
  const REGISTER_GLOBAL_RULE := Rule("register-global", 200, HOUR)
  const OAUTH_RULE := Rule("oauth", 30, MINUTE)
  const MCP_RULE := Rule("mcp-unauthenticated", 60, MINUTE)

  function Max(a: real, b: real): real {
    if a >= b then a else b
  }

  function BucketName(rule: Rule, key: string): string {
    rule.name + ":" + key
  }

  /** The window a hit at `now` counts in. */
  function Current(w: Option<Window>, rule: Rule, now: real): Window {
    if w.None? || now - w.value.start >= rule.window then Window(now, 0) else w.value
  }

  /** One hit on one bucket: the window stored back, and the seconds to wait when refused. */
  function HitWindow(w: Option<Window>, rule: Rule, now: real): (Window, Option<real>) {
    var c := Current(w, rule, now);
    if c.count >= rule.limit then (c, Some(Max(1.0, rule.window - (now - c.start))))
    else (c.(count := c.count + 1), None)
  }

  function Of(b: map<string, Window>, bucket: string): Option<Window> {
    if bucket in b then Some(b[bucket]) else None
  }

  /** `hit`. */
  function Hit(b: map<string, Window>, rule: Rule, key: string, now: real): (map<string, Window>, Option<real>) {
    var bucket := BucketName(rule, key);
    var (w, wait) := HitWindow(Of(b, bucket), rule, now);
    (b[bucket := w], wait)
  }

  // ------------------------------------------------------------------ one bucket over time

  function After(w: Option<Window>, rule: Rule, ts: seq<real>): Option<Window>
    decreases |ts|
  {
    if ts == [] then w else After(Some(HitWindow(w, rule, ts[0]).0), rule, ts[1..])
  }

  /** How many hits of the run are admitted at a time in [a, e). */
  function Admitted(w: Option<Window>, rule: Rule, ts: seq<real>, a: real, e: real): nat
    decreases |ts|
  {
    if ts == [] then 0
    else
      var (w', wait) := HitWindow(w, rule, ts[0]);
      (if wait.None? && a <= ts[0] < e then 1 else 0) + Admitted(Some(w'), rule, ts[1..], a, e)
  }

  predicate NonDecreasing(ts: seq<real>) {
    forall i, j :: 0 <= i < j < |ts| ==> ts[i] <= ts[j]
  }

  /** A stored window was opened by an admitted hit and never exceeds its limit. */
  predicate Sound(w: Option<Window>, rule: Rule) {
    w.Some? ==> 1 <= w.value.count <= rule.limit
  }

  predicate NotBefore(w: Option<Window>, ts: seq<real>) {
    w.Some? && ts != [] ==> w.value.start <= ts[0]
  }

  /** Window starts of one bucket are the same or at least a window apart. */
  lemma {:induction false} StartsKeepTheirDistance(w: Window, rule: Rule, ts: seq<real>)
    requires rule.window >= 0.0
    ensures var last := After(Some(w), rule, ts);
            last.Some? && (last.value.start == w.start || last.value.start >= w.start + rule.window)
    decreases |ts|
  {
    if ts != [] {
      StartsKeepTheirDistance(HitWindow(Some(w), rule, ts[0]).0, rule, ts[1..]);
    }
  }

  /** `q` windows after the first one with an admission in [a, ...), `n` admissions so far: either that
      first window opened before `a`, so one of its admissions is not counted, or not. */
  predicate Tally(w: Window, rule: Rule, a: real, n: nat, q: nat) {
    || (w.start > a - rule.window + (q as real) * rule.window && n <= rule.limit * q + w.count - 1)
    || (w.start >= a + (q as real) * rule.window && n <= rule.limit * q + w.count)
  }

  /** An admission before a + k windows keeps the tally under its bound. */
  lemma TallyBound(w: Window, rule: Rule, a: real, n: nat, q: nat, k: nat)
    requires rule.limit >= 1 && rule.window > 0.0 && w.count <= rule.limit
    requires Tally(w, rule, a, n, q) && w.start < a + (k as real) * rule.window
    ensures n <= rule.limit * (k + 1) - 1
  {
    assert q <= k by {
      if q > k { LaterWindowsStartLater(w.start, a, rule.window, q, k); }
    }
    assert rule.limit * (k + 1) == rule.limit * k + rule.limit;
    if q < k {
      ScaleInt(q + 1, k, rule.limit);
      assert rule.limit * (q + 1) == rule.limit * q + rule.limit;
    }
  }

  lemma LaterWindowsStartLater(start: real, a: real, window: real, q: nat, k: nat)
    requires q > k && window > 0.0 && start < a + (k as real) * window
    ensures start < a + (q as real) * window - window
  {
    Scale(k + 1, q, window);
    assert ((k + 1) as real) * window == (k as real) * window + window;
  }

  lemma Scale(i: nat, j: nat, x: real)
    requires i <= j && x >= 0.0
    ensures (i as real) * x <= (j as real) * x
  {
  }

  lemma ScaleInt(i: nat, j: nat, x: int)
    requires i <= j && x >= 0
    ensures x * i <= x * j
  {
  }

  lemma TallyNewWindow(w: Window, rule: Rule, a: real, n: nat, q: nat, t: real)
    requires rule.window > 0.0 && w.count <= rule.limit && Tally(w, rule, a, n, q) && t >= w.start + rule.window
    ensures Tally(Window(t, 1), rule, a, n, q + 1) && Tally(Window(t, 1), rule, a, n + 1, q + 1)
  {
    assert ((q + 1) as real) * rule.window == (q as real) * rule.window + rule.window;
    assert rule.limit * (q + 1) == rule.limit * q + rule.limit;
  }

  /** One hit: the tally goes on, for the same or the next window. */
  lemma TallyStep(w: Option<Window>, rule: Rule, a: real, e: real, n: nat, q: nat, t: real)
    returns (q': nat)
    requires rule.limit >= 1 && rule.window > 0.0 && Sound(w, rule) && (w.Some? ==> w.value.start <= t)
    requires n > 0 ==> w.Some? && Tally(w.value, rule, a, n, q)
    ensures var (w', wait) := HitWindow(w, rule, t);
            var n' := if wait.None? && a <= t < e then n + 1 else n;
            && Sound(Some(w'), rule) && w'.start <= t
            && (n' > 0 ==> Tally(w', rule, a, n', q'))
  {
    q' := q;
    if n == 0 {
      q' := 0;
    } else if t - w.value.start >= rule.window {
      q' := q + 1;
      TallyNewWindow(w.value, rule, a, n, q, t);
    }
  }

  lemma {:induction false} Bounded(w: Option<Window>, rule: Rule, ts: seq<real>, a: real, e: real,
                                   k: nat, n: nat, q: nat)
    requires rule.limit >= 1 && rule.window > 0.0 && e <= a + (k as real) * rule.window
    requires NonDecreasing(ts) && Sound(w, rule) && NotBefore(w, ts)
    requires n > 0 ==> w.Some? && Tally(w.value, rule, a, n, q)
    requires n <= rule.limit * (k + 1) - 1
    ensures n + Admitted(w, rule, ts, a, e) <= rule.limit * (k + 1) - 1
    decreases |ts|
  {
    if ts != [] {
      var t := ts[0];
      var (w', wait) := HitWindow(w, rule, t);
      var q' := TallyStep(w, rule, a, e, n, q, t);
      var n' := if wait.None? && a <= t < e then n + 1 else n;
      if n' > n { TallyBound(w', rule, a, n', q', k); }
      assert ts[1..] != [] ==> ts[1..][0] == ts[1];
      Bounded(Some(w'), rule, ts[1..], a, e, k, n', q');
    }
  }

  /** In any interval no longer than `k` windows a bucket admits at most limit * (k + 1) - 1 hits: twice
      the limit less one for one window, and for a length L, k = floor(L / window) + 1. */
  lemma AdmissionsPerInterval(rule: Rule, ts: seq<real>, a: real, length: real, k: nat)
    requires rule.limit >= 1 && rule.window > 0.0 && NonDecreasing(ts)
    requires length <= (k as real) * rule.window
    ensures Admitted(None, rule, ts, a, a + length) <= rule.limit * (k + 1) - 1
  {
    assert rule.limit * (k + 1) == rule.limit * k + rule.limit;
    Bounded(None, rule, ts, a, a + length, k, 0, 0);
  }

  // ------------------------------------------------------------------ the bound is reached

  function Repeat(t: real, n: nat): (r: seq<real>)
    ensures |r| == n && forall i :: 0 <= i < n ==> r[i] == t
  {
    seq(n, _ => t)
  }

  lemma {:induction false} AdmittedOfConcat(w: Option<Window>, rule: Rule, xs: seq<real>, ys: seq<real>,
                                            a: real, e: real)
    ensures Admitted(w, rule, xs + ys, a, e) ==
            Admitted(w, rule, xs, a, e) + Admitted(After(w, rule, xs), rule, ys, a, e)
    decreases |xs|
  {
    if xs == [] {
      assert xs + ys == ys;
    } else {
      assert (xs + ys)[1..] == xs[1..] + ys;
      AdmittedOfConcat(Some(HitWindow(w, rule, xs[0]).0), rule, xs[1..], ys, a, e);
    }
  }

  lemma {:induction false} BurstFills(w: Window, rule: Rule, t: real, n: nat, a: real, e: real)
    requires t - w.start < rule.window && w.count + n <= rule.limit && a <= t < e
    ensures Admitted(Some(w), rule, Repeat(t, n), a, e) == n
    ensures After(Some(w), rule, Repeat(t, n)) == Some(w.(count := w.count + n))
    decreases n
  {
    if n > 0 {
      assert Repeat(t, n)[1..] == Repeat(t, n - 1);
      BurstFills(w.(count := w.count + 1), rule, t, n - 1, a, e);
    }
  }

  lemma {:induction false} AfterOfConcat(w: Option<Window>, rule: Rule, xs: seq<real>, ys: seq<real>)
    ensures After(w, rule, xs + ys) == After(After(w, rule, xs), rule, ys)
    decreases |xs|
  {
    if xs == [] {
      assert xs + ys == ys;
    } else {
      assert (xs + ys)[1..] == xs[1..] + ys;
      AfterOfConcat(Some(HitWindow(w, rule, xs[0]).0), rule, xs[1..], ys);
    }
  }

  /** One hit at 0, `n` more at `half` and `n + 1` at `window`. */
  function Straddle(half: real, window: real, n: nat): seq<real> {
    ([0.0] + Repeat(half, n)) + ([window] + Repeat(window, n))
  }

  lemma StraddleIsOrdered(half: real, window: real, n: nat)
    requires 0.0 <= half <= window
    ensures NonDecreasing(Straddle(half, window, n))
  {
    var ts := Straddle(half, window, n);
    forall i | 0 <= i < |ts|
      ensures ts[i] == if i == 0 then 0.0 else if i <= n then half else window
    {
    }
  }

  /** A hit opening its window, then a burst inside it. */
  lemma OpenAndFill(w: Option<Window>, rule: Rule, start: real, t: real, n: nat, a: real, e: real)
    requires rule.limit == n + 1 && start <= t < start + rule.window && a <= t < e
    requires w.None? || start - w.value.start >= rule.window
    ensures var ts := [start] + Repeat(t, n);
            && Admitted(w, rule, ts, a, e) == n + (if a <= start < e then 1 else 0)
            && After(w, rule, ts) == Some(Window(start, n + 1))
  {
    AdmittedOfConcat(w, rule, [start], Repeat(t, n), a, e);
    AfterOfConcat(w, rule, [start], Repeat(t, n));
    assert [start][1..] == [];
    assert HitWindow(w, rule, start) == (Window(start, 1), None);
    BurstFills(Window(start, 1), rule, t, n, a, e);
  }

  /** The bound for one window is attained: an early hit, the rest of its window late, then a full new window. */
  lemma TwiceTheLimitLessOneIsReached(rule: Rule)
    requires rule.limit >= 1 && rule.window > 0.0
    ensures var half := rule.window / 2.0;
            var ts := Straddle(half, rule.window, rule.limit - 1);
            NonDecreasing(ts) && Admitted(None, rule, ts, half, half + rule.window) == 2 * rule.limit - 1
  {
    hide Admitted, After, NonDecreasing;
    var half, n := rule.window / 2.0, rule.limit - 1;
    var a, e := half, half + rule.window;
    StraddleIsOrdered(half, rule.window, n);
    AdmittedOfConcat(None, rule, [0.0] + Repeat(half, n), [rule.window] + Repeat(rule.window, n), a, e);
    OpenAndFill(None, rule, 0.0, half, n, a, e);
    OpenAndFill(Some(Window(0.0, n + 1)), rule, rule.window, rule.window, n, a, e);
  }

  // ------------------------------------------------------------------ waiting

  /** The bucket refuses a hit at `t`. */
  predicate Refuses(w: Window, rule: Rule, t: real) {
    HitWindow(Some(w), rule, t).1.Some?
  }

  /** The unrounded answer of `hit`. */
  function Wait(w: Window, rule: Rule, t: real): real
    requires Refuses(w, rule, t)
  {
    HitWindow(Some(w), rule, t).1.value
  }

  /** The `Retry-After` header: the wait truncated to whole seconds. */
  function RetryAfter(wait: real): int {
    wait.Floor
  }

  /** A bucket nobody else hits: refusals do not change it, and waiting the whole answer is enough. */
  lemma FullWaitSuffices(w: Window, rule: Rule, t: real, later: real)
    requires rule.limit >= 1 && Refuses(w, rule, t) && later >= t + Wait(w, rule, t)
    ensures HitWindow(Some(w), rule, t).0 == w && !Refuses(w, rule, later)
  {
  }

  /** The truncated header is enough exactly for refusals in the last second of the window or a whole number of
      seconds before its end; at every other moment it sends the client back too early. */
  lemma HeaderSufficesIff(w: Window, rule: Rule, t: real)
    requires rule.limit >= 1 && Refuses(w, rule, t)
    ensures var left := rule.window - (t - w.start);
            !Refuses(w, rule, t + RetryAfter(Wait(w, rule, t)) as real) <==> left <= 1.0 || left == left.Floor as real
  {
    var left := rule.window - (t - w.start);
    if left <= 1.0 {
      assert RetryAfter(Wait(w, rule, t)) == 1;
    }
  }

  /** The failing input: refused half a second into a minute's window, the client is told 59 seconds, half a second
      too few. */
  lemma HeaderFallsShort(rule: Rule)
    requires rule.window == MINUTE && rule.limit >= 1
    ensures var w := Window(0.0, rule.limit);
            Refuses(w, rule, 0.5) && RetryAfter(Wait(w, rule, 0.5)) == 59 && Refuses(w, rule, 0.5 + 59.0)
  {
  }

  /** A client that obeys the truncated header is admitted after at most two waits. */
  lemma TwoWaitsSuffice(w: Window, rule: Rule, t: real, second: real, third: real)
    requires rule.limit >= 1 && Refuses(w, rule, t)
    requires second >= t + RetryAfter(Wait(w, rule, t)) as real
    requires Refuses(w, rule, second) ==> third >= second + RetryAfter(Wait(w, rule, second)) as real
    ensures !Refuses(w, rule, second) || !Refuses(w, rule, third)
  {
  }

  // ------------------------------------------------------------------ many buckets

  datatype Event = Event(rule: Rule, key: string, now: real)

  function RunHits(b: map<string, Window>, es: seq<Event>): map<string, Window>
    decreases |es|
  {
    if es == [] then b else RunHits(Hit(b, es[0].rule, es[0].key, es[0].now).0, es[1..])
  }

  /** The times of the hits on one bucket. */
  function TimesOf(es: seq<Event>, bucket: string): seq<real> {
    if es == [] then []
    else if BucketName(es[0].rule, es[0].key) == bucket then [es[0].now] + TimesOf(es[1..], bucket)
    else TimesOf(es[1..], bucket)
  }

  /** A bucket's state, and so its next answer, depends on its own hits alone. */
  lemma {:induction false} BucketDependsOnItsOwnHits(b: map<string, Window>, es: seq<Event>, rule: Rule, key: string)
    requires OneRule(es, rule, key)
    ensures var bucket := BucketName(rule, key);
            Of(RunHits(b, es), bucket) == After(Of(b, bucket), rule, TimesOf(es, bucket))
    decreases |es|
  {
    if es != [] {
      assert es[0] in es;
      BucketDependsOnItsOwnHits(Hit(b, es[0].rule, es[0].key, es[0].now).0, es[1..], rule, key);
    }
  }

  /** How many hits of a mixed run the bucket of (rule, key) admits at a time in [a, e). */
  function AdmittedTo(b: map<string, Window>, es: seq<Event>, rule: Rule, key: string, a: real, e: real): nat
    decreases |es|
  {
    if es == [] then 0
    else
      var (b', wait) := Hit(b, es[0].rule, es[0].key, es[0].now);
      var counts := BucketName(es[0].rule, es[0].key) == BucketName(rule, key) && wait.None? && a <= es[0].now < e;
      (if counts then 1 else 0) + AdmittedTo(b', es[1..], rule, key, a, e)
  }

  /** Every hit on the bucket is charged by the same rule: a rule name has one limit and window. */
  predicate OneRule(es: seq<Event>, rule: Rule, key: string) {
    forall e :: e in es && BucketName(e.rule, e.key) == BucketName(rule, key) ==> e.rule == rule
  }

  predicate InTimeOrder(es: seq<Event>) {
    forall i, j :: 0 <= i < j < |es| ==> es[i].now <= es[j].now
  }

  lemma {:induction false} AdmittedToIsAdmitted(b: map<string, Window>, es: seq<Event>, rule: Rule, key: string,
                                                a: real, e: real)
    requires OneRule(es, rule, key)
    ensures var bucket := BucketName(rule, key);
            AdmittedTo(b, es, rule, key, a, e) == Admitted(Of(b, bucket), rule, TimesOf(es, bucket), a, e)
    decreases |es|
  {
    if es != [] {
      assert es[0] in es;
      assert forall x :: x in es[1..] ==> x in es;
      AdmittedToIsAdmitted(Hit(b, es[0].rule, es[0].key, es[0].now).0, es[1..], rule, key, a, e);
    }
  }

  lemma {:induction false} TimesStayInOrder(es: seq<Event>, bucket: string)
    requires InTimeOrder(es)
    ensures NonDecreasing(TimesOf(es, bucket))
    ensures forall i :: 0 <= i < |TimesOf(es, bucket)| ==> es != [] && es[0].now <= TimesOf(es, bucket)[i]
    decreases |es|
  {
    if es != [] {
      assert forall i :: 0 <= i < |es[1..]| ==> es[1..][i] == es[i + 1];
      TimesStayInOrder(es[1..], bucket);
    }
  }

  /** The interval bound for one (rule, key) in any run of hits on any rules and keys, from an empty table. */
  lemma AdmissionsInAnyRun(es: seq<Event>, rule: Rule, key: string, a: real, length: real, k: nat)
    requires rule.limit >= 1 && rule.window > 0.0 && InTimeOrder(es) && OneRule(es, rule, key)
    requires length <= (k as real) * rule.window
    ensures AdmittedTo(map[], es, rule, key, a, a + length) <= rule.limit * (k + 1) - 1
  {
    TimesStayInOrder(es, BucketName(rule, key));
    AdmittedToIsAdmitted(map[], es, rule, key, a, a + length);
    AdmissionsPerInterval(rule, TimesOf(es, BucketName(rule, key)), a, length, k);
  }

  /** Rule names hold no colon, so different (rule name, key) pairs never share a bucket. */
  lemma BucketsAreDistinct(r1: Rule, k1: string, r2: Rule, k2: string)
    requires ':' !in r1.name && ':' !in r2.name
    requires BucketName(r1, k1) == BucketName(r2, k2)
    ensures r1.name == r2.name && k1 == k2
  {
    var b := BucketName(r1, k1);
    var i, j := |r1.name|, |r2.name|;
    assert b[i] == ':' && b[j] == ':';
    assert forall x :: 0 <= x < i ==> b[x] == r1.name[x] && r1.name[x] in r1.name;
    assert forall x :: 0 <= x < j ==> b[x] == r2.name[x] && r2.name[x] in r2.name;
    assert r1.name == b[..i] && k1 == b[i + 1..];
  }

  // ------------------------------------------------------------------ the middleware

  predicate EndsWith(s: string, suffix: string) {
    |s| >= |suffix| && s[|s| - |suffix|..] == suffix
  }

  function TrimSlashes(path: string): string {
    if path != "" && path[|path| - 1] == '/' then TrimSlashes(path[..|path| - 1]) else path
  }

  /** The path the rules are matched on: no trailing slash, the root kept. */
  function Served(path: string): string {
    var p := TrimSlashes(path);
    if p == "" then "/" else p
  }

  /** The budgets `dispatch` charges for a request, in order. */
  function Budgets(path: string, ip: string, authorized: bool): seq<(Rule, string)> {
    var p := Served(path);
    if EndsWith(p, "/register") then [(REGISTER_GLOBAL_RULE, "all"), (REGISTER_RULE, ip)]
    else if EndsWith(p, "/authorize") || EndsWith(p, "/token") then [(OAUTH_RULE, p + "|" + ip)]
    else if EndsWith(p, "/mcp") && !authorized then [(MCP_RULE, ip)]
    else []
  }

  /** Charging stops at the first budget that refuses. */
  function Charge(b: map<string, Window>, budgets: seq<(Rule, string)>, now: real): (map<string, Window>, Option<real>)
    decreases |budgets|
  {
    if budgets == [] then (b, None)
    else
      var (b', wait) := Hit(b, budgets[0].0, budgets[0].1, now);
      if wait.Some? then (b', wait) else Charge(b', budgets[1..], now)
  }

  predicate Admits(b: map<string, Window>, budget: (Rule, string), now: real) {
    HitWindow(Of(b, BucketName(budget.0, budget.1)), budget.0, now).1.None?
  }

  predicate Distinct(budgets: seq<(Rule, string)>) {
    forall i, j :: 0 <= i < j < |budgets| ==>
      BucketName(budgets[i].0, budgets[i].1) != BucketName(budgets[j].0, budgets[j].1)
  }

  lemma BudgetsAreDistinct(path: string, ip: string, authorized: bool)
    ensures Distinct(Budgets(path, ip, authorized))
  {
    hide TrimSlashes, EndsWith;
    if BucketName(REGISTER_GLOBAL_RULE, "all") == BucketName(REGISTER_RULE, ip) {
      BucketsAreDistinct(REGISTER_GLOBAL_RULE, "all", REGISTER_RULE, ip);
    }
  }

  /** Charging passes exactly when each budget would admit the request on its own, and the buckets after
      the first refusing budget are left alone. */
  lemma {:induction false} ChargeStopsAtTheFirstRefusal(b: map<string, Window>, budgets: seq<(Rule, string)>, now: real)
    requires Distinct(budgets)
    ensures Charge(b, budgets, now).1.None? <==> forall i :: 0 <= i < |budgets| ==> Admits(b, budgets[i], now)
    ensures forall i, j :: 0 <= i < j < |budgets| && !Admits(b, budgets[i], now) ==>
              Of(Charge(b, budgets, now).0, BucketName(budgets[j].0, budgets[j].1))
              == Of(b, BucketName(budgets[j].0, budgets[j].1))
    decreases |budgets|
  {
    if budgets != [] && Admits(b, budgets[0], now) {
      var b' := Hit(b, budgets[0].0, budgets[0].1, now).0;
      var rest := budgets[1..];
      assert forall i :: 0 <= i < |rest| ==> rest[i] == budgets[i + 1];
      assert forall i :: 1 <= i < |budgets| ==> budgets[i] == rest[i - 1];
      assert forall i :: 1 <= i < |budgets| ==>
        Of(b', BucketName(budgets[i].0, budgets[i].1)) == Of(b, BucketName(budgets[i].0, budgets[i].1));
      ChargeStopsAtTheFirstRefusal(b', rest, now);
    }
  }

  /** A request passes exactly when each of its budgets would admit it on its own; a registration the
      global budget refuses leaves the caller's own budget uncharged. */
  lemma PassesIffEveryBudgetAdmits(b: map<string, Window>, path: string, ip: string, authorized: bool, now: real)
    ensures var budgets := Budgets(path, ip, authorized);
            && (Charge(b, budgets, now).1.None? <==> forall i :: 0 <= i < |budgets| ==> Admits(b, budgets[i], now))
            && (|budgets| == 2 && !Admits(b, budgets[0], now) ==>
                  Of(Charge(b, budgets, now).0, BucketName(budgets[1].0, budgets[1].1))
                  == Of(b, BucketName(budgets[1].0, budgets[1].1)))
  {
    hide Budgets;
    BudgetsAreDistinct(path, ip, authorized);
    ChargeStopsAtTheFirstRefusal(b, Budgets(path, ip, authorized), now);
  }

  lemma ChargeOne(b: map<string, Window>, x: (Rule, string), now: real)
    ensures Charge(b, [x], now) == Hit(b, x.0, x.1, now)
  {
    assert [x][1..] == [];
  }

  lemma ChargeTwo(b: map<string, Window>, x: (Rule, string), y: (Rule, string), now: real)
    ensures var first := Hit(b, x.0, x.1, now);
            Charge(b, [x, y], now) == if first.1.Some? then first else Hit(first.0, y.0, y.1, now)
  {
    assert [x, y][1..] == [y];
    ChargeOne(Hit(b, x.0, x.1, now).0, y, now);
  }

  class FixedWindowCounter {
    var buckets: map<string, Window>

    constructor ()
      ensures buckets == map[]
    {
      buckets := map[];
    }

    /** `hit`. */
    method Record(rule: Rule, key: string, now: real) returns (wait: Option<real>)
      modifies this
      ensures (buckets, wait) == Hit(old(buckets), rule, key, now)
    {
      var bucket := BucketName(rule, key);
      var w := if bucket in buckets then buckets[bucket] else Window(now, 0);
      if now - w.start >= rule.window {
        w := Window(now, 0);
      }
      if w.count >= rule.limit {
        buckets := buckets[bucket := w];
        return Some(Max(1.0, rule.window - (now - w.start)));
      }
      buckets := buckets[bucket := w.(count := w.count + 1)];
      return None;
    }

    /** `dispatch`: the answer is the wait of the first budget that refuses. */
    method Dispatch(path: string, ip: string, authorized: bool, now: real) returns (wait: Option<real>)
      modifies this
      ensures (buckets, wait) == Charge(old(buckets), Budgets(path, ip, authorized), now)
    {
      hide Hit, TrimSlashes, EndsWith;
      var p := Served(path);
      if EndsWith(p, "/register") {
        ChargeTwo(buckets, (REGISTER_GLOBAL_RULE, "all"), (REGISTER_RULE, ip), now);
        wait := Record(REGISTER_GLOBAL_RULE, "all", now);
        if wait.None? {
          wait := Record(REGISTER_RULE, ip, now);
        }
      } else if EndsWith(p, "/authorize") || EndsWith(p, "/token") {
        ChargeOne(buckets, (OAUTH_RULE, p + "|" + ip), now);
        wait := Record(OAUTH_RULE, p + "|" + ip, now);
      } else if EndsWith(p, "/mcp") && !authorized {
        ChargeOne(buckets, (MCP_RULE, ip), now);
        wait := Record(MCP_RULE, ip, now);
      } else {
        wait := None;
      }
    }
  }
}
