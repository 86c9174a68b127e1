/** The service's routing sessions as the hosted client sees them: a saved pick per (bearer, client),
    a 24 hour idle lease pushed forward by session-routed writes at most once an hour. */
module RoutingStore {
  datatype Key = Key(bearer: string, client: string)
  datatype Lease = Lease(expires: real, refreshed: real)
  datatype RoutedBy = ByCall | BySession | ByDefault | NotRouted
  datatype Answer = Answer(workspace: string, lever: RoutedBy)

  const HOUR := 3600.0
  const IDLE_TTL := 86400.0
  const REFRESH_EVERY := 3600.0

  datatype Config = Config(
    forbidden: set<string>,
    bound: set<string>,
    personalFloor: bool,
    preLanded: bool,
    defaultTeam: string,
    refuseHeaderless: bool)

  datatype Store = Store(config: Config, rows: map<Key, string>, expiry: map<Key, Lease>, now: real)

  /** `_live_session`: the pick while its lease lasts ("" for none); a lapsed row is dropped. */
  function LiveSession(st: Store, k: Key): (Store, string) {
    if k !in st.rows then (st, "")
    else if k in st.expiry && st.now >= st.expiry[k].expires then
      (st.(rows := st.rows - {k}, expiry := st.expiry - {k}), "")
    else (st, st.rows[k])
  }

  function Floor(c: Config): string {
    if c.refuseHeaderless then ""
    else if c.personalFloor then "ws_personal_user-1"
    else if c.preLanded then c.defaultTeam
    else ""
  }

  /** A request as the store reads it; `resolved` says the route runs the resolver on this service. */
  datatype Request = Request(key: Key, workspace: string, write: bool, userOnly: bool)

  predicate Resolves(c: Config, r: Request) {
    !r.userOnly || c.preLanded
  }

  function Refreshed(st: Store, k: Key): Store {
    if k in st.expiry && st.now - st.expiry[k].refreshed > REFRESH_EVERY
    then st.(expiry := st.expiry[k := Lease(st.now + IDLE_TTL, st.now)])
    else st
  }

  /** `resolve`: call header, then session, then floor, else the refusal. */
  function Resolve(st: Store, r: Request): (Store, Answer) {
    if r.workspace != "" then (st, Answer(r.workspace, ByCall))
    else if !Resolves(st.config, r) then (st, Answer("", NotRouted))
    else
      var (st', chosen) := if r.key.client != "" then LiveSession(st, r.key) else (st, "");
      if chosen != "" then (if r.write then Refreshed(st', r.key) else st', Answer(chosen, BySession))
      else if Floor(st.config) != "" then (st', Answer(Floor(st.config), ByDefault))
      else (st', Answer("", NotRouted))
  }

  /** `PUT /memory/routing/session`; answers the HTTP status. */
  function Put(st: Store, k: Key, workspace: string): (Store, int) {
    if k.bearer in st.config.bound then (st, 409)
    else if workspace in st.config.forbidden then (st, 403)
    else (st.(rows := st.rows[k := workspace], expiry := st.expiry[k := Lease(st.now + IDLE_TTL, st.now)]), 200)
  }

  /** `GET /memory/routing/explain`. */
  function Explain(st: Store, k: Key): (Store, Answer) {
    var (st', chosen) := LiveSession(st, k);
    (st', if chosen != "" then Answer(chosen, BySession)
          else if Floor(st.config) != "" then Answer(Floor(st.config), ByDefault)
          else Answer("", NotRouted))
  }

  datatype Event =
    | Ask(request: Request)
    | Save(key: Key, workspace: string)
    | Look(key: Key)
    | Tick(seconds: real)

  function Next(st: Store, e: Event): (Store, Answer) {
    match e
    case Ask(r) => Resolve(st, r)
    case Save(k, w) => (Put(st, k, w).0, Answer(w, NotRouted))
    case Look(k) => Explain(st, k)
    case Tick(d) => (st.(now := st.now + d), Answer("", NotRouted))
  }

  function Run(st: Store, es: seq<Event>): Store
    decreases |es|
  {
    if es == [] then st else Run(Next(st, es[0]).0, es[1..])
  }

  predicate Forward(es: seq<Event>) {
    forall e :: e in es && e.Tick? ==> e.seconds >= 0.0
  }

  /** A write without a workspace header on a route the resolver runs for. */
  predicate SessionWrite(st: Store, e: Event, k: Key) {
    e.Ask? && e.request.key == k && e.request.workspace == "" && e.request.write && Resolves(st.config, e.request)
  }

  predicate Lands(st: Store, e: Event, k: Key) {
    e.Save? && e.key == k && Put(st, e.key, e.workspace).1 == 200
  }

  // ------------------------------------------------------------------ keeping a pick alive

  /** The saved pick is live, and the last session write (or the save) at `last` left its lease at
      most one hour short of a full one. */
  predicate Held(st: Store, k: Key, w: string, last: real) {
    && k in st.rows && st.rows[k] == w && k in st.expiry
    && st.expiry[k].expires == st.expiry[k].refreshed + IDLE_TTL
    && st.expiry[k].refreshed <= last <= st.now
    && last - st.expiry[k].refreshed <= REFRESH_EVERY
  }

  /** Every session write of the run comes less than `gap` after the one before; nothing re-saves the pick. */
  predicate Steady(st: Store, es: seq<Event>, k: Key, last: real, gap: real)
    decreases |es|
  {
    es == [] ||
    (&& !Lands(st, es[0], k)
     && (SessionWrite(st, es[0], k) ==> st.now - last < gap)
     && Steady(Next(st, es[0]).0, es[1..], k, if SessionWrite(st, es[0], k) then st.now else last, gap))
  }

  /** Every session write of the run is routed to `w` by the session lever. */
  predicate AllReach(st: Store, es: seq<Event>, k: Key, w: string)
    decreases |es|
  {
    es == [] ||
    (&& (SessionWrite(st, es[0], k) ==> Next(st, es[0]).1 == Answer(w, BySession))
     && AllReach(Next(st, es[0]).0, es[1..], k, w))
  }

  lemma SaveHolds(st: Store, k: Key, w: string)
    requires Put(st, k, w).1 == 200
    ensures Held(Put(st, k, w).0, k, w, st.now)
  {
  }

  lemma HeldStep(st: Store, e: Event, k: Key, w: string, last: real)
    requires Held(st, k, w, last) && st.now - last < 23.0 * HOUR
    requires k.client != "" && w != "" && !Lands(st, e, k)
    requires e.Tick? ==> e.seconds >= 0.0
    ensures var st' := Next(st, e).0;
            if SessionWrite(st, e, k) then Next(st, e).1 == Answer(w, BySession) && Held(st', k, w, st.now)
            else Held(st', k, w, last)
  {
  }

  lemma {:induction false} LateRunsAskNothing(st: Store, es: seq<Event>, k: Key, w: string, last: real)
    requires st.now - last >= 23.0 * HOUR
    requires Forward(es) && Steady(st, es, k, last, 23.0 * HOUR)
    ensures AllReach(st, es, k, w)
    decreases |es|
  {
    if es != [] {
      assert es[0] in es;
      assert Forward(es[1..]);
      LateRunsAskNothing(Next(st, es[0]).0, es[1..], k, w, last);
    }
  }

  lemma {:induction false} SteadyRunsReach(st: Store, es: seq<Event>, k: Key, w: string, last: real)
    requires Held(st, k, w, last) && k.client != "" && w != ""
    requires Forward(es) && Steady(st, es, k, last, 23.0 * HOUR)
    ensures AllReach(st, es, k, w)
    decreases |es|
  {
    if es == [] {
    } else if st.now - last >= 23.0 * HOUR {
      LateRunsAskNothing(st, es, k, w, last);
    } else {
      assert es[0] in es;
      assert Forward(es[1..]);
      HeldStep(st, es[0], k, w, last);
      SteadyRunsReach(Next(st, es[0]).0, es[1..], k, w, if SessionWrite(st, es[0], k) then st.now else last);
    }
  }

  /** After a saved pick, however long the run and whatever reads, other clients and refused saves it
      holds, session writes less than 23 hours apart all reach that pick. */
  lemma WritesKeepThePickAlive(st: Store, k: Key, w: string, es: seq<Event>)
    requires Put(st, k, w).1 == 200 && k.client != "" && w != ""
    requires Forward(es) && Steady(Put(st, k, w).0, es, k, st.now, 23.0 * HOUR)
    ensures AllReach(Put(st, k, w).0, es, k, w)
  {
    SaveHolds(st, k, w);
    SteadyRunsReach(Put(st, k, w).0, es, k, w, st.now);
  }

  /** 23 hours is exact: any larger bound admits a run whose last write finds the pick lapsed. */
  lemma LargerGapsLoseThePick(st: Store, k: Key, w: string, gap: real)
    requires Put(st, k, w).1 == 200 && k.client != "" && w != "" && gap > 23.0 * HOUR
    ensures var write := Ask(Request(k, "", true, false));
            var es := [Tick(HOUR), write, Tick(23.0 * HOUR), write];
            && Forward(es) && Steady(Put(st, k, w).0, es, k, st.now, gap)
            && !AllReach(Put(st, k, w).0, es, k, w)
  {
    var write := Ask(Request(k, "", true, false));
    var es := [Tick(HOUR), write, Tick(23.0 * HOUR), write];
    var s0 := Put(st, k, w).0;
    var s1 := Next(s0, es[0]).0;
    var s2 := Next(s1, es[1]).0;
    var s3 := Next(s2, es[2]).0;
    assert s2 == s1;
    assert es[1..] == [write, Tick(23.0 * HOUR), write];
    assert es[1..][1..] == [Tick(23.0 * HOUR), write];
    assert es[1..][1..][1..] == [write];
    assert es[1..][1..][1..][1..] == [];
    assert Next(s3, write).1.lever != BySession;
    assert Steady(s3, [write], k, s1.now, gap);
    assert !AllReach(s3, [write], k, w);
    assert Steady(s2, [Tick(23.0 * HOUR), write], k, s1.now, gap);
    assert !AllReach(s2, [Tick(23.0 * HOUR), write], k, w);
    assert Steady(s1, [write, Tick(23.0 * HOUR), write], k, s0.now, gap);
    assert !AllReach(s1, [write, Tick(23.0 * HOUR), write], k, w);
  }

  // ------------------------------------------------------------------ reads and lapses

  /** A read or an explain leaves every lease as it was or drops a lapsed row; it never extends one. */
  lemma ReadsNeverExtend(st: Store, e: Event, k: Key)
    requires e.Look? || (e.Ask? && !e.request.write)
    ensures var st' := Next(st, e).0;
            && st'.now == st.now
            && (if k in st'.rows then k in st.rows && st'.rows[k] == st.rows[k]
                else k in st.rows ==> k in st.expiry && st.now >= st.expiry[k].expires)
            && (k in st'.expiry ==> k in st.expiry && st'.expiry[k] == st.expiry[k])
  {
  }

  predicate Lapsed(st: Store, k: Key) {
    k in st.rows ==> k in st.expiry && st.now >= st.expiry[k].expires
  }

  /** No event of the run saves a pick for the key. */
  predicate NoSave(st: Store, es: seq<Event>, k: Key)
    decreases |es|
  {
    es == [] || (!Lands(st, es[0], k) && NoSave(Next(st, es[0]).0, es[1..], k))
  }

  /** No request of the key is answered from the session anywhere in the run. */
  predicate NeverBySession(st: Store, es: seq<Event>, k: Key)
    decreases |es|
  {
    es == [] ||
    (&& ((es[0].Ask? && es[0].request.key == k) || (es[0].Look? && es[0].key == k) ==>
           Next(st, es[0]).1.lever != BySession)
     && NeverBySession(Next(st, es[0]).0, es[1..], k))
  }

  /** A lapsed pick never comes back on its own: without a new save no later request is answered by it. */
  lemma {:induction false} LapsedStaysLapsed(st: Store, es: seq<Event>, k: Key)
    requires Lapsed(st, k) && Forward(es) && NoSave(st, es, k)
    ensures Lapsed(Run(st, es), k) && NeverBySession(st, es, k)
    decreases |es|
  {
    if es != [] {
      assert es[0] in es;
      assert Forward(es[1..]);
      LapsedStaysLapsed(Next(st, es[0]).0, es[1..], k);
    }
  }

  // ------------------------------------------------------------------ which lever answers

  /** The pick of the key, while it has one that has not lapsed. */
  predicate Picked(st: Store, k: Key) {
    k in st.rows && st.rows[k] != "" && (k in st.expiry ==> st.now < st.expiry[k].expires)
  }

  /** Who answers a request: its own header always; then the saved pick, for a client that names itself; then the floor,
      which is no workspace for the agent case, the personal one where that is on, and else the default team of a
      service that resolves these routes. A route it does not resolve is never routed without a header. */
  lemma RequestIsAnsweredBy(st: Store, r: Request)
    ensures var answer := Resolve(st, r).1;
            var session := (!r.userOnly || st.config.preLanded) && r.key.client != "" && Picked(st, r.key);
            && (answer.lever == ByCall <==> r.workspace != "")
            && (answer.lever == BySession <==> r.workspace == "" && session)
            && (answer.lever == ByDefault <==>
                  && r.workspace == "" && !session && (!r.userOnly || st.config.preLanded)
                  && !st.config.refuseHeaderless
                  && (st.config.personalFloor || (st.config.preLanded && st.config.defaultTeam != "")))
            && answer.workspace ==
                 (match answer.lever
                  case ByCall => r.workspace
                  case BySession => st.rows[r.key]
                  case ByDefault => if st.config.personalFloor then "ws_personal_user-1" else st.config.defaultTeam
                  case NotRouted => "")
  {
  }

  /** An explain answers what a data request of the same client without a header would be answered, on a service that
      resolves its route. */
  lemma ExplainForetells(st: Store, k: Key, write: bool)
    requires k.client != ""
    ensures Explain(st, k).1 == Resolve(st, Request(k, "", write, false)).1
  {
  }

  /** A save by a bound bearer is a conflict, one into a forbidden workspace is refused, and neither changes anything;
      any other replaces the client's own pick alone and lasts a day from now. */
  lemma SavedForADay(st: Store, k: Key, w: string)
    ensures var (st', status) := Put(st, k, w);
            && (status == 409 <==> k.bearer in st.config.bound)
            && (status == 403 <==> k.bearer !in st.config.bound && w in st.config.forbidden)
            && (status == 200 <==> k.bearer !in st.config.bound && w !in st.config.forbidden)
            && (status != 200 ==> st' == st)
            && (status == 200 ==>
                  && k in st'.rows && st'.rows[k] == w
                  && k in st'.expiry && st'.expiry[k] == Lease(st.now + 86400.0, st.now)
                  && forall x :: x != k ==>
                       && (x in st'.rows <==> x in st.rows) && (x in st'.expiry <==> x in st.expiry)
                       && (x in st.rows ==> st'.rows[x] == st.rows[x])
                       && (x in st.expiry ==> st'.expiry[x] == st.expiry[x]))
  {
  }

  /** A write the pick answers pushes its lease on to a day from now, if the last push is more than an hour ago; no
      other request does. */
  lemma LeasePushedOn(st: Store, r: Request)
    ensures var (st', answer) := Resolve(st, r);
            && (answer.lever == BySession && r.key in st.expiry ==>
                  r.key in st'.expiry && st'.expiry[r.key] ==
                    if r.write && st.now > st.expiry[r.key].refreshed + 3600.0
                    then Lease(st.now + 86400.0, st.now) else st.expiry[r.key])
            && (answer.lever != BySession && answer.lever != ByCall && r.key in st'.expiry ==>
                  r.key in st.expiry && st'.expiry[r.key] == st.expiry[r.key])
  {
  }

  // ------------------------------------------------------------------ the store as an object

  class RoutingSessionStore {
    const config: Config
    var rows: map<Key, string>
    var expiry: map<Key, Lease>
    var now: real
    var resolved: seq<Answer>

    constructor (config: Config)
      ensures View() == Store(config, map[], map[], 0.0) && resolved == []
    {
      this.config := config;
      this.rows := map[];
      this.expiry := map[];
      this.now := 0.0;
      this.resolved := [];
    }

    function View(): Store
      reads this
    {
      Store(config, rows, expiry, now)
    }

    method TakeLiveSession(k: Key) returns (w: string)
      modifies `rows, `expiry
      ensures (View(), w) == LiveSession(old(View()), k)
    {
      if k !in rows {
        return "";
      }
      if k in expiry && now >= expiry[k].expires {
        rows := rows - {k};
        expiry := expiry - {k};
        return "";
      }
      return rows[k];
    }

    method ResolveRequest(r: Request) returns (a: Answer)
      modifies this
      ensures (View(), a) == Resolve(old(View()), r)
      ensures resolved == old(resolved) + [a]
    {
      if r.workspace != "" {
        a := Answer(r.workspace, ByCall);
      } else if r.userOnly && !config.preLanded {
        a := Answer("", NotRouted);
      } else {
        var chosen := "";
        if r.key.client != "" {
          chosen := TakeLiveSession(r.key);
        }
        var floor := Floor(config);
        if chosen != "" {
          a := Answer(chosen, BySession);
          if r.write && r.key in expiry {
            var lease := expiry[r.key];
            if now - lease.refreshed > REFRESH_EVERY {
              expiry := expiry[r.key := Lease(now + IDLE_TTL, now)];
            }
          }
        } else if floor != "" {
          a := Answer(floor, ByDefault);
        } else {
          a := Answer("", NotRouted);
        }
      }
      resolved := resolved + [a];
    }

    method PutSession(k: Key, workspace: string) returns (status: int)
      modifies `rows, `expiry
      ensures (View(), status) == Put(old(View()), k, workspace)
    {
      if k.bearer in config.bound {
        return 409;
      }
      if workspace in config.forbidden {
        return 403;
      }
      rows := rows[k := workspace];
      expiry := expiry[k := Lease(now + IDLE_TTL, now)];
      return 200;
    }
  }
}
