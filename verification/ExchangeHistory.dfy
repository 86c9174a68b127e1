/** Whole runs of the exchange cache: recency, what a cached answer is, and when a token is exchanged again. */
module ExchangeHistory {
  import opened Sets
  import opened Wrappers
  import opened ExchangeCache

  // ------------------------------------------------------------------ last-touch order

  /** The keys an operation touches: a put, or a get that hits a live entry. */
  function Touches(c: seq<Entry>, op: Op): seq<string> {
    match op
    case GetOp(k, now) => if Get(c, k, now).1.Some? then [k] else []
    case PutOp(k, _) => [k]
    case InvalidateOp(_) => []
  }

  function TouchLog(c: seq<Entry>, ops: seq<Op>, max: nat): seq<string>
    decreases |ops|
  {
    if ops == [] then [] else Touches(c, ops[0]) + TouchLog(Apply(c, ops[0], max), ops[1..], max)
  }

  /** The place of the last touch of a key, -1 when it was never touched. */
  function LastTouch(t: seq<string>, k: string): (r: int)
    ensures -1 <= r < |t| && (r >= 0 ==> t[r] == k)
    ensures forall i :: r < i < |t| ==> t[i] != k
  {
    if t == [] then -1 else if t[|t| - 1] == k then |t| - 1 else LastTouch(t[..|t| - 1], k)
  }

  predicate InTouchOrder(c: seq<Entry>, t: seq<string>) {
    && (forall i :: 0 <= i < |c| ==> LastTouch(t, c[i].key) >= 0)
    && forall i, j :: 0 <= i < j < |c| ==> LastTouch(t, c[i].key) < LastTouch(t, c[j].key)
  }

  lemma LastTouchOfAppend(t: seq<string>, k: string, x: string)
    ensures LastTouch(t + [k], x) == if x == k then |t| else LastTouch(t, x)
  {
    assert (t + [k])[..|t|] == t;
  }

  /** Leaving entries out keeps the order. */
  lemma {:induction false} RemoveKeepsOrder(c: seq<Entry>, k: string, t: seq<string>)
    requires InTouchOrder(c, t)
    ensures InTouchOrder(Remove(c, k), t)
    ensures c != [] && Remove(c, k) != [] ==> LastTouch(t, c[0].key) <= LastTouch(t, Remove(c, k)[0].key)
  {
    if c != [] {
      assert InTouchOrder(c[1..], t) by {
        assert forall i :: 0 <= i < |c[1..]| ==> c[1..][i] == c[i + 1];
      }
      RemoveKeepsOrder(c[1..], k, t);
      var r := Remove(c[1..], k);
      if r != [] { assert LastTouch(t, c[0].key) < LastTouch(t, c[1].key) <= LastTouch(t, r[0].key); }
      if c[0].key != k {
        forall i, j | 0 <= i < j < |[c[0]] + r|
          ensures LastTouch(t, ([c[0]] + r)[i].key) < LastTouch(t, ([c[0]] + r)[j].key)
        {
          if i == 0 && j > 1 { assert LastTouch(t, r[0].key) < LastTouch(t, r[j - 1].key); }
        }
      }
    }
  }

  lemma TouchKeepsOrder(c: seq<Entry>, k: string, id: Identity, t: seq<string>)
    requires Distinct(c) && InTouchOrder(c, t)
    ensures InTouchOrder(Touch(c, k, id), t + [k])
  {
    hide InTouchOrder, Distinct, Keys;
    RemoveKeepsOrder(c, k, t);
    RemoveMeans(c, k);
    var r := Remove(c, k);
    forall i | 0 <= i < |r|
      ensures r[i].key != k
    {
      assert r[i] in r;
    }
    AppendKeepsOrder(r, Entry(k, id), t);
  }

  lemma AppendKeepsOrder(r: seq<Entry>, e: Entry, t: seq<string>)
    requires InTouchOrder(r, t) && forall i :: 0 <= i < |r| ==> r[i].key != e.key
    ensures InTouchOrder(r + [e], t + [e.key])
  {
    hide LastTouch;
    var c := r + [e];
    forall i | 0 <= i < |c|
      ensures LastTouch(t + [e.key], c[i].key) == if i < |r| then LastTouch(t, r[i].key) else |t|
    {
      LastTouchOfAppend(t, e.key, c[i].key);
    }
  }

  lemma TrimKeepsOrder(c: seq<Entry>, max: nat, t: seq<string>)
    requires InTouchOrder(c, t) && Distinct(c)
    ensures InTouchOrder(Trim(c, max), t) && Distinct(Trim(c, max)) && |Trim(c, max)| <= max
  {
    if |c| > max {
      var gone := |c| - max;
      assert forall i :: 0 <= i < max ==> c[gone..][i] == c[i + gone];
    }
  }

  lemma ApplyKeepsOrder(c: seq<Entry>, op: Op, max: nat, t: seq<string>)
    requires Distinct(c) && InTouchOrder(c, t) && |c| <= max
    ensures var c' := Apply(c, op, max);
            Distinct(c') && InTouchOrder(c', t + Touches(c, op)) && |c'| <= max
  {
    hide InTouchOrder, Distinct, Keys, Touch, Remove, Find;
    match op
    case PutOp(k, id) =>
      TouchKeepsOrder(c, k, id, t);
      TouchMeans(c, k, id);
      TrimKeepsOrder(Touch(c, k, id), max, t + [k]);
    case InvalidateOp(k) =>
      RemoveKeepsOrder(c, k, t);
      RemoveMeans(c, k);
      assert t + [] == t;
    case GetOp(k, now) =>
      assert t + [] == t;
      RemoveKeepsOrder(c, k, t);
      RemoveMeans(c, k);
      FindMeans(c, k);
      if Find(c, k).Some? {
        TouchKeepsOrder(c, k, Find(c, k).value, t);
        TouchMeans(c, k, Find(c, k).value);
      }
  }

  /** The cache always lists its entries from least to most recently touched, within its bound. */
  lemma {:induction false} CacheIsInTouchOrder(c: seq<Entry>, ops: seq<Op>, max: nat, t: seq<string>)
    requires Distinct(c) && InTouchOrder(c, t) && |c| <= max
    ensures var c' := ApplyAll(c, ops, max);
            Distinct(c') && InTouchOrder(c', t + TouchLog(c, ops, max)) && |c'| <= max
    decreases |ops|
  {
    hide InTouchOrder, Distinct, Touches, Apply;
    if ops == [] {
      assert t + [] == t;
    } else {
      ApplyKeepsOrder(c, ops[0], max, t);
      var c1 := Apply(c, ops[0], max);
      CacheIsInTouchOrder(c1, ops[1..], max, t + Touches(c, ops[0]));
      assert t + Touches(c, ops[0]) + TouchLog(c1, ops[1..], max) == t + TouchLog(c, ops, max);
    }
  }

  /** The keys touched after the last touch of `v`. */
  function OthersSince(t: seq<string>, v: string): set<string> {
    set i | LastTouch(t, v) < i < |t| :: t[i]
  }

  lemma {:induction false} KeysAreAsMany(c: seq<Entry>)
    requires Distinct(c)
    ensures |Keys(c)| == |c|
  {
    if c != [] {
      FirstIsAlone(c);
      KeysAreAsMany(c[1..]);
    }
  }

  lemma RestIsNewer(c: seq<Entry>, t: seq<string>)
    requires c != [] && InTouchOrder(c, t)
    ensures Keys(c[1..]) <= OthersSince(t, c[0].key) && c[0].key !in OthersSince(t, c[0].key)
  {
    forall x | x in Keys(c[1..]) ensures x in OthersSince(t, c[0].key) {
      var e :| e in c[1..] && e.key == x;
      var i :| 0 <= i < |c[1..]| && c[1..][i] == e;
      assert c[i + 1] == e && LastTouch(t, c[0].key) < LastTouch(t, c[i + 1].key);
      assert t[LastTouch(t, x)] == x;
    }
  }

  /** An entry leaves by capacity only when at least `max` distinct other keys were touched after it. */
  lemma EvictedIsLeastRecent(c: seq<Entry>, k: string, id: Identity, max: nat, t: seq<string>, v: string)
    requires Distinct(c) && InTouchOrder(c, t) && |c| <= max
    requires v in Keys(Touch(c, k, id)) && v !in Keys(Put(c, k, id, max))
    ensures |OthersSince(t + [k], v)| >= max && v !in OthersSince(t + [k], v)
  {
    TouchKeepsOrder(c, k, id, t);
    TouchMeans(c, k, id);
    var c1 := Touch(c, k, id);
    assert |c1| == max + 1;
    FirstIsAlone(c1);
    assert Put(c, k, id, max) == c1[1..];
    RestIsNewer(c1, t + [k]);
    KeysAreAsMany(c1[1..]);
    SubsetIsNoLarger(Keys(c1[1..]), OthersSince(t + [k], v));
  }

  /** The same after any run from an empty cache: whatever a put then pushes out, at least `max` distinct other keys
      were touched in the run since its own last touch. */
  lemma EvictedInAnyRun(ops: seq<Op>, k: string, id: Identity, max: nat, v: string)
    requires var c := ApplyAll([], ops, max);
             v in Keys(c) + {k} && v !in Keys(Put(c, k, id, max))
    ensures var t := TouchLog([], ops, max) + [k];
            |OthersSince(t, v)| >= max && v !in OthersSince(t, v)
  {
    var c, t := ApplyAll([], ops, max), TouchLog([], ops, max);
    CacheIsInTouchOrder([], ops, max, []);
    assert [] + t == t;
    TouchMeans(c, k, id);
    EvictedIsLeastRecent(c, k, id, max, t, v);
  }

  // ------------------------------------------------------------------ get_sm_identity

  /** What happened to a fingerprint, in order. */
  datatype Note =
    | Exchanged(key: string, id: Identity)
    | Answered(key: string, id: Identity)
    | Expired(key: string)
    | Dropped(key: string)
    | Evicted(key: string)

  datatype Session = Session(cache: seq<Entry>, notes: seq<Note>)

  /** One `get_sm_identity` (its exchange gives an identity or raises), or one invalidation. */
  datatype Event = Ask(key: string, now: real, exchange: Option<Identity>) | Drop(key: string)

  function Victims(c: seq<Entry>, max: nat): seq<Note> {
    if |c| > max then [Evicted(c[0].key)] + Victims(c[1..], max) else []
  }

  function Step(s: Session, e: Event, max: nat): (Session, Option<Identity>) {
    match e
    case Drop(k) => (Session(Remove(s.cache, k), s.notes + [Dropped(k)]), None)
    case Ask(k, now, exchange) =>
      var (c, hit) := Get(s.cache, k, now);
      if hit.Some? then (Session(c, s.notes + [Answered(k, hit.value)]), hit)
      else
        var notes := if Find(s.cache, k).Some? then s.notes + [Expired(k)] else s.notes;
        if exchange.None? then (Session(c, notes), None)
        else (Session(Put(c, k, exchange.value, max),
                      notes + [Exchanged(k, exchange.value)] + Victims(Touch(c, k, exchange.value), max)), exchange)
  }

  function Run(s: Session, es: seq<Event>, max: nat): Session
    decreases |es|
  {
    if es == [] then s else Run(Step(s, es[0], max).0, es[1..], max)
  }

  predicate Removes(n: Note, k: string) {
    n.key == k && (n.Expired? || n.Dropped? || n.Evicted?)
  }

  /** The last exchange of a fingerprint, unless something removed it since. */
  function Standing(notes: seq<Note>, k: string): Option<Identity> {
    if notes == [] then None
    else
      var n := notes[|notes| - 1];
      if n.Exchanged? && n.key == k then Some(n.id)
      else if Removes(n, k) then None
      else Standing(notes[..|notes| - 1], k)
  }

  function LatestExchange(notes: seq<Note>, k: string): Option<Identity> {
    if notes == [] then None
    else
      var n := notes[|notes| - 1];
      if n.Exchanged? && n.key == k then Some(n.id) else LatestExchange(notes[..|notes| - 1], k)
  }

  /** A fingerprint is exchanged only while no earlier exchange stands. */
  predicate Separated(notes: seq<Note>) {
    forall j :: 0 <= j < |notes| && notes[j].Exchanged? ==> Standing(notes[..j], notes[j].key).None?
  }

  ghost predicate Inv(s: Session, max: nat) {
    && Distinct(s.cache) && |s.cache| <= max
    && (forall k :: Standing(s.notes, k) == Find(s.cache, k))
    && Separated(s.notes)
  }

  lemma StandingOfAppend(notes: seq<Note>, n: Note, k: string)
    ensures Standing(notes + [n], k) ==
            if n.Exchanged? && n.key == k then Some(n.id) else if Removes(n, k) then None else Standing(notes, k)
  {
    assert (notes + [n])[..|notes|] == notes;
  }

  lemma SeparatedAppend(notes: seq<Note>, n: Note)
    requires Separated(notes) && (n.Exchanged? ==> Standing(notes, n.key).None?)
    ensures Separated(notes + [n])
  {
    var m := notes + [n];
    forall j | 0 <= j < |m| && m[j].Exchanged? ensures Standing(m[..j], m[j].key).None? {
      if j < |notes| { assert m[..j] == notes[..j]; } else { assert m[..j] == notes; }
    }
  }

  lemma FindAfterRemove(c: seq<Entry>, k: string, x: string)
    requires Distinct(c)
    ensures Find(Remove(c, k), x) == if x == k then None else Find(c, x)
  {
    if c != [] { FirstIsAlone(c); FindAfterRemove(c[1..], k, x); }
  }

  lemma {:induction false} FindAfterTouch(c: seq<Entry>, k: string, id: Identity, x: string)
    requires Distinct(c)
    ensures Find(Touch(c, k, id), x) == if x == k then Some(id) else Find(c, x)
  {
    FindAfterRemove(c, k, x);
    FindInAppend(Remove(c, k), Entry(k, id), x);
  }

  lemma {:induction false} FindInAppend(c: seq<Entry>, e: Entry, x: string)
    ensures Find(c + [e], x) == if Find(c, x).Some? then Find(c, x) else if e.key == x then Some(e.id) else None
  {
    if c != [] {
      assert (c + [e])[1..] == c[1..] + [e];
      FindInAppend(c[1..], e, x);
    }
  }

  /** Appending one note and changing one key of the cache accordingly keeps the invariant. */
  lemma NoteKeepsInv(s: Session, max: nat, n: Note, c: seq<Entry>)
    requires Inv(s, max) && Distinct(c)
    requires n.Exchanged? ==> Find(s.cache, n.key).None?
    requires forall x :: Find(c, x) ==
                         if n.Exchanged? && n.key == x then Some(n.id)
                         else if Removes(n, x) then None else Find(s.cache, x)
    ensures Inv(Session(c, s.notes + [n]), |c|)
  {
    SeparatedAppend(s.notes, n);
    forall x ensures Standing(s.notes + [n], x) == Find(c, x) {
      StandingOfAppend(s.notes, n, x);
    }
  }

  lemma InvIsDistinct(s: Session, max: nat)
    requires Inv(s, max)
    ensures Distinct(s.cache)
  {
  }

  lemma {:induction false} VictimsKeepInv(c: seq<Entry>, notes: seq<Note>, max: nat)
    requires Inv(Session(c, notes), |c|)
    ensures Inv(Session(Trim(c, max), notes + Victims(c, max)), max)
    decreases |c|
  {
    hide Distinct, Keys, Standing, Separated;
    if |c| > max {
      InvIsDistinct(Session(c, notes), |c|);
      FirstIsAlone(c);
      DropFirstIsRemove(c);
      forall x ensures Find(c[1..], x) == if x == c[0].key then None else Find(c, x) {
        FindAfterRemove(c, c[0].key, x);
      }
      NoteKeepsInv(Session(c, notes), |c|, Evicted(c[0].key), c[1..]);
      VictimsKeepInv(c[1..], notes + [Evicted(c[0].key)], max);
      assert notes + [Evicted(c[0].key)] + Victims(c[1..], max) == notes + Victims(c, max);
    } else {
      assert notes + [] == notes;
    }
  }

  lemma StepKeepsInv(s: Session, e: Event, max: nat)
    requires Inv(s, max)
    ensures Inv(Step(s, e, max).0, max)
  {
    var k := e.key;
    forall x ensures Find(Remove(s.cache, k), x) == if x == k then None else Find(s.cache, x) {
      FindAfterRemove(s.cache, k, x);
    }
    RemoveMeans(s.cache, k);
    match e
    case Drop(_) => NoteKeepsInv(s, max, Dropped(k), Remove(s.cache, k));
    case Ask(_, now, exchange) => AskKeepsInv(s, k, now, exchange, max);
  }

  lemma AskKeepsInv(s: Session, k: string, now: real, exchange: Option<Identity>, max: nat)
    requires Inv(s, max)
    ensures Inv(Step(s, Ask(k, now, exchange), max).0, max)
  {
    var (c, hit) := Get(s.cache, k, now);
    RemoveMeans(s.cache, k);
    forall x ensures Find(Remove(s.cache, k), x) == if x == k then None else Find(s.cache, x) {
      FindAfterRemove(s.cache, k, x);
    }
    if hit.Some? {
      TouchMeans(s.cache, k, hit.value);
      FindMeans(s.cache, k);
      forall x ensures Find(c, x) == Find(s.cache, x) {
        FindAfterTouch(s.cache, k, hit.value, x);
      }
      NoteKeepsInv(s, max, Answered(k, hit.value), c);
    } else {
      var notes := if Find(s.cache, k).Some? then s.notes + [Expired(k)] else s.notes;
      if Find(s.cache, k).Some? { NoteKeepsInv(s, max, Expired(k), c); }
      if exchange.Some? { ExchangeKeepsInv(Session(c, notes), k, exchange.value, max); }
    }
  }

  lemma ExchangeKeepsInv(s: Session, k: string, id: Identity, max: nat)
    requires Inv(s, max) && Find(s.cache, k).None?
    ensures var notes := s.notes + [Exchanged(k, id)] + Victims(Touch(s.cache, k, id), max);
            Inv(Session(Put(s.cache, k, id, max), notes), max)
  {
    var c := Touch(s.cache, k, id);
    TouchMeans(s.cache, k, id);
    forall x ensures Find(c, x) == if x == k then Some(id) else Find(s.cache, x) {
      FindAfterTouch(s.cache, k, id, x);
    }
    NoteKeepsInv(s, max, Exchanged(k, id), c);
    VictimsKeepInv(c, s.notes + [Exchanged(k, id)], max);
  }

  lemma {:induction false} RunKeepsInv(s: Session, es: seq<Event>, max: nat)
    requires Inv(s, max)
    ensures Inv(Run(s, es, max), max)
    decreases |es|
  {
    if es != [] {
      StepKeepsInv(s, es[0], max);
      RunKeepsInv(Step(s, es[0], max).0, es[1..], max);
    }
  }

  lemma {:induction false} StandingIsLatest(notes: seq<Note>, k: string)
    ensures Standing(notes, k).Some? ==> LatestExchange(notes, k) == Standing(notes, k)
  {
    if notes != [] { StandingIsLatest(notes[..|notes| - 1], k); }
  }

  /** After any run, an answer given without an exchange is the latest exchange for that fingerprint
      and is more than 60 seconds from expiry. */
  lemma CachedAnswerIsLatestExchange(es: seq<Event>, max: nat, k: string, now: real)
    ensures var s := Run(Session([], []), es, max);
            var answer := Step(s, Ask(k, now, None), max).1;
            answer.Some? ==> answer == LatestExchange(s.notes, k) && now < answer.value.expires - 60.0
  {
    RunKeepsInv(Session([], []), es, max);
    var s := Run(Session([], []), es, max);
    assert Standing(s.notes, k) == Find(s.cache, k);
    StandingIsLatest(s.notes, k);
  }

  lemma LatestOfAppend(notes: seq<Note>, n: Note, k: string)
    ensures LatestExchange(notes + [n], k) ==
            if n.Exchanged? && n.key == k then Some(n.id) else LatestExchange(notes, k)
  {
    assert (notes + [n])[..|notes|] == notes;
  }

  lemma {:induction false} LatestAfterVictims(notes: seq<Note>, c: seq<Entry>, max: nat, k: string)
    ensures LatestExchange(notes + Victims(c, max), k) == LatestExchange(notes, k)
    decreases |c|
  {
    hide LatestExchange;
    if |c| > max {
      var e, rest := Evicted(c[0].key), Victims(c[1..], max);
      assert notes + ([e] + rest) == (notes + [e]) + rest;
      LatestOfAppend(notes, e, k);
      LatestAfterVictims(notes + [e], c[1..], max, k);
    } else {
      assert notes + [] == notes;
    }
  }

  /** The last exchange for the fingerprint still stands and is more than 60 seconds from expiry. */
  predicate Live(notes: seq<Note>, k: string, now: real) {
    var id := Standing(notes, k);
    id.Some? && now < id.value.expires - 60.0
  }

  /** In any run: an ask is answered without an exchange exactly when a live one stands, and then by it. Otherwise it
      is answered by its own exchange, which is noted, and by nothing when that fails. */
  lemma AskIsAnsweredBy(es: seq<Event>, max: nat, k: string, now: real, exchange: Option<Identity>)
    ensures var s := Run(Session([], []), es, max);
            var (s', answer) := Step(s, Ask(k, now, exchange), max);
            if Live(s.notes, k, now) then
              answer == Standing(s.notes, k) && s'.notes == s.notes + [Answered(k, answer.value)]
            else
              && answer == exchange
              && (exchange.Some? ==> Exchanged(k, exchange.value) in s'.notes)
              && (exchange.None? ==> LatestExchange(s'.notes, k) == LatestExchange(s.notes, k))
  {
    RunKeepsInv(Session([], []), es, max);
    var s := Run(Session([], []), es, max);
    assert Standing(s.notes, k) == Find(s.cache, k);
    if Find(s.cache, k).Some? { LatestOfAppend(s.notes, Expired(k), k); }
  }

  /** In any run: an ask whose exchange would succeed always gets an identity, the latest exchanged for its fingerprint
      once the ask is over. */
  lemma AskGetsTheLatestExchange(es: seq<Event>, max: nat, k: string, now: real, id: Identity)
    ensures var (s', answer) := Step(Run(Session([], []), es, max), Ask(k, now, Some(id)), max);
            answer.Some? && answer == LatestExchange(s'.notes, k)
  {
    RunKeepsInv(Session([], []), es, max);
    var s := Run(Session([], []), es, max);
    assert Standing(s.notes, k) == Find(s.cache, k);
    StandingIsLatest(s.notes, k);
    var (c, hit) := Get(s.cache, k, now);
    if hit.Some? {
      LatestOfAppend(s.notes, Answered(k, hit.value), k);
    } else {
      var notes := if Find(s.cache, k).Some? then s.notes + [Expired(k)] else s.notes;
      LatestOfAppend(notes, Exchanged(k, id), k);
      LatestAfterVictims(notes + [Exchanged(k, id)], Touch(c, k, id), max, k);
    }
  }

  lemma FindAfterPut(c: seq<Entry>, k: string, id: Identity, max: nat)
    requires Distinct(c) && max >= 1
    ensures Find(Put(c, k, id, max), k) == Some(id)
  {
    TouchMeans(c, k, id);
    var t := Touch(c, k, id);
    var kept := Trim(t, max);
    assert kept[|kept| - 1] == Entry(k, id);
    assert Distinct(kept) by {
      if |t| > max { assert forall i :: 0 <= i < |kept| ==> kept[i] == t[i + (|t| - max)]; }
    }
    FindMeans(kept, k);
    assert Entry(k, id) in kept;
  }

  /** In a cache that can hold anything, an identity just exchanged answers the next ask too, as long as that comes
      more than 60 seconds before it expires, whatever a further exchange would have given. */
  lemma FreshExchangeIsCached(es: seq<Event>, max: nat, k: string, now: real, id: Identity, later: real,
                              other: Option<Identity>)
    requires max >= 1 && later < id.expires - 60.0
    requires !Live(Run(Session([], []), es, max).notes, k, now)
    ensures var s1 := Step(Run(Session([], []), es, max), Ask(k, now, Some(id)), max).0;
            Step(s1, Ask(k, later, other), max) ==
            (Session(Step(s1, Ask(k, later, other), max).0.cache, s1.notes + [Answered(k, id)]), Some(id))
  {
    RunKeepsInv(Session([], []), es, max);
    var s := Run(Session([], []), es, max);
    assert Standing(s.notes, k) == Find(s.cache, k);
    var c := Get(s.cache, k, now).0;
    RemoveMeans(s.cache, k);
    FindAfterPut(c, k, id, max);
  }

  lemma {:induction false} NothingStandsWasRemoved(notes: seq<Note>, k: string, i: nat)
    requires i < |notes| && notes[i].Exchanged? && notes[i].key == k && Standing(notes, k).None?
    ensures exists l :: i < l < |notes| && Removes(notes[l], k)
  {
    var last := |notes| - 1;
    if !Removes(notes[last], k) {
      NothingStandsWasRemoved(notes[..last], k, i);
      var l :| i < l < last && Removes(notes[..last][l], k);
      assert Removes(notes[l], k);
    }
  }

  /** Between two exchanges for one fingerprint lies an expiry, an invalidation or a capacity eviction of it. */
  lemma ExchangesAreSeparated(es: seq<Event>, max: nat, i: nat, j: nat)
    requires var notes := Run(Session([], []), es, max).notes;
             i < j < |notes| && notes[i].Exchanged? && notes[j].Exchanged? && notes[i].key == notes[j].key
    ensures var notes := Run(Session([], []), es, max).notes;
            exists l :: i < l < j && Removes(notes[l], notes[i].key)
  {
    RunKeepsInv(Session([], []), es, max);
    var notes := Run(Session([], []), es, max).notes;
    NothingStandsWasRemoved(notes[..j], notes[j].key, i);
    var l :| i < l < j && Removes(notes[..j][l], notes[j].key);
    assert Removes(notes[l], notes[i].key);
  }

  /** `get_sm_identity` on the cache object: cached when live, else exchanged and stored. */
  method GetSmIdentity(cache: ExchangeCache, k: string, now: real, exchange: Option<Identity>, ghost notes: seq<Note>)
    returns (answer: Option<Identity>)
    modifies cache
    ensures var (s, a) := Step(Session(old(cache.entries), notes), Ask(k, now, exchange), cache.maxSize);
            cache.entries == s.cache && answer == a
    ensures answer.None? ==> exchange.None?
  {
    answer := cache.Lookup(k, now);
    if answer.None? {
      answer := exchange;
      if exchange.Some? {
        cache.Store(k, exchange.value);
      }
    }
  }
}
