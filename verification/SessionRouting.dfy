/** The header rule against the routing store: where the writes of a client land. */
module SessionRouting {
  import opened Wrappers
  import H = HeaderRule
  import opened RoutingStore

  /** A data request as the store reads its headers. */
  function Received(sent: H.Sent, write: bool, userOnly: bool): Request {
    Request(Key(sent.bearer, if sent.client.Some? then sent.client.value else ""),
            if sent.workspace.Some? then sent.workspace.value else "", write, userOnly)
  }

  /** A request to a data route: unlike the bootstrap and the hosted explain it names its client. */
  predicate DataRequest(c: H.Client, e: H.Event, x: H.Sent) {
    x in H.Next(c, e).1 && x.client.Some?
  }

  /** A hosted call without a workspace argument is routed by the pick its client saved, while that
      pick is held, whatever default the service suggests; one with an argument goes to the argument. */
  lemma HostedWritesFollowTheSavedPick(
    c: H.Client, e: H.Event, x: H.Sent, st: Store, w: string, last: real, userOnly: bool)
    requires e.HostedCall? && e.clientKey != "" && w != "" && DataRequest(c, e, x)
    requires Held(st, Key(e.token, e.clientKey), w, last) && st.now - last < 23.0 * HOUR
    requires userOnly ==> st.config.preLanded
    ensures Resolve(st, Received(x, true, userOnly)).1 ==
            if x.workspace.Some? then Answer(x.workspace.value, ByCall) else Answer(w, BySession)
    ensures x.workspace.Some? ==> x.workspace.value in e.arguments && x.workspace.value != ""
  {
    var s := H.HostedSession(e.token, e.routed, e.active, e.clientKey);
    assert s.Some? && x in H.CallsFrom(s.value, e.arguments);
    var i :| 0 <= i < |e.arguments| && x == H.Headers(s.value, e.arguments[i]);
    HeldStep(st, Ask(Received(x, true, userOnly)), Key(e.token, e.clientKey), w, last);
  }

  /** A stdio session with a pick is routed by that pick on every request, saved row or not; the store is untouched. */
  lemma StdioWritesFollowTheOwnPick(c: H.Client, me: H.AuthMe, x: H.Sent, st: Store, userOnly: bool)
    requires c.session.pick != "" && DataRequest(c, H.Call("", me), x)
    ensures Resolve(st, Received(x, true, userOnly)) == (st, Answer(c.session.pick, ByCall))
  {
  }

  // ------------------------------------------------------------------ whole runs

  /** What happens, in order: the client acts, or anything else reaches the store (time, reads, other clients). */
  datatype Act = Client(e: H.Event, write: bool, userOnly: bool) | Else(other: Event)

  /** The store events of some requests: those to data routes. */
  function Asks(sent: seq<H.Sent>, write: bool, userOnly: bool): seq<Event> {
    if sent == [] then []
    else
      (if sent[0].client.Some? then [Ask(Received(sent[0], write, userOnly))] else [])
      + Asks(sent[1..], write, userOnly)
  }

  function Reaches(c: H.Client, act: Act): seq<Event> {
    match act
    case Client(e, write, userOnly) => Asks(H.Next(c, e).1, write, userOnly)
    case Else(other) => [other]
  }

  function After(c: H.Client, act: Act): H.Client {
    if act.Client? then H.Next(c, act.e).0 else c
  }

  /** The store's whole run. */
  function Feed(c: H.Client, acts: seq<Act>): seq<Event>
    decreases |acts|
  {
    if acts == [] then [] else Reaches(c, acts[0]) + Feed(After(c, acts[0]), acts[1..])
  }

  /** An admitted hosted call of the client `k` names. */
  predicate CallOf(act: Act, k: Key) {
    && act.Client? && act.e.HostedCall? && act.e.token == k.bearer && act.e.clientKey == k.client && k.client != ""
    && H.HostedSession(act.e.token, act.e.routed, act.e.active, act.e.clientKey).Some?
  }

  function AskFor(k: Key, workspace: string, write: bool, userOnly: bool): Event {
    Ask(Request(k, workspace, write, userOnly))
  }

  /** A hosted call reaches the store as one request for each of its arguments and nothing else: the workspace of a
      request is the argument, whatever the service suggested for display. */
  lemma HostedCallReaches(c: H.Client, act: Act, k: Key)
    requires CallOf(act, k)
    ensures Reaches(c, act) ==
            seq(|act.e.arguments|, i requires 0 <= i < |act.e.arguments| =>
              AskFor(k, act.e.arguments[i], act.write, act.userOnly))
  {
    var s := H.HostedSession(act.e.token, act.e.routed, act.e.active, act.e.clientKey).value;
    var explain := [H.Sent(act.e.token, None, None)];
    assert H.Next(c, act.e).1 == explain + H.CallsFrom(s, act.e.arguments);
    assert (explain + H.CallsFrom(s, act.e.arguments))[1..] == H.CallsFrom(s, act.e.arguments);
    CallsReach(s, act.e.arguments, act.write, act.userOnly, k);
  }

  lemma {:induction false} CallsReach(s: H.Session, arguments: seq<string>, write: bool, userOnly: bool, k: Key)
    requires s.token == k.bearer && s.clientKey == k.client && s.pick == ""
    ensures Asks(H.CallsFrom(s, arguments), write, userOnly) ==
            seq(|arguments|, i requires 0 <= i < |arguments| => AskFor(k, arguments[i], write, userOnly))
    decreases |arguments|
  {
    if arguments != [] {
      assert H.CallsFrom(s, arguments)[1..] == H.CallsFrom(s, arguments[1..]);
      CallsReach(s, arguments[1..], write, userOnly, k);
    }
  }

  /** The answer to the `i`-th event of a run. */
  function AnswerAt(st: Store, es: seq<Event>, i: nat): Answer
    requires i < |es|
  {
    Next(Run(st, es[..i]), es[i]).1
  }

  /** Every write of the client, in the whole run, lands where the client means it to: in the argument, or without one
      in `w` by the session. */
  predicate AllLand(st: Store, c: H.Client, acts: seq<Act>, k: Key, w: string)
    decreases |acts|
  {
    acts == [] ||
    (&& (CallOf(acts[0], k) && acts[0].write && (acts[0].userOnly ==> st.config.preLanded) ==>
           Land(st, Reaches(c, acts[0]), acts[0].e.arguments, w))
     && AllLand(Run(st, Reaches(c, acts[0])), After(c, acts[0]), acts[1..], k, w))
  }

  predicate Land(st: Store, es: seq<Event>, arguments: seq<string>, w: string) {
    |es| == |arguments| && forall i :: 0 <= i < |es| ==>
      AnswerAt(st, es, i) == if arguments[i] == "" then Answer(w, BySession) else Answer(arguments[i], ByCall)
  }

  lemma {:induction false} RunKeepsConfig(st: Store, es: seq<Event>)
    ensures Run(st, es).config == st.config
    decreases |es|
  {
    if es != [] { RunKeepsConfig(Next(st, es[0]).0, es[1..]); }
  }

  lemma {:induction false} ReachOfConcat(st: Store, a: seq<Event>, b: seq<Event>, k: Key, w: string)
    requires AllReach(st, a + b, k, w)
    ensures AllReach(st, a, k, w) && AllReach(Run(st, a), b, k, w)
    decreases |a|
  {
    hide RoutingStore.Next;
    if a == [] {
      assert a + b == b;
    } else {
      assert (a + b)[1..] == a[1..] + b;
      ReachOfConcat(Next(st, a[0]).0, a[1..], b, k, w);
    }
  }

  lemma {:induction false} ReachedAt(st: Store, es: seq<Event>, k: Key, w: string, i: nat)
    requires AllReach(st, es, k, w) && i < |es| && SessionWrite(st, es[i], k)
    ensures AnswerAt(st, es, i) == Answer(w, BySession)
    decreases i
  {
    hide RoutingStore.Next;
    if i == 0 {
      assert es[..0] == [];
    } else {
      var st' := Next(st, es[0]).0;
      NextKeepsConfig(st, es[0]);
      ReachedAt(st', es[1..], k, w, i - 1);
      assert es[..i][1..] == es[1..][..i - 1];
    }
  }

  lemma NextKeepsConfig(st: Store, e: Event)
    ensures Next(st, e).0.config == st.config
  {
  }

  lemma CallLands(st: Store, es: seq<Event>, arguments: seq<string>, k: Key, w: string, userOnly: bool)
    requires AllReach(st, es, k, w) && (userOnly ==> st.config.preLanded)
    requires es == seq(|arguments|, i requires 0 <= i < |arguments| => AskFor(k, arguments[i], true, userOnly))
    ensures Land(st, es, arguments, w)
  {
    hide Resolve, Run;
    forall i | 0 <= i < |es|
      ensures AnswerAt(st, es, i) == if arguments[i] == "" then Answer(w, BySession) else Answer(arguments[i], ByCall)
    {
      if arguments[i] == "" {
        ReachedAt(st, es, k, w, i);
      } else {
        ArgumentLands(Run(st, es[..i]), es[i].request);
      }
    }
  }

  lemma ArgumentLands(st: Store, r: Request)
    requires r.workspace != ""
    ensures Resolve(st, r) == (st, Answer(r.workspace, ByCall))
  {
  }

  lemma {:induction false} FedRunLands(st: Store, c: H.Client, acts: seq<Act>, k: Key, w: string)
    requires AllReach(st, Feed(c, acts), k, w)
    ensures AllLand(st, c, acts, k, w)
    decreases |acts|
  {
    hide RoutingStore.Next, RoutingStore.Run, H.Next, Reaches, Land, AllReach;
    if acts != [] {
      var es := Reaches(c, acts[0]);
      ReachOfConcat(st, es, Feed(After(c, acts[0]), acts[1..]), k, w);
      if CallOf(acts[0], k) && acts[0].write && (acts[0].userOnly ==> st.config.preLanded) {
        HostedCallReaches(c, acts[0], k);
        CallLands(st, es, acts[0].e.arguments, k, w, acts[0].userOnly);
      }
      FedRunLands(Run(st, es), After(c, acts[0]), acts[1..], k, w);
    }
  }

  /** A hosted client saves a pick and then calls tools for as long as it likes, with anything else going on and
      whatever defaults the service suggests: while its argument-less writes come less than 23 hours apart, every one
      lands in the saved pick, and every write with an argument in the argument. */
  lemma HostedRunLandsInTheSavedPick(st: Store, c: H.Client, acts: seq<Act>, k: Key, w: string)
    requires Put(st, k, w).1 == 200 && k.client != "" && w != ""
    requires Forward(Feed(c, acts)) && Steady(Put(st, k, w).0, Feed(c, acts), k, st.now, 23.0 * HOUR)
    ensures AllLand(Put(st, k, w).0, c, acts, k, w)
  {
    WritesKeepThePickAlive(st, k, w, Feed(c, acts));
    FedRunLands(Put(st, k, w).0, c, acts, k, w);
  }
}
