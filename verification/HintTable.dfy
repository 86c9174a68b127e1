/** The first-run hint: sessions already hinted, oldest first, the oldest forgotten beyond a bound. */
module HintTable {
  import opened Sets
  import opened Wrappers

  type Session = string

  const HINTED_SESSIONS_MAX := 4096

  /** The last `max` elements. */
  function Last(s: seq<Session>, max: nat): seq<Session> {
    if |s| > max then s[|s| - max..] else s
  }

  /** `_claim_first_run_hint`: the table afterwards, and whether to hint. */
  function Claim(table: seq<Session>, session: Option<Session>, max: nat): (seq<Session>, bool) {
    if session.None? || session.value in table then (table, false)
    else (Last(table + [session.value], max), true)
  }

  /** The sessions hinted by a run of calls, in order, after those of `log`. */
  function Log(log: seq<Session>, calls: seq<Option<Session>>, max: nat): seq<Session>
    decreases |calls|
  {
    if calls == [] then log
    else
      var hint := Claim(Last(log, max), calls[0], max).1;
      Log(if hint then log + [calls[0].value] else log, calls[1..], max)
  }

  function Table(table: seq<Session>, calls: seq<Option<Session>>, max: nat): seq<Session>
    decreases |calls|
  {
    if calls == [] then table else Table(Claim(table, calls[0], max).0, calls[1..], max)
  }

  /** The answer to the last of a run of calls on an empty table. */
  predicate Hinted(calls: seq<Option<Session>>, max: nat)
    requires calls != []
  {
    Claim(Table([], calls[..|calls| - 1], max), calls[|calls| - 1], max).1
  }

  // ------------------------------------------------------------------ the table is the tail of the log

  lemma LastOfAppend(log: seq<Session>, s: Session, max: nat)
    ensures Last(Last(log, max) + [s], max) == Last(log + [s], max)
  {
  }

  /** The table is always the last `max` hints given, so it never exceeds the bound. */
  lemma {:induction false} TableIsTailOfLog(log: seq<Session>, calls: seq<Option<Session>>, max: nat)
    ensures Table(Last(log, max), calls, max) == Last(Log(log, calls, max), max)
    ensures |Table(Last(log, max), calls, max)| <= max
    decreases |calls|
  {
    hide Last;
    if calls != [] {
      var (table, hint) := Claim(Last(log, max), calls[0], max);
      var log' := if hint then log + [calls[0].value] else log;
      if hint { LastOfAppend(log, calls[0].value, max); }
      TableIsTailOfLog(log', calls[1..], max);
    } else {
      LastIsShort(log, max);
    }
  }

  lemma LastIsShort(log: seq<Session>, max: nat)
    ensures |Last(log, max)| <= max
  {
  }

  /** Repeats in the log are further apart than the table is long. */
  predicate Spaced(log: seq<Session>, max: nat) {
    forall i, j :: 0 <= i < j < |log| && log[i] == log[j] ==> j - i > max
  }

  lemma SpacedStep(log: seq<Session>, s: Session, max: nat)
    requires Spaced(log, max) && s !in Last(log, max)
    ensures Spaced(log + [s], max)
  {
    forall i | 0 <= i < |log| && |log| - i <= max
      ensures log[i] != s
    {
      InLast(log, max, i);
    }
  }

  lemma InLast(log: seq<Session>, max: nat, i: nat)
    requires |log| - max <= i < |log|
    ensures log[i] in Last(log, max)
  {
    assert log[i] == Last(log, max)[if |log| > max then i - (|log| - max) else i];
  }

  lemma {:induction false} LogIsSpaced(log: seq<Session>, calls: seq<Option<Session>>, max: nat)
    requires Spaced(log, max)
    ensures Spaced(Log(log, calls, max), max)
    decreases |calls|
  {
    hide Last, Spaced;
    if calls != [] {
      var hint := Claim(Last(log, max), calls[0], max).1;
      if hint { SpacedStep(log, calls[0].value, max); }
      LogIsSpaced(if hint then log + [calls[0].value] else log, calls[1..], max);
    }
  }

  function Elements(s: seq<Session>): set<Session> {
    set x | x in s
  }

  lemma {:induction false} DistinctCount(s: seq<Session>)
    requires forall i, j :: 0 <= i < j < |s| ==> s[i] != s[j]
    ensures |Elements(s)| == |s|
  {
    if s != [] {
      DistinctCount(s[1..]);
      assert Elements(s) == {s[0]} + Elements(s[1..]);
      assert s[0] !in s[1..];
    }
  }

  /** Between two hints for one session, at least `max` distinct other sessions were hinted. */
  lemma HintedAgainOnlyAfterOthers(calls: seq<Option<Session>>, max: nat, i: nat, j: nat)
    requires i < j < |Log([], calls, max)| && Log([], calls, max)[i] == Log([], calls, max)[j]
    ensures var log := Log([], calls, max);
            |Elements(log[i + 1..j]) - {log[i]}| >= max
  {
    var log := Log([], calls, max);
    LogIsSpaced([], calls, max);
    OthersBetween(log, max, i, j);
  }

  lemma OthersBetween(log: seq<Session>, max: nat, i: nat, j: nat)
    requires Spaced(log, max) && i < j < |log| && log[i] == log[j]
    ensures |Elements(log[i + 1..j]) - {log[i]}| >= max
  {
    var window := log[j - max..j];
    forall k, l | 0 <= k < l < |window|
      ensures window[k] != window[l]
    {
      assert window[k] == log[j - max + k] && window[l] == log[j - max + l];
    }
    DistinctCount(window);
    forall x | x in window
      ensures x in log[i + 1..j] && x != log[i]
    {
      var k :| 0 <= k < |window| && window[k] == x;
      assert log[i + 1..j][j - max + k - (i + 1)] == x;
    }
    SubsetIsNoLarger(Elements(window), Elements(log[i + 1..j]) - {log[i]});
  }

  // ------------------------------------------------------------------ few sessions

  function Named(calls: seq<Option<Session>>): set<Session> {
    set c | c in calls && c.Some? :: c.value
  }

  /** The table holds each session called so far, once, while they fit. */
  ghost predicate Holds(table: seq<Session>, seen: set<Session>) {
    && (forall x :: x in table <==> x in seen)
    && forall i, j :: 0 <= i < j < |table| ==> table[i] != table[j]
  }

  lemma HoldsStep(table: seq<Session>, seen: set<Session>, session: Option<Session>, max: nat)
    requires Holds(table, seen) && |seen + Named([session])| <= max
    ensures Holds(Claim(table, session, max).0, seen + Named([session]))
    ensures Claim(table, session, max).1 <==> session.Some? && session.value !in seen
  {
    hide Named;
    NamedOfOne(session);
    if session.Some? && session.value !in table {
      var t := table + [session.value];
      HoldsAppend(table, seen, session.value);
      HoldsAsMany(t, seen + {session.value});
    } else {
      assert seen + Named([session]) == seen;
    }
  }

  lemma NamedOfOne(session: Option<Session>)
    ensures Named([session]) == if session.Some? then {session.value} else {}
  {
    assert session in [session];
  }

  lemma HoldsAppend(table: seq<Session>, seen: set<Session>, s: Session)
    requires Holds(table, seen) && s !in table
    ensures Holds(table + [s], seen + {s})
  {
  }

  lemma HoldsAsMany(table: seq<Session>, seen: set<Session>)
    requires Holds(table, seen)
    ensures |table| == |seen|
  {
    DistinctCount(table);
    assert Elements(table) == seen;
  }

  lemma {:induction false} TableHoldsNamed(table: seq<Session>, seen: set<Session>, calls: seq<Option<Session>>,
                                           max: nat)
    requires Holds(table, seen) && |seen + Named(calls)| <= max
    ensures Holds(Table(table, calls, max), seen + Named(calls))
    decreases |calls|
  {
    hide Holds, Claim;
    if calls == [] {
      assert seen + Named(calls) == seen;
    } else {
      assert calls == [calls[0]] + calls[1..];
      assert Named(calls) == Named([calls[0]]) + Named(calls[1..]) by { NamedOfConcat([calls[0]], calls[1..]); }
      var seen' := seen + Named([calls[0]]);
      assert seen + Named(calls) == seen' + Named(calls[1..]);
      SubsetIsNoLarger(seen', seen + Named(calls));
      HoldsStep(table, seen, calls[0], max);
      TableHoldsNamed(Claim(table, calls[0], max).0, seen', calls[1..], max);
    }
  }

  lemma NamedOfConcat(a: seq<Option<Session>>, b: seq<Option<Session>>)
    ensures Named(a + b) == Named(a) + Named(b)
  {
    forall x | x in Named(a + b)
      ensures x in Named(a) + Named(b)
    {
      assert Some(x) in a || Some(x) in b;
    }
    forall x | x in Named(a) + Named(b)
      ensures x in Named(a + b)
    {
      assert Some(x) in a + b;
    }
  }

  /** While no more than `max` sessions call, each is hinted on its first call and never again. */
  lemma FewSessionsAreHintedOnce(calls: seq<Option<Session>>, max: nat)
    requires calls != [] && |Named(calls)| <= max
    ensures var last := calls[|calls| - 1];
            Hinted(calls, max) <==> last.Some? && last !in calls[..|calls| - 1]
  {
    hide Holds, Claim;
    var before, last := calls[..|calls| - 1], calls[|calls| - 1];
    assert calls == before + [last];
    NamedOfConcat(before, [last]);
    EmptyHolds();
    assert {} + Named(before) == Named(before);
    SubsetIsNoLarger(Named(before), Named(calls));
    TableHoldsNamed([], {}, before, max);
    HoldsStep(Table([], before, max), Named(before), last, max);
  }

  lemma EmptyHolds()
    ensures Holds([], {})
  {
  }

  // ------------------------------------------------------------------ the middleware's table

  class Hints {
    var table: seq<Session>
    ghost var given: seq<Session>

    ghost predicate Valid()
      reads this
    {
      table == Last(given, HINTED_SESSIONS_MAX) && Spaced(given, HINTED_SESSIONS_MAX)
    }

    constructor ()
      ensures Valid() && given == []
    {
      table, given := [], [];
    }

    /** The loop that forgets the oldest. */
    method Evict()
      modifies `table
      ensures table == Last(old(table), 4096)
    {
      while |table| > HINTED_SESSIONS_MAX
        invariant |table| <= |old(table)| && table == old(table)[|old(table)| - |table|..]
        invariant |table| >= HINTED_SESSIONS_MAX || table == old(table)
      {
        table := table[1..];
      }
    }

    /** A hint exactly for a session that is not among the last 4096 hinted. */
    method ClaimFirstRunHint(session: Option<Session>) returns (hint: bool)
      requires Valid()
      modifies this
      ensures Valid() && |table| <= 4096
      ensures hint <==> session.Some? && session.value !in Last(old(given), 4096)
      ensures given == if hint then old(given) + [session.value] else old(given)
      ensures (table, hint) == Claim(old(table), session, 4096)
    {
      hide Spaced, Last;
      LastIsShort(given, HINTED_SESSIONS_MAX);
      if session.None? || session.value in table {
        return false;
      }
      SpacedStep(given, session.value, HINTED_SESSIONS_MAX);
      LastOfAppend(given, session.value, HINTED_SESSIONS_MAX);
      given := given + [session.value];
      table := table + [session.value];
      Evict();
      LastIsShort(given, HINTED_SESSIONS_MAX);
      return true;
    }
  }
}
