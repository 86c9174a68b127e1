/** `resolve_search_window`: relative or absolute bounds, printed in UTC, refused when out of order. */
module SearchWindow {
  import opened Wrappers
  import opened Calendar
  import opened IsoText

  /** What `datetime.fromisoformat` yields: local fields, and the offset from UTC in microseconds if there is one. */
  datatype Stamp = Stamp(local: DateTime, offset: Option<int>)

  /** `datetime.fromisoformat`, None where it raises. */
  type Iso = string -> Option<Stamp>

  datatype Outcome = Window(entries: map<string, string>) | Invalid(name: string) | OutOfOrder

  /** What is assumed of the ISO reader: it yields valid fields and reads printed UTC timestamps. */
  ghost predicate ReadsPrints(iso: Iso) {
    && (forall s :: iso(s).Some? ==> Valid(iso(s).value.local))
    && (forall s :: ReadPrinted(s).Some? ==> iso(s) == Some(Stamp(ReadPrinted(s).value, Some(0))))
  }

  predicate IsRelative(s: string) {
    |s| >= 2 && AllDigits(s[..|s| - 1]) && s[|s| - 1] in {'d', 'h', 'm'}
  }

  function UnitSeconds(unit: char): nat
    requires unit in {'d', 'h', 'm'}
  {
    if unit == 'd' then 86400 else if unit == 'h' then 3600 else 60
  }

  /** How long before now a relative bound is. */
  function Ago(s: string): nat
    requires IsRelative(s)
  {
    Number(s[..|s| - 1]) * UnitSeconds(s[|s| - 1]) * MICROS_A_SECOND
  }

  /** `value.replace("Z", "+00:00")`. */
  function ReplaceZ(s: string): string {
    if s == "" then "" else (if s[0] == 'Z' then "+00:00" else [s[0]]) + ReplaceZ(s[1..])
  }

  /** One bound in UTC, None where the source reports an invalid value. */
  function Bound(now: DateTime, iso: Iso, value: string, relative: bool): (r: Option<DateTime>)
    requires Valid(now) && forall s :: iso(s).Some? ==> Valid(iso(s).value.local)
    ensures r.Some? ==> Valid(r.value)
  {
    if relative && IsRelative(value) then FromInstant(Instant(now) - Ago(value))
    else
      var stamp :- iso(ReplaceZ(value));
      FromInstant(Instant(stamp.local) - stamp.offset.GetOr(0))
  }

  function Entry(name: string, bound: Option<DateTime>): map<string, string> {
    if bound.Some? then map[name := Print(bound.value)] else map[]
  }

  function Resolve(now: DateTime, iso: Iso, since: Option<string>, until: Option<string>, relative: bool): Outcome
    requires Valid(now) && forall s :: iso(s).Some? ==> Valid(iso(s).value.local)
  {
    var from := if since.Some? then Bound(now, iso, since.value, relative) else None;
    var to := if until.Some? then Bound(now, iso, until.value, relative) else None;
    if since.Some? && from.None? then Invalid("since")
    else if until.Some? && to.None? then Invalid("until")
    else if from.Some? && to.Some? && Less(Print(to.value), Print(from.value)) then OutOfOrder
    else Window(Entry("since", from) + Entry("until", to))
  }

  /** The loop over the two names. */
  method ResolveSearchWindow(now: DateTime, iso: Iso, since: Option<string>, until: Option<string>, relative: bool)
    returns (outcome: Outcome)
    requires Valid(now) && forall s :: iso(s).Some? ==> Valid(iso(s).value.local)
    ensures outcome == Resolve(now, iso, since, until, relative)
  {
    hide Bound, Print, Less, Valid;
    var names := [("since", since), ("until", until)];
    var entries: map<string, string> := map[];
    for i := 0 to 2
      invariant i >= 1 && since.Some? ==> Bound(now, iso, since.value, relative).Some?
      invariant i >= 2 && until.Some? ==> Bound(now, iso, until.value, relative).Some?
      invariant entries ==
        (if i >= 1 && since.Some? then Entry("since", Bound(now, iso, since.value, relative)) else map[]) +
        (if i >= 2 && until.Some? then Entry("until", Bound(now, iso, until.value, relative)) else map[])
    {
      var (name, value) := names[i];
      if value.Some? {
        var bound := Bound(now, iso, value.value, relative);
        if bound.None? {
          return Invalid(name);
        }
        entries := entries[name := Print(bound.value)];
      }
    }
    if "since" in entries && "until" in entries && Less(entries["until"], entries["since"]) {
      return OutOfOrder;
    }
    return Window(entries);
  }

  // ------------------------------------------------------------------ what it promises

  /** The string test refuses a window exactly when its start is the later moment. */
  lemma RefusedIffStartIsLater(now: DateTime, iso: Iso, since: string, until: string, relative: bool)
    requires Valid(now) && forall s :: iso(s).Some? ==> Valid(iso(s).value.local)
    ensures var from, to := Bound(now, iso, since, relative), Bound(now, iso, until, relative);
            Resolve(now, iso, Some(since), Some(until), relative) == OutOfOrder
            <==> from.Some? && to.Some? && Instant(from.value) > Instant(to.value)
  {
    hide Bound, Print, Less, Instant;
    var from, to := Bound(now, iso, since, relative), Bound(now, iso, until, relative);
    if from.Some? && to.Some? {
      PrintedOrderIsTimeOrder(to.value, from.value);
    }
  }

  /** A relative bound is exactly its count of days, hours or minutes before now, and is refused exactly when
      that is before year 1. */
  lemma RelativeBoundIsThatLongAgo(now: DateTime, iso: Iso, value: string)
    requires Valid(now) && IsRelative(value) && forall s :: iso(s).Some? ==> Valid(iso(s).value.local)
    ensures var bound := Bound(now, iso, value, true);
            && (bound.Some? <==> Instant(now) - Ago(value) >= FIRST_INSTANT)
            && (bound.Some? ==> Instant(now) - Instant(bound.value) == Ago(value))
  {
    hide Instant, Ago, FromInstant;
    InstantInRange(now);
  }

  lemma PrintIsNotRelative(d: DateTime)
    ensures !IsRelative(Print(d))
  {
    hide Pad, ClockText, Offset;
    assert Print(d)[4] == '-';
    assert Print(d)[..|Print(d)| - 1][4] == '-';
  }

  lemma {:induction false} DigitsHoldNoZ(n: nat, w: nat)
    ensures forall i :: 0 <= i < w ==> Pad(n, w)[i] != 'Z'
    decreases w
  {
    if w > 0 { DigitsHoldNoZ(n / 10, w - 1); }
  }

  lemma {:induction false} NothingToReplace(s: string)
    requires forall i :: 0 <= i < |s| ==> s[i] != 'Z'
    ensures ReplaceZ(s) == s
  {
    if s != "" { NothingToReplace(s[1..]); }
  }

  lemma PrintHoldsNoZ(d: DateTime)
    ensures forall i :: 0 <= i < |Print(d)| ==> Print(d)[i] != 'Z'
  {
    hide Pad;
    DigitsHoldNoZ(d.year, 4);
    DigitsHoldNoZ(d.month, 2);
    DigitsHoldNoZ(d.day, 2);
    DigitsHoldNoZ(d.hour, 2);
    DigitsHoldNoZ(d.minute, 2);
    DigitsHoldNoZ(d.second, 2);
    DigitsHoldNoZ(d.us, 6);
  }

  /** A printed bound, fed back, is the same moment whatever now is. */
  lemma PrintedBoundIsFixed(now: DateTime, iso: Iso, d: DateTime, relative: bool)
    requires Valid(now) && Valid(d) && ReadsPrints(iso)
    ensures Bound(now, iso, Print(d), relative) == Some(d)
  {
    hide Print, Instant, FromInstant, IsRelative, ReplaceZ, ReadPrinted, Valid;
    PrintIsNotRelative(d);
    PrintHoldsNoZ(d);
    NothingToReplace(Print(d));
    ReadPrintedOfPrint(d);
    FromInstantOfInstant(d);
  }

  function Get(m: map<string, string>, key: string): Option<string> {
    if key in m then Some(m[key]) else None
  }

  /** Feeding an echoed window back, at any later time, gives the same window. */
  lemma EchoedWindowIsFixed(now: DateTime, later: DateTime, iso: Iso, since: Option<string>, until: Option<string>,
                            relative: bool, again: bool)
    requires Valid(now) && Valid(later) && ReadsPrints(iso)
    ensures var outcome := Resolve(now, iso, since, until, relative);
            outcome.Window? ==>
              Resolve(later, iso, Get(outcome.entries, "since"), Get(outcome.entries, "until"), again) == outcome
  {
    hide Bound, Print, Less;
    if since.Some? && Bound(now, iso, since.value, relative).Some? {
      PrintedBoundIsFixed(later, iso, Bound(now, iso, since.value, relative).value, again);
    }
    if until.Some? && Bound(now, iso, until.value, relative).Some? {
      PrintedBoundIsFixed(later, iso, Bound(now, iso, until.value, relative).value, again);
    }
  }

  /** The reader assumed by the echo exists: the printed form alone is one. */
  lemma PrintedReaderReadsPrints()
    ensures ReadsPrints(s => if ReadPrinted(s).Some? then Some(Stamp(ReadPrinted(s).value, Some(0))) else None)
  {
  }

  // ------------------------------------------------------------------ the spellings of a bound

  /** A number and one of the three units. */
  ghost predicate Spans(value: string, digits: string, unit: char) {
    value == digits + [unit] && digits != "" && AllDigits(digits) && (unit == 'd' || unit == 'h' || unit == 'm')
  }

  lemma SpansIff(value: string)
    ensures IsRelative(value) <==> exists digits: string, unit: char :: Spans(value, digits, unit)
  {
    if IsRelative(value) {
      assert Spans(value, value[..|value| - 1], value[|value| - 1]);
    }
    if digits: string, unit: char :| Spans(value, digits, unit) {
      assert value[..|value| - 1] == digits;
    }
  }

  /** `7d`, `24h` and `30m`: so many days, hours or minutes before now, where relative bounds are taken. */
  lemma UnitsAreDaysHoursMinutes(now: DateTime, iso: Iso, value: string, digits: string, unit: char)
    requires Valid(now) && Spans(value, digits, unit) && forall s :: iso(s).Some? ==> Valid(iso(s).value.local)
    ensures var bound := Bound(now, iso, value, true);
            var earlier := Number(digits) *
              (if unit == 'd' then 86_400_000_000 else if unit == 'h' then 3_600_000_000 else 60_000_000);
            && (bound.Some? ==> Instant(bound.value) + earlier == Instant(now))
            && (bound.None? <==> Instant(now) - earlier < 86_400_000_000)
  {
    hide Instant, FromInstant;
    SpansIff(value);
    assert value[..|value| - 1] == digits;
    RelativeBoundIsThatLongAgo(now, iso, value);
  }

  lemma NumbersAreDecimal(digits: string, c: char)
    requires AllDigits(digits) && '0' <= c <= '9'
    ensures AllDigits(digits + [c]) && Number("") == 0
    ensures Number(digits + [c]) == 10 * Number(digits) + (c as int - '0' as int)
  {
    assert (digits + [c])[..|digits|] == digits;
  }

  /** Any other text, and every text where relative bounds are not taken, is left to the ISO reader, each `Z` standing
      for `+00:00`: a moment so far ahead of UTC as its offset says, and at UTC without one. */
  lemma OtherBoundsAreIso(now: DateTime, iso: Iso, value: string, relative: bool, spelt: string)
    requires Valid(now) && forall s :: iso(s).Some? ==> Valid(iso(s).value.local)
    requires !relative || forall digits: string, unit: char :: !Spans(value, digits, unit)
    requires Zulu(value, spelt)
    ensures var bound := Bound(now, iso, value, relative);
            && (iso(spelt).None? ==> bound.None?)
            && (iso(spelt).Some? && bound.Some? ==>
                  Instant(bound.value) + iso(spelt).value.offset.GetOr(0) == Instant(iso(spelt).value.local))
            && (iso(spelt).Some? && bound.None? ==>
                  !(86_400_000_000 <= Instant(iso(spelt).value.local) - iso(spelt).value.offset.GetOr(0)
                    < 3_652_060 * 86_400_000_000))
  {
    hide Instant, FromInstant, IsRelative;
    SpansIff(value);
    ZuluIsReplaced(value, spelt);
  }

  /** `spelt` is `value` with each `Z` written out. */
  predicate Zulu(value: string, spelt: string)
    decreases |value|
  {
    if value == "" then spelt == ""
    else if value[0] == 'Z' then "+00:00" <= spelt && Zulu(value[1..], spelt[6..])
    else spelt != "" && spelt[0] == value[0] && Zulu(value[1..], spelt[1..])
  }

  lemma {:induction false} ZuluIsReplaced(value: string, spelt: string)
    requires Zulu(value, spelt)
    ensures ReplaceZ(value) == spelt
    decreases |value|
  {
    if value != "" {
      var n := if value[0] == 'Z' then 6 else 1;
      assert spelt == spelt[..n] + spelt[n..];
      ZuluIsReplaced(value[1..], spelt[n..]);
    }
  }

  /** Two texts for one moment, in whatever zones, are one bound. */
  lemma OneMomentOneBound(now: DateTime, iso: Iso, x: string, y: string)
    requires Valid(now) && forall s :: iso(s).Some? ==> Valid(iso(s).value.local)
    requires 'Z' !in x && 'Z' !in y && iso(x).Some? && iso(y).Some?
    ensures var (p, q) := (iso(x).value, iso(y).value);
            Instant(p.local) - Instant(q.local) == p.offset.GetOr(0) - q.offset.GetOr(0) ==>
              Bound(now, iso, x, false) == Bound(now, iso, y, false)
  {
    hide Instant, FromInstant;
    NothingToReplace(x);
    NothingToReplace(y);
  }

  /** Every outcome: the first bound that cannot be read is the one complained of; else a window names exactly the
      bounds given, each by the printed form of its moment. */
  lemma WindowNamesTheGivenBounds(now: DateTime, iso: Iso, since: Option<string>, until: Option<string>, relative: bool)
    requires Valid(now) && forall s :: iso(s).Some? ==> Valid(iso(s).value.local)
    ensures var outcome := Resolve(now, iso, since, until, relative);
            var lost := since.Some? && Bound(now, iso, since.value, relative).None?;
            && (outcome == Invalid("since") <==> lost)
            && (outcome == Invalid("until") <==>
                  !lost && until.Some? && Bound(now, iso, until.value, relative).None?)
            && (outcome.Invalid? ==> outcome.name == "since" || outcome.name == "until")
            && (outcome.Window? ==>
                  && ("since" in outcome.entries <==> since.Some?) && ("until" in outcome.entries <==> until.Some?)
                  && (forall name :: name in outcome.entries ==> name == "since" || name == "until")
                  && (since.Some? ==>
                        ReadPrinted(outcome.entries["since"]) == Bound(now, iso, since.value, relative))
                  && (until.Some? ==>
                        ReadPrinted(outcome.entries["until"]) == Bound(now, iso, until.value, relative)))
  {
    hide Bound, Print, Less, ReadPrinted, Valid;
    if since.Some? && Bound(now, iso, since.value, relative).Some? {
      ReadPrintedOfPrint(Bound(now, iso, since.value, relative).value);
    }
    if until.Some? && Bound(now, iso, until.value, relative).Some? {
      ReadPrintedOfPrint(Bound(now, iso, until.value, relative).value);
    }
  }
}
