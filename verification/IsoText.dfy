/** The text of a UTC timestamp as `datetime.isoformat()` prints it, and Python's order on strings. */
module IsoText {
  import opened Wrappers
  import opened Calendar

  /** Python's `<` on strings: by code point, a proper prefix first. */
  predicate Less(a: string, b: string) {
    b != "" && (a == "" || a[0] < b[0] || (a[0] == b[0] && Less(a[1..], b[1..])))
  }

  function Pow10(w: nat): (p: nat)
    ensures p >= 1
  {
    if w == 0 then 1 else 10 * Pow10(w - 1)
  }

  function Digit(n: nat): char
    requires n < 10
  {
    '0' + n as char
  }

  /** `n` in decimal, padded to `w` digits. */
  function Pad(n: nat, w: nat): (s: string)
    ensures |s| == w
  {
    if w == 0 then "" else Pad(n / 10, w - 1) + [Digit(n % 10)]
  }

  function Offset(us: nat): string {
    (if us == 0 then "" else "." + Pad(us, 6)) + "+00:00"
  }

  function ClockText(d: DateTime): string {
    Pad(d.hour, 2) + (":" + (Pad(d.minute, 2) + (":" + (Pad(d.second, 2) + Offset(d.us)))))
  }

  /** `isoformat()` of a UTC timestamp: no fraction when there are no microseconds, else six digits. */
  function Print(d: DateTime): string {
    Pad(d.year, 4) + ("-" + (Pad(d.month, 2) + ("-" + (Pad(d.day, 2) + ("T" + ClockText(d))))))
  }

  // ------------------------------------------------------------------ order

  lemma LessAfterSame(c: char, x: string, y: string)
    ensures Less([c] + x, [c] + y) <==> Less(x, y)
  {
    assert ([c] + x)[1..] == x && ([c] + y)[1..] == y;
  }

  lemma LessAfterDigits(n: nat, m: nat, x: string, y: string)
    requires n < 10 && m < 10
    ensures Less([Digit(n)] + x, [Digit(m)] + y) <==> n < m || (n == m && Less(x, y))
  {
    assert ([Digit(n)] + x)[1..] == x && ([Digit(m)] + y)[1..] == y;
  }

  /** Two equally padded numbers compare as numbers, the rest decides a tie. */
  lemma {:induction false} LessAfterNumbers(n: nat, m: nat, w: nat, x: string, y: string)
    requires n < Pow10(w) && m < Pow10(w)
    ensures Less(Pad(n, w) + x, Pad(m, w) + y) <==> n < m || (n == m && Less(x, y))
    decreases w
  {
    hide Less, Digit;
    if w == 0 {
      assert Pad(n, w) + x == x && Pad(m, w) + y == y;
    } else {
      var x', y' := [Digit(n % 10)] + x, [Digit(m % 10)] + y;
      assert Pad(n, w) + x == Pad(n / 10, w - 1) + x';
      assert Pad(m, w) + y == Pad(m / 10, w - 1) + y';
      LessAfterNumbers(n / 10, m / 10, w - 1, x', y');
      LessAfterDigits(n % 10, m % 10, x, y);
    }
  }

  /** No fraction sorts before any fraction, because '+' sorts before '.'. */
  lemma LessOffsets(u: nat, v: nat)
    requires u < MICROS_A_SECOND && v < MICROS_A_SECOND
    ensures Less(Offset(u), Offset(v)) <==> u < v
  {
    hide Pad;
    assert Pow10(6) == 1_000_000;
    if u != 0 && v != 0 {
      assert Offset(u) == ['.'] + (Pad(u, 6) + "+00:00") && Offset(v) == ['.'] + (Pad(v, 6) + "+00:00");
      LessAfterSame('.', Pad(u, 6) + "+00:00", Pad(v, 6) + "+00:00");
      LessAfterNumbers(u, v, 6, "+00:00", "+00:00");
      NotLessItself("+00:00");
    } else if u == 0 && v == 0 {
      NotLessItself(Offset(0));
    } else {
      assert Offset(0)[0] == '+';
      assert Offset(if u == 0 then v else u)[0] == '.';
    }
  }

  lemma {:induction false} NotLessItself(s: string)
    ensures !Less(s, s)
  {
    if s != "" { NotLessItself(s[1..]); }
  }

  lemma LessClocks(x: DateTime, y: DateTime)
    requires Valid(x) && Valid(y)
    ensures Less(ClockText(x), ClockText(y)) <==> TimeBefore(x, y)
  {
    hide Less, Pad, Offset;
    assert Pow10(2) == 100;
    var s, t := Pad(x.second, 2) + Offset(x.us), Pad(y.second, 2) + Offset(y.us);
    LessOffsets(x.us, y.us);
    LessAfterNumbers(x.second, y.second, 2, Offset(x.us), Offset(y.us));
    LessAfterSame(':', s, t);
    LessAfterNumbers(x.minute, y.minute, 2, ":" + s, ":" + t);
    var s', t' := Pad(x.minute, 2) + (":" + s), Pad(y.minute, 2) + (":" + t);
    LessAfterSame(':', s', t');
    LessAfterNumbers(x.hour, y.hour, 2, ":" + s', ":" + t');
  }

  lemma LessPrints(x: DateTime, y: DateTime)
    requires Valid(x) && Valid(y)
    ensures Less(Print(x), Print(y)) <==> Before(x, y)
  {
    hide Less, Pad, ClockText, TimeBefore;
    assert Pow10(2) == 100 && Pow10(4) == 10_000;
    LessClocks(x, y);
    LessAfterSame('T', ClockText(x), ClockText(y));
    LessAfterNumbers(x.day, y.day, 2, "T" + ClockText(x), "T" + ClockText(y));
    var s, t := Pad(x.day, 2) + ("T" + ClockText(x)), Pad(y.day, 2) + ("T" + ClockText(y));
    LessAfterSame('-', s, t);
    LessAfterNumbers(x.month, y.month, 2, "-" + s, "-" + t);
    var s', t' := Pad(x.month, 2) + ("-" + s), Pad(y.month, 2) + ("-" + t);
    LessAfterSame('-', s', t');
    LessAfterNumbers(x.year, y.year, 4, "-" + s', "-" + t');
  }

  /** String order on printed timestamps is time order, though the fraction is 0 or 6 digits long. */
  lemma PrintedOrderIsTimeOrder(x: DateTime, y: DateTime)
    requires Valid(x) && Valid(y)
    ensures Less(Print(x), Print(y)) <==> Instant(x) < Instant(y)
  {
    LessPrints(x, y);
    FieldsOrderInstants(x, y);
  }

  // ------------------------------------------------------------------ reading it back

  predicate IsDigit(c: char) {
    '0' <= c <= '9'
  }

  predicate AllDigits(s: string) {
    forall i :: 0 <= i < |s| ==> IsDigit(s[i])
  }

  function Number(s: string): nat
    requires AllDigits(s)
  {
    if s == "" then 0 else 10 * Number(s[..|s| - 1]) + (s[|s| - 1] - '0') as nat
  }

  function Read(s: string, w: nat): Option<(nat, string)> {
    if |s| >= w && AllDigits(s[..w]) then Some((Number(s[..w]), s[w..])) else None
  }

  /** A mark, then a number of `w` digits. */
  function ReadAfter(mark: char, s: string, w: nat): Option<(nat, string)> {
    if s != "" && s[0] == mark then Read(s[1..], w) else None
  }

  function ReadOffset(s: string): Option<nat> {
    if s == "+00:00" then Some(0)
    else
      var us :- ReadAfter('.', s, 6);
      if us.1 == "+00:00" then Some(us.0) else None
  }

  function ReadClock(s: string): Option<(nat, nat, nat, nat)> {
    var hour :- ReadAfter('T', s, 2);
    var minute :- ReadAfter(':', hour.1, 2);
    var second :- ReadAfter(':', minute.1, 2);
    var us :- ReadOffset(second.1);
    Some((hour.0, minute.0, second.0, us))
  }

  /** The timestamp printed as `s`, if `s` is one. */
  function ReadPrinted(s: string): (r: Option<DateTime>)
    ensures r.Some? ==> Valid(r.value)
  {
    var year :- Read(s, 4);
    var month :- ReadAfter('-', year.1, 2);
    var day :- ReadAfter('-', month.1, 2);
    var clock :- ReadClock(day.1);
    var d := DateTime(year.0, month.0, day.0, clock.0, clock.1, clock.2, clock.3);
    if Valid(d) then Some(d) else None
  }

  lemma {:induction false} NumberOfPad(n: nat, w: nat)
    requires n < Pow10(w)
    ensures AllDigits(Pad(n, w)) && Number(Pad(n, w)) == n
    decreases w
  {
    if w > 0 {
      NumberOfPad(n / 10, w - 1);
      var s := Pad(n, w);
      assert s[..|s| - 1] == Pad(n / 10, w - 1) && s[|s| - 1] == Digit(n % 10);
    }
  }

  lemma ReadPadded(n: nat, w: nat, rest: string)
    requires n < Pow10(w)
    ensures Read(Pad(n, w) + rest, w) == Some((n, rest))
  {
    hide Pad;
    NumberOfPad(n, w);
    assert (Pad(n, w) + rest)[..w] == Pad(n, w) && (Pad(n, w) + rest)[w..] == rest;
  }

  lemma ReadMarked(mark: char, n: nat, w: nat, rest: string)
    requires n < Pow10(w)
    ensures ReadAfter(mark, [mark] + (Pad(n, w) + rest), w) == Some((n, rest))
  {
    hide Pad, Read;
    assert ([mark] + (Pad(n, w) + rest))[1..] == Pad(n, w) + rest;
    ReadPadded(n, w, rest);
  }

  lemma ReadOffsetOfOffset(us: nat)
    requires us < MICROS_A_SECOND
    ensures ReadOffset(Offset(us)) == Some(us)
  {
    hide Pad, ReadAfter;
    assert Pow10(6) == 1_000_000;
    if us == 0 {
      assert Offset(us) == "+00:00";
    } else {
      assert Offset(us) == ['.'] + (Pad(us, 6) + "+00:00");
      assert Offset(us)[0] == '.';
      ReadMarked('.', us, 6, "+00:00");
    }
  }

  lemma ReadClockOfClock(d: DateTime)
    requires Valid(d)
    ensures ReadClock("T" + ClockText(d)) == Some((d.hour, d.minute, d.second, d.us))
  {
    hide Pad, ReadAfter, ReadOffset, Offset;
    assert Pow10(2) == 100;
    var seconds := ":" + (Pad(d.second, 2) + Offset(d.us));
    ReadMarked('T', d.hour, 2, ":" + (Pad(d.minute, 2) + seconds));
    ReadMarked(':', d.minute, 2, seconds);
    ReadMarked(':', d.second, 2, Offset(d.us));
    ReadOffsetOfOffset(d.us);
  }

  /** A printed timestamp reads back as itself. */
  lemma ReadPrintedOfPrint(d: DateTime)
    requires Valid(d)
    ensures ReadPrinted(Print(d)) == Some(d)
  {
    hide Pad, Read, ReadAfter, ReadClock, ClockText;
    assert Pow10(2) == 100 && Pow10(4) == 10_000;
    var clock := "T" + ClockText(d);
    ReadPadded(d.year, 4, "-" + (Pad(d.month, 2) + ("-" + (Pad(d.day, 2) + clock))));
    ReadMarked('-', d.month, 2, "-" + (Pad(d.day, 2) + clock));
    ReadMarked('-', d.day, 2, clock);
    ReadClockOfClock(d);
  }
}
