/**
 * The two argument validators: `iata` (book_flight.py:33-42) and `ymdate`
 * (book_flight.py:14-30). Parsing "YYYY-MM-DD" and reading the clock are left
 * to the caller: `ymdate` is given the parsed date (None when the text does not
 * parse) and the current moment.
 */
module Validators {
  import opened Wrappers
  import opened Text

  /** The error argparse reports for a rejected argument, with the offending text. */
  datatype ArgError =
    | NotValidDate(text: string)
    | NotFutureDate(text: string)
    | NotValidIata(code: string)

  /** A calendar date, as Python's date fields. */
  datatype Date = Date(year: nat, month: nat, day: nat)

  /** A naive Python datetime. */
  datatype DateTime = DateTime(date: Date, hour: nat, minute: nat, second: nat, microsecond: nat)

  /** `iata(code)`: the upper-cased code when it has exactly three characters. */
  function Iata(code: string): (r: Result<string, ArgError>)
    ensures r.Success? <==> |code| == 3
    ensures r.Success? ==> |r.value| == 3 && forall i :: 0 <= i < 3 ==> !IsLower(r.value[i])
    ensures r.Success? ==> forall i :: 0 <= i < 3 ==> UpperChar(r.value[i]) == UpperChar(code[i])
    ensures r.Failure? ==> r.error == NotValidIata(code)
  {
    if |code| == 3 then Success(Upper(code)) else Failure(NotValidIata(code))
  }

  /** Validating an already validated code gives it back unchanged. */
  lemma IataIdempotent(code: string)
    requires Iata(code).Success?
    ensures Iata(Iata(code).value) == Iata(code)
  {
    UpperIdempotent(code);
  }

  /** Validation does not depend on the case of the letters typed. */
  lemma IataIgnoresCase(a: string, b: string)
    requires |a| == |b|
    requires forall i :: 0 <= i < |a| ==> UpperChar(a[i]) == UpperChar(b[i])
    ensures Iata(a).Success? ==> Iata(a) == Iata(b)
  {
    UpperIgnoresCase(a, b);
  }

  /** Python's comparison of equal-length tuples: lexicographic, first field first. */
  predicate LexLeq(a: seq<int>, b: seq<int>)
    requires |a| == |b|
  {
    a == [] || a[0] < b[0] || (a[0] == b[0] && LexLeq(a[1..], b[1..]))
  }

  function DayKey(d: Date): seq<int> { [d.year, d.month, d.day] }

  /** The fields a datetime comparison looks at, in the order it looks at them. */
  function Key(t: DateTime): seq<int>
  {
    DayKey(t.date) + [t.hour, t.minute, t.second, t.microsecond]
  }

  /** `strptime` gives the parsed date at midnight. */
  function Midnight(d: Date): DateTime { DateTime(d, 0, 0, 0, 0) }

  /** d falls on an earlier calendar day than e. */
  predicate DayBefore(d: Date, e: Date)
  {
    !LexLeq(DayKey(e), DayKey(d))
  }

  lemma {:induction false} LexLeqAppend(a: seq<int>, a': seq<int>, b: seq<int>, b': seq<int>)
    requires |a| == |b| && |a'| == |b'|
    ensures LexLeq(a + a', b + b') <==> (a != b && LexLeq(a, b)) || (a == b && LexLeq(a', b'))
    decreases |a|
  {
    if a != [] {
      assert (a + a')[1..] == a[1..] + a' && (b + b')[1..] == b[1..] + b';
      LexLeqAppend(a[1..], a', b[1..], b');
      assert a == [a[0]] + a[1..] && b == [b[0]] + b[1..];
    } else {
      assert a + a' == a' && b + b' == b';
    }
  }

  /** Comparing two datetimes: first the calendar day, then the time of day. */
  lemma CompareDateTimes(s: DateTime, t: DateTime)
    ensures LexLeq(Key(s), Key(t)) <==>
      DayBefore(s.date, t.date) ||
      (s.date == t.date && LexLeq([s.hour, s.minute, s.second, s.microsecond], [t.hour, t.minute, t.second, t.microsecond]))
  {
    LexLeqAppend(DayKey(s.date), [s.hour, s.minute, s.second, s.microsecond],
                 DayKey(t.date), [t.hour, t.minute, t.second, t.microsecond]);
    var a, b := DayKey(s.date), DayKey(t.date);
    if LexLeq(a, b) && LexLeq(b, a) {
      LexLeqAntisymmetric(a, b);
    }
    LexLeqTotal(a, b);
    LexLeqTotal(a, a);
    if a == b {
      assert s.date == Date(a[0], a[1], a[2]) == t.date;
    }
  }

  /** A midnight time of day is at or after a time of day with h, m, s zeroed only if its microsecond is 0. */
  lemma MidnightAtOrAfter(us: nat)
    ensures LexLeq([0, 0, 0, us], [0, 0, 0, 0]) <==> us == 0
  {
    var a: seq<int>, b: seq<int> := [0, 0, 0, us], [0, 0, 0, 0];
    assert a[1..] == [0, 0, us] && b[1..] == [0, 0, 0];
    assert a[2..] == [0, us] && b[2..] == [0, 0];
    assert a[3..] == [us] && b[3..] == [0];
    assert LexLeq(a[3..], b[3..]) <==> us == 0 by { assert a[3..][1..] == [] == b[3..][1..]; }
    assert LexLeq(a[2..], b[2..]) == LexLeq(a[3..], b[3..]) by { assert a[2..][1..] == a[3..] && b[2..][1..] == b[3..]; }
    assert LexLeq(a[1..], b[1..]) == LexLeq(a[2..], b[2..]) by { assert a[1..][1..] == a[2..] && b[1..][1..] == b[2..]; }
  }

  lemma {:induction false} LexLeqAntisymmetric(a: seq<int>, b: seq<int>)
    requires |a| == |b| && LexLeq(a, b) && LexLeq(b, a)
    ensures a == b
    decreases |a|
  {
    if a != [] {
      LexLeqAntisymmetric(a[1..], b[1..]);
      assert a == [a[0]] + a[1..] && b == [b[0]] + b[1..];
    }
  }

  lemma {:induction false} LexLeqTotal(a: seq<int>, b: seq<int>)
    requires |a| == |b|
    ensures LexLeq(a, b) || LexLeq(b, a)
    decreases |a|
  {
    if a != [] {
      LexLeqTotal(a[1..], b[1..]);
    }
  }

  /**
   * `ymdate` as written: `today` has hour, minute and second zeroed but keeps
   * its microsecond, and the parsed midnight is compared against it.
   */
  function YmDate(text: string, parsed: Option<Date>, now: DateTime): (r: Result<Date, ArgError>)
    ensures parsed.None? <==> r == Failure(NotValidDate(text))
    ensures r.Success? ==> parsed == Some(r.value)
    ensures parsed.Some? && r.Failure? ==> r.error == NotFutureDate(text)
    ensures parsed.Some? && DayBefore(parsed.value, now.date) ==> r.Failure?
  {
    match parsed
    case None => Failure(NotValidDate(text))
    case Some(d) =>
      var today := now.(hour := 0, minute := 0, second := 0);
      CompareDateTimes(today, Midnight(d));
      LexLeqTotal(DayKey(d), DayKey(now.date));
      LexLeqTotal(DayKey(d), DayKey(d));
      if LexLeq(Key(today), Key(Midnight(d))) then Success(d) else Failure(NotFutureDate(text))
  }

  /**
   * What `ymdate` as written accepts: any later calendar day, and today's date
   * only when the clock's microsecond is 0.
   */
  lemma YmDateAccepts(text: string, parsed: Option<Date>, now: DateTime)
    ensures parsed.None? <==> YmDate(text, parsed, now) == Failure(NotValidDate(text))
    ensures parsed.Some? ==>
      var r := YmDate(text, parsed, now);
      && (r.Success? <==> DayBefore(now.date, parsed.value) || (parsed.value == now.date && now.microsecond == 0))
      && (r.Success? ==> r.value == parsed.value)
      && (r.Failure? ==> r.error == NotFutureDate(text))
  {
    if parsed.Some? {
      CompareDateTimes(now.(hour := 0, minute := 0, second := 0), Midnight(parsed.value));
      MidnightAtOrAfter(now.microsecond);
    }
  }

  /** A date given on the day it is given is refused one microsecond after midnight. */
  lemma YmDateRefusesToday()
    ensures var today := Date(2026, 10, 18);
      YmDate("2026-10-18", Some(today), DateTime(today, 0, 0, 0, 1)) == Failure(NotFutureDate("2026-10-18"))
  {
    var today := Date(2026, 10, 18);
    YmDateAccepts("2026-10-18", Some(today), DateTime(today, 0, 0, 0, 1));
    assert !DayBefore(today, today) by { LexLeqTotal(DayKey(today), DayKey(today)); }
  }

  /** `ymdate` with the time of day zeroed down to the microsecond. */
  function YmDateFixed(text: string, parsed: Option<Date>, now: DateTime): (r: Result<Date, ArgError>)
    ensures parsed.None? <==> r == Failure(NotValidDate(text))
    ensures r.Success? ==> parsed == Some(r.value)
    ensures parsed.Some? && r.Failure? ==> r.error == NotFutureDate(text)
    ensures parsed.Some? && parsed.value == now.date ==> r == Success(now.date)
  {
    match parsed
    case None => Failure(NotValidDate(text))
    case Some(d) =>
      var today := now.(hour := 0, minute := 0, second := 0, microsecond := 0);
      CompareDateTimes(today, Midnight(d));
      MidnightAtOrAfter(0);
      LexLeqTotal(DayKey(d), DayKey(d));
      if LexLeq(Key(today), Key(Midnight(d))) then Success(d) else Failure(NotFutureDate(text))
  }

  /** The corrected validator accepts exactly the dates from today on, whatever the time. */
  lemma YmDateFixedAccepts(text: string, parsed: Option<Date>, now: DateTime)
    ensures parsed.None? <==> YmDateFixed(text, parsed, now) == Failure(NotValidDate(text))
    ensures parsed.Some? ==>
      var r := YmDateFixed(text, parsed, now);
      && (r.Success? <==> !DayBefore(parsed.value, now.date))
      && (r.Success? ==> r.value == parsed.value)
      && (r.Failure? ==> r.error == NotFutureDate(text))
  {
    if parsed.Some? {
      var d := parsed.value;
      CompareDateTimes(now.(hour := 0, minute := 0, second := 0, microsecond := 0), Midnight(d));
      MidnightAtOrAfter(0);
      LexLeqTotal(DayKey(d), DayKey(now.date));
      if LexLeq(DayKey(d), DayKey(now.date)) && LexLeq(DayKey(now.date), DayKey(d)) {
        LexLeqAntisymmetric(DayKey(d), DayKey(now.date));
        assert d == Date(DayKey(d)[0], DayKey(d)[1], DayKey(d)[2]) == now.date;
      }
    }
  }
}
