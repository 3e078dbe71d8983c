/** Calendar dates as (day, month, year) triples, standing in for
    `java.util.Date` at day precision, with the `dd/MM/yyyy` and `yyyy`
    renderings `SimpleDateFormat` gives them. */
module Dates {
  import opened Outcomes
  import opened Text

  datatype Ymd = Ymd(day: int, month: int, year: int)

  /** The Gregorian leap-year rule. */
  predicate IsLeapYear(y: int)
  {
    y % 4 == 0 && (y % 100 != 0 || y % 400 == 0)
  }

  function DaysInMonth(month: int, year: int): int
  {
    if month == 2 then (if IsLeapYear(year) then 29 else 28)
    else if month == 4 || month == 6 || month == 9 || month == 11 then 30
    else 31
  }

  predicate IsValid(d: Ymd)
  {
    d.year >= 1 && 1 <= d.month <= 12 && 1 <= d.day <= DaysInMonth(d.month, d.year)
  }

  /** A date of the Common Era. */
  type Date = d: Ymd | IsValid(d) witness Ymd(1, 1, 1970)

  /** `new SimpleDateFormat("dd/MM/yyyy").format(d)`. */
  function Format(d: Date): (r: string)
    ensures forall i :: 0 <= i < |r| ==> IsDigit(r[i]) || r[i] == '/'
  {
    PadLeft(NatToString(d.day), 2) + "/" + PadLeft(NatToString(d.month), 2) + "/"
      + PadLeft(NatToString(d.year), 4)
  }

  /** `new SimpleDateFormat("dd/MM/yyyy").parse(s)`, read strictly: three
      non-empty runs of digits separated by `/` that name a real date. */
  function Parse(s: string): (r: Result<Date>)
    ensures r.Err? ==> r.error == ParseFailure
  {
    var ps := Pieces(s, '/');
    if |ps| == 3 && (forall i :: 0 <= i < 3 ==> ps[i] != [] && AllDigits(ps[i])) then
      var d := Ymd(DigitsValue(ps[0]), DigitsValue(ps[1]), DigitsValue(ps[2]));
      if IsValid(d) then Ok(d) else Err(ParseFailure)
    else Err(ParseFailure)
  }

  /** The printed date cut at its slashes: the three padded numbers. */
  lemma FormatPieces(d: Date)
    ensures Pieces(Format(d), '/')
      == [PadLeft(NatToString(d.day), 2), PadLeft(NatToString(d.month), 2), PadLeft(NatToString(d.year), 4)]
  {
    var a, b, c := PadLeft(NatToString(d.day), 2), PadLeft(NatToString(d.month), 2),
                   PadLeft(NatToString(d.year), 4);
    PadLeftValue(d.day, 2);
    PadLeftValue(d.month, 2);
    PadLeftValue(d.year, 4);
    JoinThree(a, b, c, '/');
    assert forall i :: 0 <= i < 3 ==> '/' !in [a, b, c][i] by {
      assert forall x :: x in a ==> IsDigit(x);
      assert forall x :: x in b ==> IsDigit(x);
      assert forall x :: x in c ==> IsDigit(x);
    }
    PiecesJoin([a, b, c], '/');
  }

  /** Parsing what `Format` printed gives the same date back. */
  lemma ParseFormat(d: Date)
    ensures Parse(Format(d)) == Ok(d)
  {
    FormatPieces(d);
    PadLeftValue(d.day, 2);
    PadLeftValue(d.month, 2);
    PadLeftValue(d.year, 4);
  }

  /** `new SimpleDateFormat("yyyy").parse(s)`: 1 January of the year the digits name. */
  function ParseYear(s: string): (r: Result<Date>)
    ensures r.Ok? <==> s != [] && AllDigits(s) && DigitsValue(s) >= 1
    ensures r.Ok? ==> r.value == Ymd(1, 1, DigitsValue(s))
    ensures r.Err? ==> r.error == ParseFailure
  {
    if s != [] && AllDigits(s) && DigitsValue(s) >= 1 then Ok(Ymd(1, 1, DigitsValue(s)))
    else Err(ParseFailure)
  }

  /** Zeros in front of the year do not change what `yyyy` reads: the
      year is a number, not a fixed-width field. */
  lemma ParseYearIgnoresZeros(k: nat, s: string)
    ensures ParseYear(Zeros(k) + s) == ParseYear(s)
  {
    LeadingZerosValue(k, s);
    var t := Zeros(k) + s;
    assert AllDigits(t) <==> AllDigits(s) by {
      assert forall i :: 0 <= i < |s| ==> t[k + i] == s[i];
    }
    if s == [] {
      ZerosValue(k);
    }
  }

  /** The year printed in decimal reads back as 1 January of that year. */
  lemma ParseYearOfYear(d: Date)
    ensures ParseYear(NatToString(d.year)) == Ok(Ymd(1, 1, d.year))
  {
    NatToStringValue(d.year);
  }

  /** Java's `/` on `int`, which rounds toward zero. */
  function TruncDiv(a: int, b: int): (q: int)
    requires b > 0
    ensures a >= 0 ==> q == a / b
    ensures a < 0 ==> q == -((-a) / b) && q <= 0
  {
    if a >= 0 then a / b else -((-a) / b)
  }

  /** `Period.between(start, end).getYears()`: the whole months from one
      date to the other, less one when the end's day of the month falls short
      of the start's, counted in whole years toward zero. */
  function YearsBetween(start: Date, end: Date): (years: int)
    ensures OnOrBefore(start, end) ==> years >= 0
    ensures OnOrBefore(end, start) ==> years <= 0
  {
    var totalMonths := (end.year * 12 + end.month - 1) - (start.year * 12 + start.month - 1);
    var days := end.day - start.day;
    var months :=
      if totalMonths > 0 && days < 0 then totalMonths - 1
      else if totalMonths < 0 && days > 0 then totalMonths + 1
      else totalMonths;
    TruncDiv(months, 12)
  }

  /** Day, month and year compared as a calendar does. */
  predicate OnOrBefore(d: Ymd, e: Ymd)
  {
    d.year < e.year || (d.year == e.year && (d.month < e.month || (d.month == e.month && d.day <= e.day)))
  }

  lemma DivAtLeast(a: int, k: int)
    requires a >= 0 && k >= 1
    ensures a / 12 >= k <==> a >= 12 * k
  {
  }

  /** At least `k` whole years lie between two dates exactly when the
      anniversary `k` years after the start (the same day and month) falls on
      or before the end. */
  lemma YearsAtLeast(start: Date, end: Date, k: int)
    requires k >= 1
    ensures YearsBetween(start, end) >= k <==>
      OnOrBefore(Ymd(start.day, start.month, start.year + k), end)
  {
    var totalMonths := (end.year * 12 + end.month - 1) - (start.year * 12 + start.month - 1);
    var days := end.day - start.day;
    var months :=
      if totalMonths > 0 && days < 0 then totalMonths - 1
      else if totalMonths < 0 && days > 0 then totalMonths + 1
      else totalMonths;
    var gap := (end.year - start.year - k) * 12 + (end.month - start.month);
    assert totalMonths == gap + 12 * k;
    if months >= 0 {
      DivAtLeast(months, k);
    }
  }

  /** Nobody is a whole year older than themselves: the years from a date to
      itself are none. */
  lemma YearsBetweenSame(d: Date)
    ensures YearsBetween(d, d) == 0
  {
  }
}
