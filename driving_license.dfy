/** Driving licences (`DrivingLicense.java`): the owner's initials, the issue
    date, a two-digit serial and whether the licence is full, obtained
    through a table that issues at most one licence per person. */
module Licences {
  import opened Outcomes
  import opened Text
  import opened Dates
  import opened Persons

  datatype DrivingLicense = DrivingLicense(
    firstComponent: string,
    secondComponent: Date,
    thirdComponent: string,
    fullLicense: bool,
    owner: Person)

  /** `processName`: the first letter of each name, upper-cased. */
  function ProcessName(p: Person): (r: string)
    requires WellFormed(p)
    ensures |r| == 2 && r == [UpperChar(p.firstName[0]), UpperChar(p.lastName[0])]
  {
    Upper(p.firstName[..1] + p.lastName[..1])
  }

  /** `generateSerial` once its two draws from 0 to 9 are made: the two
      digits side by side, which read back as the number they spell. */
  function Serial(first: int, second: int): (s: string)
    requires 0 <= first < 10 && 0 <= second < 10
    ensures |s| == 2 && AllDigits(s)
    ensures DigitsValue(s) == 10 * first + second
  {
    var s := NatToString(first) + NatToString(second);
    assert s == [DigitChar(first), DigitChar(second)];
    assert DigitsValue(s[..1]) == first by {
      assert s[..1][..0] == [];
    }
    s
  }

  predicate IsSerial(s: string)
  {
    |s| == 2 && AllDigits(s)
  }

  /** `toString`: initials, year of issue, serial and the full flag, joined
      by dashes. Beyond the initials, the text holds only dashes, digits and
      lower-case letters. */
  function ToString(l: DrivingLicense): (s: string)
    ensures IsSerial(l.thirdComponent) ==> forall i :: 0 <= i < |s| ==>
      s[i] in l.firstComponent || s[i] == '-' || IsDigit(s[i]) || 'a' <= s[i] <= 'z'
  {
    BoolToStringLetters(l.fullLicense);
    l.firstComponent + "-" + NatToString(l.secondComponent.year) + "-" + l.thirdComponent
      + "-" + BoolToString(l.fullLicense)
  }

  /** A licence as the private constructor makes one for its owner. */
  predicate IsIssuedTo(l: DrivingLicense, p: Person)
  {
    WellFormed(p) && l.owner == p && l.firstComponent == ProcessName(p) && IsSerial(l.thirdComponent)
  }

  /** Every filed licence belongs to the person it is filed under. */
  ghost predicate ValidTable(licences: map<Person, DrivingLicense>)
  {
    forall p :: p in licences ==> IsIssuedTo(licences[p], p)
  }

  /** The table after `getInstance` for a present person and date: a person
      already holding a licence keeps it, anyone else gets a new one. */
  function Issue(licences: map<Person, DrivingLicense>, p: Person, issued: Date, full: bool, serial: string)
    : (r: map<Person, DrivingLicense>)
    requires WellFormed(p) && IsSerial(serial)
    ensures r.Keys == licences.Keys + {p}
    ensures forall q :: q in licences ==> r[q] == licences[q]
    ensures p !in licences ==> r[p] == DrivingLicense(ProcessName(p), issued, serial, full, p)
  {
    if p in licences then licences
    else licences[p := DrivingLicense(ProcessName(p), issued, serial, full, p)]
  }

  /** Issuing keeps every filed licence with its owner. */
  lemma IssueKeepsValid(licences: map<Person, DrivingLicense>, p: Person, issued: Date, full: bool, serial: string)
    requires ValidTable(licences) && WellFormed(p) && IsSerial(serial)
    ensures ValidTable(Issue(licences, p, issued, full, serial))
    ensures IsIssuedTo(Issue(licences, p, issued, full, serial)[p], p)
  {
  }

  /** Asking again never changes anything: issuing is idempotent. */
  lemma IssueIdempotent(licences: map<Person, DrivingLicense>, p: Person, issued: Date, full: bool,
                        serial: string, issued': Date, full': bool, serial': string)
    requires WellFormed(p) && IsSerial(serial) && IsSerial(serial')
    ensures var once := Issue(licences, p, issued, full, serial);
      Issue(once, p, issued', full', serial') == once
  {
  }

  /** The printed licence is its four fields joined by dashes. */
  lemma ToStringIsJoin(l: DrivingLicense)
    ensures ToString(l) == Join([l.firstComponent, NatToString(l.secondComponent.year), l.thirdComponent,
                                 BoolToString(l.fullLicense)], '-')
  {
    var a, b, c, d := l.firstComponent, NatToString(l.secondComponent.year), l.thirdComponent,
                      BoolToString(l.fullLicense);
    var parts := [a, b, c, d];
    assert parts[1..] == [b, c, d] && parts[1..][1..] == [c, d] && parts[1..][1..][1..] == [d];
    assert Join([c, d], '-') == c + "-" + d;
    assert Join([b, c, d], '-') == b + "-" + (c + "-" + d);
    assert ToString(l) == a + "-" + (b + "-" + (c + "-" + d));
  }

  /** The printed licence splits on dashes into its four fields, provided
      neither initial is a dash. */
  lemma ToStringFields(l: DrivingLicense)
    requires |l.firstComponent| == 2 && '-' !in l.firstComponent && IsSerial(l.thirdComponent)
    ensures Split(ToString(l), '-')
      == [l.firstComponent, NatToString(l.secondComponent.year), l.thirdComponent, BoolToString(l.fullLicense)]
  {
    var a, b, c, d := l.firstComponent, NatToString(l.secondComponent.year), l.thirdComponent,
                      BoolToString(l.fullLicense);
    BoolToStringLetters(l.fullLicense);
    assert '-' !in b by {
      assert forall x :: x in b ==> IsDigit(x);
    }
    assert '-' !in c by {
      assert forall x :: x in c ==> IsDigit(x);
    }
    assert '-' !in d by {
      assert forall x :: x in d ==> 'a' <= x <= 'z';
    }
    ToStringIsJoin(l);
    SplitJoin([a, b, c, d], '-');
  }

  /** The process-wide `LICENSE_MAP`, as an object passed to its users. */
  class LicenceTable {
    var licences: map<Person, DrivingLicense>

    ghost predicate Valid()
      reads this
    {
      ValidTable(licences)
    }

    constructor ()
      ensures Valid() && licences == map[]
    {
      licences := map[];
    }

    /** `DrivingLicense.getInstance(person, second, fullLicense)`, with the
        two draws of `generateSerial` as parameters: a missing person is
        refused, then a missing date; otherwise the person's filed licence is
        returned, filed first if there was none. */
    method GetInstance(person: Option<Person>, second: Option<Date>, fullLicense: bool,
                       serialFirst: int, serialSecond: int)
      returns (r: Result<DrivingLicense>)
      requires Valid()
      requires person.Some? ==> WellFormed(person.value)
      requires 0 <= serialFirst < 10 && 0 <= serialSecond < 10
      modifies this
      ensures Valid()
      ensures person.None? ==> r == Err(IllegalArgument(NullPerson)) && licences == old(licences)
      ensures person.Some? && second.None? ==>
        r == Err(IllegalArgument(NullDate)) && licences == old(licences)
      ensures person.Some? && second.Some? ==>
        && licences == Issue(old(licences), person.value, second.value, fullLicense,
                             Serial(serialFirst, serialSecond))
        && r == Ok(licences[person.value])
        && IsIssuedTo(r.value, person.value)
      ensures person.Some? && second.Some? && person.value in old(licences) ==>
        r == Ok(old(licences)[person.value])
    {
      if person.None? {
        return Err(IllegalArgument(NullPerson));
      }
      if second.None? {
        return Err(IllegalArgument(NullDate));
      }
      var p := person.value;
      IssueKeepsValid(licences, p, second.value, fullLicense, Serial(serialFirst, serialSecond));
      if p !in licences {
        var serial := Serial(serialFirst, serialSecond);
        licences := licences[p := DrivingLicense(ProcessName(p), second.value, serial, fullLicense, p)];
      }
      r := Ok(licences[p]);
    }
  }
}
