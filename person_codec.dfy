/** The operations of `Person.java` that involve the licence table: the
    constructor, which files a licence for the new person, `toString`, and
    `valueOf`, which reads a person back from that text. */
module PersonCodec {
  import opened Outcomes
  import opened Text
  import opened Dates
  import opened Persons
  import opened Licences

  /** `new Person(firstName, lastName, dateOfBirth, fullLicense, licenseIssue)`
      with the serial draws as parameters: the name and birth checks first,
      then the licence table's own refusal of a missing issue date. A person
      let through holds the licence the table files under them. */
  method NewPerson(table: LicenceTable, firstName: Option<string>, lastName: Option<string>,
                   dateOfBirth: Option<Date>, fullLicense: bool, licenseIssue: Option<Date>,
                   serialFirst: int, serialSecond: int)
    returns (r: Result<Person>)
    requires table.Valid()
    requires 0 <= serialFirst < 10 && 0 <= serialSecond < 10
    modifies table
    ensures table.Valid()
    ensures Check(firstName, lastName, dateOfBirth).Err? ==>
      r == Check(firstName, lastName, dateOfBirth) && table.licences == old(table.licences)
    ensures Check(firstName, lastName, dateOfBirth).Ok? && licenseIssue.None? ==>
      r == Err(IllegalArgument(NullDate)) && table.licences == old(table.licences)
    ensures Check(firstName, lastName, dateOfBirth).Ok? && licenseIssue.Some? ==>
      && r == Check(firstName, lastName, dateOfBirth)
      && table.licences == Issue(old(table.licences), r.value, licenseIssue.value, fullLicense,
                                 Serial(serialFirst, serialSecond))
      && IsIssuedTo(table.licences[r.value], r.value)
  {
    var checked := Check(firstName, lastName, dateOfBirth);
    if checked.Err? {
      return checked;
    }
    var license := table.GetInstance(Some(checked.value), licenseIssue, fullLicense, serialFirst, serialSecond);
    if license.Err? {
      return Err(license.error);
    }
    r := checked;
  }

  /** The text after the first name and its space: "last:dd/MM/yyyy:licence". */
  function Rest(p: Person, l: DrivingLicense): string
  {
    p.lastName + ":" + Format(p.dateOfBirth) + ":" + Licences.ToString(l)
  }

  /** `toString` of a person holding licence `l`:
      "first last:dd/MM/yyyy:licence". For a printable person the first
      space is the only one, so splitting on spaces cuts off the first name. */
  function ToString(p: Person, l: DrivingLicense): (s: string)
    ensures Printable(p) && IsIssuedTo(l, p) ==> Split(s, ' ') == [p.firstName, Rest(p, l)]
  {
    var s := p.firstName + " " + Rest(p, l);
    if Printable(p) && IsIssuedTo(l, p) then
      InitialsFree(p);
      LicenceOmits(l, ' ');
      DateOmits(p.dateOfBirth, ' ');
      assert ' ' !in Rest(p, l);
      SplitPair(p.firstName, Rest(p, l), ' ');
      s
    else s
  }

  /** What `valueOf` has read from its text by the time it calls the constructor. */
  datatype Fields = Fields(firstName: string, lastName: string, dateOfBirth: Date, fullLicense: bool, issued: Date)

  /** The text of `valueOf` up to the constructor, in the order the Java
      evaluates it: split on spaces and take the second piece, split that on
      colons and parse the second piece as the birth date, split the third on
      dashes, read the full flag from the fourth piece, then the issue year
      from the second. A missing piece is an out-of-bounds index. */
  function ReadFields(s: string): (r: Result<Fields>)
    ensures r.Err? ==> r.error == IndexOutOfBounds || r.error == ParseFailure
    ensures Split(s, ' ') == [] || |Split(s, ' ')| == 1 ==> r == Err(IndexOutOfBounds)
  {
    var firstSplit := Split(s, ' ');
    if |firstSplit| < 2 then Err(IndexOutOfBounds)
    else
      var secondSplit := Split(firstSplit[1], ':');
      if |secondSplit| < 2 then Err(IndexOutOfBounds)
      else
        match Parse(secondSplit[1])
        case Err(e) => Err(e)
        case Ok(date) =>
          if |secondSplit| < 3 then Err(IndexOutOfBounds)
          else
            var thirdSplit := Split(secondSplit[2], '-');
            if |thirdSplit| < 4 then Err(IndexOutOfBounds)
            else
              var full := ParseBoolean(thirdSplit[3]);
              match ParseYear(thirdSplit[1])
              case Err(e) => Err(e)
              case Ok(issued) => Ok(Fields(firstSplit[0], secondSplit[0], date, full, issued))
  }

  /** The person `valueOf` returns: the empty or missing text is refused,
      then whatever reading the fields or the constructor's checks refuse.
      The returned owner of the filed licence is the constructed person. */
  function Decode(s: Option<string>): (r: Result<Person>)
    ensures s.None? || s.value == [] ==> r == Err(IllegalArgument(EmptyInput))
    ensures r.Ok? ==> WellFormed(r.value)
  {
    if s.None? || s.value == [] then Err(IllegalArgument(EmptyInput))
    else
      match ReadFields(s.value)
      case Err(e) => Err(e)
      case Ok(f) => Check(Some(f.firstName), Some(f.lastName), Some(f.dateOfBirth))
  }

  /** The licence table after `valueOf`: the decoded person is issued a
      licence with the year and flag read from the text, if they had none. */
  function DecodeTable(licences: map<Person, DrivingLicense>, s: Option<string>, serial: string)
    : (r: map<Person, DrivingLicense>)
    requires IsSerial(serial)
    ensures Decode(s).Err? ==> r == licences
    ensures Decode(s).Ok? ==> r.Keys == licences.Keys + {Decode(s).value}
    ensures forall q :: q in licences ==> q in r && r[q] == licences[q]
  {
    match Decode(s)
    case Err(_) => licences
    case Ok(p) =>
      var f := ReadFields(s.value).value;
      Issue(licences, p, f.issued, f.fullLicense, serial)
  }

  /** `Person.valueOf(person)`, with the serial draws of the licence it may
      file as parameters. */
  method ValueOf(table: LicenceTable, person: Option<string>, serialFirst: int, serialSecond: int)
    returns (r: Result<Person>)
    requires table.Valid()
    requires 0 <= serialFirst < 10 && 0 <= serialSecond < 10
    modifies table
    ensures table.Valid()
    ensures r == Decode(person)
    ensures table.licences == DecodeTable(old(table.licences), person, Serial(serialFirst, serialSecond))
  {
    if person.None? || person.value == [] {
      return Err(IllegalArgument(EmptyInput));
    }
    var firstSplit := Split(person.value, ' ');
    if |firstSplit| < 2 {
      return Err(IndexOutOfBounds);
    }
    var secondSplit := Split(firstSplit[1], ':');
    if |secondSplit| < 2 {
      return Err(IndexOutOfBounds);
    }
    var date := Parse(secondSplit[1]);
    if date.Err? {
      return Err(date.error);
    }
    if |secondSplit| < 3 {
      return Err(IndexOutOfBounds);
    }
    var thirdSplit := Split(secondSplit[2], '-');
    if |thirdSplit| < 4 {
      return Err(IndexOutOfBounds);
    }
    var full := ParseBoolean(thirdSplit[3]);
    var issued := ParseYear(thirdSplit[1]);
    if issued.Err? {
      return Err(issued.error);
    }
    var created := NewPerson(table, Some(firstSplit[0]), Some(secondSplit[0]), Some(date.value),
                             full, Some(issued.value), serialFirst, serialSecond);
    if created.Err? {
      return created;
    }
    var license := table.GetInstance(Some(created.value), Some(issued.value), full, serialFirst, serialSecond);
    r := Ok(license.value.owner);
  }

  /** A person whose text `valueOf` can take apart: no space in either name,
      no colon in the last name, and neither initial a separator of the
      licence or of the record. */
  predicate Printable(p: Person)
  {
    && WellFormed(p)
    && ' ' !in p.firstName && ' ' !in p.lastName && ':' !in p.lastName
    && p.firstName[0] != ':' && p.firstName[0] != '-' && p.lastName[0] != '-'
  }

  /** A character that is no initial, dash, digit or lower-case letter
      does not occur in a printed licence. */
  lemma LicenceOmits(l: DrivingLicense, c: char)
    requires IsSerial(l.thirdComponent)
    requires c !in l.firstComponent && c != '-' && !IsDigit(c) && !('a' <= c <= 'z')
    ensures c !in Licences.ToString(l)
  {
    var y := NatToString(l.secondComponent.year);
    assert forall x :: x in y ==> IsDigit(x);
    assert forall x :: x in l.thirdComponent ==> IsDigit(x);
    BoolToStringLetters(l.fullLicense);
    assert forall x :: x in BoolToString(l.fullLicense) ==> 'a' <= x <= 'z';
  }

  /** A character that is neither a digit nor a slash does not occur in a
      printed date. */
  lemma DateOmits(d: Date, c: char)
    requires !IsDigit(c) && c != '/'
    ensures c !in Format(d)
  {
    assert forall x :: x in Format(d) ==> IsDigit(x) || x == '/';
  }

  /** The initials of a printable person hold no space, colon or dash. */
  lemma InitialsFree(p: Person)
    requires Printable(p)
    ensures ' ' !in ProcessName(p) && ':' !in ProcessName(p) && '-' !in ProcessName(p)
  {
  }

  /** The second split cuts the rest into last name, birth date and licence. */
  lemma SplitOnColon(p: Person, l: DrivingLicense)
    requires Printable(p) && IsIssuedTo(l, p)
    ensures Split(Rest(p, l), ':') == [p.lastName, Format(p.dateOfBirth), Licences.ToString(l)]
  {
    var date := Format(p.dateOfBirth);
    var lic := Licences.ToString(l);
    InitialsFree(p);
    LicenceOmits(l, ':');
    DateOmits(p.dateOfBirth, ':');
    assert [p.lastName, date, lic][1..] == [date, lic] && [date, lic][1..] == [lic];
    assert Join([date, lic], ':') == date + ":" + lic;
    assert Rest(p, l) == Join([p.lastName, date, lic], ':');
    SplitJoin([p.lastName, date, lic], ':');
  }

  /** Reading a printed person takes the fields apart again; the issue
      date comes back as 1 January of the year of issue. */
  lemma ReadFieldsToString(p: Person, l: DrivingLicense)
    requires Printable(p) && IsIssuedTo(l, p)
    ensures ReadFields(ToString(p, l))
      == Ok(Fields(p.firstName, p.lastName, p.dateOfBirth, l.fullLicense, Ymd(1, 1, l.secondComponent.year)))
  {
    SplitOnColon(p, l);
    ParseFormat(p.dateOfBirth);
    InitialsFree(p);
    ToStringFields(l);
    ParseBooleanOfString(l.fullLicense);
    ParseYearOfYear(l.secondComponent);
  }

  /** `valueOf` reads back the person `toString` printed. */
  lemma DecodeToString(p: Person, l: DrivingLicense)
    requires Printable(p) && IsIssuedTo(l, p)
    ensures Decode(Some(ToString(p, l))) == Ok(p)
  {
    ReadFieldsToString(p, l);
    CheckOfWellFormed(p);
  }

  /** Reading back a person who already holds a licence files nothing new. */
  lemma DecodeTableToString(licences: map<Person, DrivingLicense>, p: Person, serial: string)
    requires ValidTable(licences) && p in licences && Printable(p) && IsSerial(serial)
    ensures DecodeTable(licences, Some(ToString(p, licences[p])), serial) == licences
  {
    DecodeToString(p, licences[p]);
  }
}
