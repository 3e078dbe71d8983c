/** The situations the repository's unit tests set up, replayed on the
    model: each method builds the objects a test builds and asserts what
    the test expects of them. */
module Scenarios {
  import opened Outcomes
  import opened Dates
  import opened Registrations
  import opened Cars
  import opened Persons
  import opened Licences
  import opened Rental
  import opened Text
  import opened PersonCodec
  import SmallCars
  import LargeCars

  /** `SmallCarTest`: a full tank takes nothing more. */
  method SmallCarFullTank(registration: Registration)
  {
    var made := NewSmallCar(Some(registration), SmallCars.Capacity);
    var car := made.value;
    assert car.IsTankFull();
    var r := car.AddFuel(10);
    assert r == Ok(0) && car.fuel == 49;
    r := car.AddFuel(-1);
    assert r == Err(IllegalArgument(NegativeFuel));
  }

  /** `SmallCarTest`: emptied and refilled, then over-filled by nine litres. */
  method SmallCarRefill(registration: Registration)
  {
    var made := NewSmallCar(Some(registration), SmallCars.Capacity);
    var car := made.value;
    var r := car.UseFuel(49);
    assert !car.IsTankFull() && car.fuel == 0;
    r := car.AddFuel(40);
    assert car.fuel == 40;
    r := car.AddFuel(10);
    assert r == Ok(9) && car.IsTankFull();
  }

  /** `SmallCarTest`: 40 litres out, 25 back in, leave 34. */
  method SmallCarPartialRefill(registration: Registration)
  {
    var made := NewSmallCar(Some(registration), SmallCars.Capacity);
    var car := made.value;
    var r := car.UseFuel(40);
    r := car.AddFuel(25);
    assert r == Ok(25) && car.fuel == 34;
  }

  /** `SmallCarTest`: asking for more than the tank holds gives what it holds. */
  method SmallCarOverUse(registration: Registration)
  {
    var made := NewSmallCar(Some(registration), SmallCars.Capacity);
    var car := made.value;
    var r := car.UseFuel(-1);
    assert r == Err(IllegalArgument(NegativeFuel)) && car.fuel == 49;
    r := car.UseFuel(50);
    assert r == Ok(49) && car.fuel == 0;
  }

  /** `SmallCarTest`: a valid amount is taken out as asked. */
  method SmallCarUseValid(registration: Registration)
  {
    var made := NewSmallCar(Some(registration), SmallCars.Capacity);
    var car := made.value;
    var r := car.UseFuel(20);
    assert r == Ok(20) && car.fuel == 29;
  }

  /** `SmallCarTest`: driving 40 km uses two litres once the car is rented;
      a negative distance, an empty tank and an unrented car are refused. */
  method SmallCarDrive(registration: Registration)
  {
    var made := NewSmallCar(Some(registration), SmallCars.Capacity);
    var car := made.value;
    var r := car.Drive(10);
    assert r == Err(IllegalState(NotRented));
    r := car.Drive(-1);
    assert r == Err(IllegalArgument(NegativeDistance));
    car.SetRented(true);
    r := car.Drive(40);
    assert r == Ok(2) && car.fuel == 47;
    r := car.UseFuel(47);
    r := car.Drive(10);
    assert r == Err(IllegalState(NoFuel));
  }

  /** `LargeCarTest`: 20 km use two litres and 60 km use six. */
  method LargeCarDrive(registration: Registration)
  {
    var made := NewLargeCar(Some(registration), LargeCars.Capacity);
    var car := made.value;
    car.RentCar();
    var r := car.Drive(20);
    assert r == Ok(2) && car.fuel == 58;
    r := car.Drive(60);
    assert r == Ok(6) && car.fuel == 52;
  }

  /** A car needs a registration. */
  method CarNeedsRegistration()
  {
    var made := NewSmallCar(None, 0);
    assert made == Err(IllegalArgument(NullRegistration));
    var other := NewCar(Some(Registration("SE61", "RLU")), Small, 50, 0);
    assert other == Err(IllegalArgument(BadTankCapacity));
  }

  /** The thirty plates of the registration generator, in its order. */
  const GeneratorPlates: seq<Registration> := [
      Registration("FP61", "RVG"), Registration("YN56", "QPI"), Registration("TP00", "QQJ"),
      Registration("TM02", "RQW"), Registration("DI00", "LRB"), Registration("FP12", "SBJ"),
      Registration("SS61", "RJK"), Registration("IA52", "XCY"), Registration("OD96", "ZEC"),
      Registration("HK11", "KMG"), Registration("NE49", "WQH"), Registration("PJ53", "TEV"),
      Registration("XL92", "HNQ"), Registration("BM84", "CRS"), Registration("HN33", "BMR"),
      Registration("SE61", "RLU"), Registration("AA78", "OGG"), Registration("KA16", "UAR"),
      Registration("QU02", "MWE"), Registration("ZW80", "YGG"), Registration("WN38", "AZM"),
      Registration("KE34", "YED"), Registration("VD35", "VXB"), Registration("KD76", "ORG"),
      Registration("SP01", "HOM"), Registration("JD46", "XLK"), Registration("RI87", "XGK"),
      Registration("QI85", "GJY"), Registration("NE32", "ASW"), Registration("DZ61", "LFK")
    ]

  /** No two of the generator's plates are the same. */
  lemma GeneratorPlatesDistinct()
    ensures forall i, j :: 0 <= i < j < |GeneratorPlates| ==> GeneratorPlates[i] != GeneratorPlates[j]
  {
  }

  /** `new RentalManagement()` over the generator's plates, every car
      starting with a full tank; SE61 RLU is one of its small cars. */
  method NewTestFleet() returns (management: RentalManagement, ghost plate: Car)
    ensures fresh(management) && fresh(management.rentals.Keys) && management.Valid()
    ensures forall c :: c in management.rentals ==> management.rentals[c].None? && c.IsTankFull()
    ensures forall c :: c in management.rentals ==> c.capacity == TankCapacity(c.kind)
    ensures plate in management.rentals && plate.registration == Registration("SE61", "RLU") && plate.kind == Small
    ensures Available(management.rentals, Large) == 10 && Available(management.rentals, Small) == 20
  {
    GeneratorPlatesDistinct();
    management := new RentalManagement(GeneratorPlates, true);
    assert GeneratorPlates[15] == Registration("SE61", "RLU");
    plate :| plate in management.rentals && plate.registration == GeneratorPlates[15] && plate.kind == Small;
  }

  /** `new Person("Jonathan", "Carlton", dob, true, licenseDate)` of the tests. */
  method NewTestPerson(table: LicenceTable) returns (person: Person)
    requires table.Valid() && table.licences == map[]
    modifies table
    ensures table.Valid() && person == Person("Jonathan", "Carlton", Ymd(27, 9, 1993))
    ensures person in table.licences && table.licences[person].owner == person
    ensures table.licences[person].fullLicense && table.licences[person].secondComponent == Ymd(28, 6, 2011)
  {
    TrimmedIsFixed("Jonathan");
    TrimmedIsFixed("Carlton");
    var made := NewPerson(table, Some("Jonathan"), Some("Carlton"), Some(Ymd(27, 9, 1993)), true,
                          Some(Ymd(28, 6, 2011)), 4, 2);
    person := made.value;
  }

  /** On 1 March 2016 the test person is 22 and has held the licence for 4
      whole years: old enough, and long enough, for a small car. */
  lemma TestPersonEligible(person: Person, licence: DrivingLicense, now: Date)
    requires person.dateOfBirth == Ymd(27, 9, 1993) && licence.secondComponent == Ymd(28, 6, 2011)
    requires now == Ymd(1, 3, 2016) && licence.owner == person && licence.fullLicense
    ensures Eligibility(person, licence, licence, false, true, Small, now) == Eligible
  {
    assert YearsBetween(person.dateOfBirth, now) == 22 && YearsBetween(licence.secondComponent, now) == 4;
  }

  /** The objects `RentalManagementTest` builds before it issues a car:
      the fleet, the test person with their licence, and the requested
      small car SE61 RLU with a full tank. On 1 March 2016 the person is
      eligible for it. */
  method PrepareTest()
    returns (management: RentalManagement, table: LicenceTable, person: Person, requested: Car, ghost plate: Car)
    ensures fresh(management) && fresh(management.rentals.Keys) && management.Valid()
    ensures forall c :: c in management.rentals ==> management.rentals[c].None? && c.IsTankFull()
    ensures forall c :: c in management.rentals ==> c.capacity == TankCapacity(c.kind)
    ensures plate in management.rentals && IsCandidate(plate, requested)
    ensures Available(management.rentals, Large) == 10 && Available(management.rentals, Small) == 20
    ensures person == Person("Jonathan", "Carlton", Ymd(27, 9, 1993)) && person in table.licences
    ensures requested.kind == Small && requested.registration == Registration("SE61", "RLU") && requested.IsTankFull()
    ensures var licence := table.licences[person];
      Eligibility(person, licence, licence, false, true, Small, Ymd(1, 3, 2016)) == Eligible
  {
    management, plate := NewTestFleet();
    table := new LicenceTable();
    person := NewTestPerson(table);
    var made := NewSmallCar(Some(Registration("SE61", "RLU")), SmallCars.Capacity);
    requested := made.value;
    TestPersonEligible(person, table.licences[person], Ymd(1, 3, 2016));
  }

  /** The set-up of `RentalManagementTest`: the test person is issued the
      small car SE61 RLU on 1 March 2016. */
  method IssueTestCar() returns (management: RentalManagement, table: LicenceTable, person: Person, ghost car: Car)
    ensures fresh(management) && fresh(management.rentals.Keys) && management.Valid()
    ensures person == Person("Jonathan", "Carlton", Ymd(27, 9, 1993)) && person in table.licences
    ensures car in management.rentals && management.rentals[car] == Some(person)
    ensures car.kind == Small && car.registration == Registration("SE61", "RLU")
    ensures car.capacity == SmallCars.Capacity && car.fuel == SmallCars.Capacity
    ensures forall c :: c in management.rentals && c != car ==> management.rentals[c].None?
    ensures Available(management.rentals, Small) == 19 && Available(management.rentals, Large) == 10
  {
    var requested;
    ghost var plate;
    management, table, person, requested, plate := PrepareTest();
    var licence := table.licences[person];
    assert Some(person) !in management.rentals.Values;
    ghost var before := management.rentals;
    var answer, issued := management.IssueCar(table, Some(person), Some(licence), requested, Ymd(1, 3, 2016));
    assert answer == Ok(true);
    AvailableAfterIssue(before, issued, person, Small);
    AvailableAfterIssue(before, issued, person, Large);
    car := issued;
  }

  /** `RentalManagementTest.availableCars` and `getRentedCars`: one small car
      fewer is free, and it is the only car rented. */
  method CountsAfterIssue()
  {
    var management, table, person, car := IssueTestCar();
    var small := management.AvailableCars(SmallCarClass);
    var large := management.AvailableCars(LargeCarClass);
    var other := management.AvailableCars(OtherClass);
    assert small == 19 && large == 10 && other == -1;
    var rented := management.GetRentedCars();
    assert car in rented;
    assert forall c :: c in rented ==> c == car;
  }

  /** `RentalManagementTest.terminateRental`: the test person's car is the
      one issued; 40 km take 2 litres from its full tank, and handing it
      back reports the 2 litres it needs. */
  method RentAndReturn()
  {
    var management, table, person, issued := IssueTestCar();
    var got := management.GetCar(Some(person));
    assert got == Ok(issued);
    var car := got.value;
    var used := car.Drive(40);
    assert used == Ok(2) && car.fuel == 47;
    var refill, returned := management.TerminateRental(Some(person));
    assert returned == car && refill == Ok(2);
    assert !car.rented && car !in management.rentals;
  }

  /** `RentalManagementTest.issueCarNullParameters` and
      `terminateRentalNullParameter`: each missing argument is refused. */
  method MissingArguments()
  {
    var management, table, person, issued := IssueTestCar();
    var licence := table.licences[person];
    var made := NewSmallCar(Some(Registration("SE61", "RLU")), SmallCars.Capacity);
    var now := Ymd(1, 3, 2016);
    var r, none := management.IssueCar(table, None, Some(licence), made.value, now);
    assert r == Err(IllegalArgument(NullPerson));
    r, none := management.IssueCar(table, Some(person), None, made.value, now);
    assert r == Err(IllegalArgument(NullLicence));
    r, none := management.IssueCar(table, Some(person), Some(licence), null, now);
    assert r == Err(IllegalArgument(NullCar));
    var t, back := management.TerminateRental(None);
    assert t == Err(IllegalArgument(NullPerson));
    var g := management.GetCar(None);
    assert g == Err(IllegalArgument(NullPerson));
  }

  /** A second request by someone who already rents is answered false. */
  method SecondRequestRefused()
  {
    var management, table, person, issued := IssueTestCar();
    var licence := table.licences[person];
    var made := NewSmallCar(Some(Registration("NE49", "WQH")), SmallCars.Capacity);
    var now := Ymd(1, 3, 2016);
    assert management.IsRenting(person);
    var r, none := management.IssueCar(table, Some(person), Some(licence), made.value, now);
    assert r == Ok(false);
  }

  /** A request naming a car built the way `AbstractCar` builds one, with
      an empty tank, is answered false even though the ledger's SE61 RLU is
      free: the full-tank check applies to the car passed in. */
  method EmptyRequestRefused()
  {
    var management, plate := NewTestFleet();
    var table := new LicenceTable();
    var person := NewTestPerson(table);
    var licence := table.licences[person];
    var requested := NewSmallCar(Some(Registration("SE61", "RLU")), 0);
    var r, none := management.IssueCar(table, Some(person), Some(licence), requested.value, Ymd(1, 3, 2016));
    assert r == Ok(false);
  }

  /** `RegistrationTest`: a plate given in lower case is stored in capitals
      and prints as "NG57 HXE"; asking again in capitals gives the same
      registration. */
  method RegistrationMemo()
  {
    var table := new RegistrationTable();
    assert Upper("ng57") == "NG57" && Upper("hxe") == "HXE" by {
      assert UpperChar('n') == 'N' && UpperChar('g') == 'G' && UpperChar('h') == 'H'
        && UpperChar('x') == 'X' && UpperChar('e') == 'E';
    }
    assert Upper("NG57") == "NG57" && Upper("HXE") == "HXE";
    var r := table.GetInstance("ng57", "hxe");
    assert r == Ok(Registration("NG57", "HXE"));
    assert Registrations.ToString(r.value) == "NG57 HXE";
    var again := table.GetInstance("NG57", "HXE");
    assert again == r;
  }

  /** `RegistrationTest`: a prefix of the wrong length or blank, and a
      suffix too short, are refused. */
  method RegistrationRefused()
  {
    var table := new RegistrationTable();
    var bad := table.GetInstance("ABC10", "HXE");
    assert bad == Err(IllegalArgument(BadFirstComponent));
    bad := table.GetInstance("  ", "HXE");
    assert bad == Err(IllegalArgument(BadFirstComponent));
    bad := table.GetInstance("NG57", "HX");
    assert bad == Err(IllegalArgument(BadSecondComponent));
  }

  /** `DrivingLicenseTest` and `PersonTest.testValueOf`: the test person's
      licence reads "JC-2011-" then its serial then "-true", and reading the
      person's printed text back gives the same person and files nothing new. */
  method PrintAndRead()
  {
    var table := new LicenceTable();
    var person := NewTestPerson(table);
    var licence := table.licences[person];
    assert licence.firstComponent == "JC";
    var text := PersonCodec.ToString(person, licence);
    assert Printable(person);
    ghost var before := table.licences;
    DecodeToString(person, licence);
    DecodeTableToString(before, person, Serial(0, 7));
    var back := ValueOf(table, Some(text), 0, 7);
    assert back == Ok(person) && table.licences == before;
  }

  /** `DrivingLicenseTest.testToString`: the licence of the test person,
      issued on 1 February 2011, prints as "JC-2011-", its serial, "-true". */
  lemma TestLicenceText(l: DrivingLicense)
    requires l.firstComponent == "JC" && l.secondComponent == Ymd(1, 2, 2011) && l.fullLicense
    ensures Licences.ToString(l) == "JC-2011-" + l.thirdComponent + "-true"
  {
    assert NatToString(2011) == "2011";
  }
}
