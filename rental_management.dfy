/** The rental company's ledger (`RentalManagement.java`): every car the
    company owns, each with the person renting it or nobody, and the
    operations that count, list, issue and take back cars. */
module Rental {
  import opened Outcomes
  import opened Dates
  import opened Registrations
  import opened Cars
  import opened Persons
  import opened Licences
  import SmallCars
  import LargeCars

  /** The `Class<?>` argument of `availableCars`. */
  datatype CarClass = SmallCarClass | LargeCarClass | OtherClass

  /** Why `issueCar` answers false, in the order it checks; `Eligible` when
      every check passes. */
  datatype Verdict =
    | Eligible
    | NotOwner
    | AlreadyRenting
    | ProvisionalLicence
    | TankNotFull
    | TooYoung
    | NotHeldLongEnough

  /** The youngest age at which a car of the kind is issued. */
  function MinimumAge(kind: Kind): int
  {
    match kind
    case Small => 20
    case Large => 25
  }

  /** The fewest whole years the licence must have been held. */
  function MinimumYearsHeld(kind: Kind): int
  {
    match kind
    case Small => 1
    case Large => 5
  }

  /** The checks of `issueCar` before it looks for the car: the licence is
      the person's, the person rents nothing yet, their own licence is full,
      the requested car's tank is full, and on `now` they are old enough and
      have held the licence long enough for the kind of car. */
  function Eligibility(person: Person, licence: DrivingLicense, personal: DrivingLicense,
                       renting: bool, tankFull: bool, kind: Kind, now: Date): (v: Verdict)
    ensures v == Eligible <==>
      && licence.owner == person && !renting && personal.fullLicense && tankFull
      && YearsBetween(person.dateOfBirth, now) >= MinimumAge(kind)
      && YearsBetween(licence.secondComponent, now) >= MinimumYearsHeld(kind)
    ensures v == NotOwner <==> licence.owner != person
    ensures v == AlreadyRenting <==> licence.owner == person && renting
    ensures v == ProvisionalLicence <==> licence.owner == person && !renting && !personal.fullLicense
    ensures v == TankNotFull <==> licence.owner == person && !renting && personal.fullLicense && !tankFull
    ensures v == TooYoung <==>
      && licence.owner == person && !renting && personal.fullLicense && tankFull
      && YearsBetween(person.dateOfBirth, now) < MinimumAge(kind)
    ensures v == NotHeldLongEnough <==>
      && licence.owner == person && !renting && personal.fullLicense && tankFull
      && YearsBetween(person.dateOfBirth, now) >= MinimumAge(kind)
      && YearsBetween(licence.secondComponent, now) < MinimumYearsHeld(kind)
  {
    if licence.owner != person then NotOwner
    else if renting then AlreadyRenting
    else if !personal.fullLicense then ProvisionalLicence
    else if !tankFull then TankNotFull
    else if YearsBetween(person.dateOfBirth, now) < MinimumAge(kind) then TooYoung
    else if YearsBetween(licence.secondComponent, now) < MinimumYearsHeld(kind) then NotHeldLongEnough
    else Eligible
  }

  /** An eligible person was born at least the minimum age before `now`
      and was issued the licence at least the minimum years before it, on
      the calendar. */
  lemma EligibleOnCalendar(person: Person, licence: DrivingLicense, personal: DrivingLicense,
                           renting: bool, tankFull: bool, kind: Kind, now: Date)
    ensures Eligibility(person, licence, personal, renting, tankFull, kind, now) == Eligible <==>
      && licence.owner == person && !renting && personal.fullLicense && tankFull
      && OnOrBefore(Ymd(person.dateOfBirth.day, person.dateOfBirth.month,
                        person.dateOfBirth.year + MinimumAge(kind)), now)
      && OnOrBefore(Ymd(licence.secondComponent.day, licence.secondComponent.month,
                        licence.secondComponent.year + MinimumYearsHeld(kind)), now)
  {
    YearsAtLeast(person.dateOfBirth, now, MinimumAge(kind));
    YearsAtLeast(licence.secondComponent, now, MinimumYearsHeld(kind));
  }

  /** A car the loop of `issueCar` accepts for the requested one: of the same
      class, not rented, with the same registration. */
  predicate IsCandidate(c: Car, requested: Car)
    reads c
  {
    c.kind == requested.kind && !c.rented && c.registration == requested.registration
  }

  /** The cars of a kind nobody is renting, among those of `cars`. */
  function AvailableAmong(rentals: map<Car, Option<Person>>, cars: set<Car>, kind: Kind): set<Car>
  {
    set c | c in cars && c in rentals && rentals[c].None? && c.kind == kind
  }

  /** Looking at one more car of the ledger counts it when it is free and
      of the kind. */
  lemma AvailableAmongAdd(rentals: map<Car, Option<Person>>, seen: set<Car>, c: Car, kind: Kind)
    requires c in rentals && c !in seen
    ensures |AvailableAmong(rentals, seen + {c}, kind)|
      == |AvailableAmong(rentals, seen, kind)| + (if rentals[c].None? && c.kind == kind then 1 else 0)
  {
    if rentals[c].None? && c.kind == kind {
      assert AvailableAmong(rentals, seen + {c}, kind) == AvailableAmong(rentals, seen, kind) + {c};
    } else {
      assert AvailableAmong(rentals, seen + {c}, kind) == AvailableAmong(rentals, seen, kind);
    }
  }

  /** What `availableCars` counts for a kind. */
  function Available(rentals: map<Car, Option<Person>>, kind: Kind): int
  {
    |AvailableAmong(rentals, rentals.Keys, kind)|
  }

  /** A new car on nobody's account adds one to the count of its kind. */
  lemma AvailableAfterInsert(rentals: map<Car, Option<Person>>, c: Car, kind: Kind)
    requires c !in rentals
    ensures Available(rentals[c := None], kind) == Available(rentals, kind) + (if c.kind == kind then 1 else 0)
  {
    var after := AvailableAmong(rentals[c := None], rentals[c := None].Keys, kind);
    var before := AvailableAmong(rentals, rentals.Keys, kind);
    if c.kind == kind {
      assert after == before + {c};
    } else {
      assert after == before;
    }
  }

  /** Binding an available car takes one from the count of its kind. */
  lemma AvailableAfterIssue(rentals: map<Car, Option<Person>>, c: Car, p: Person, kind: Kind)
    requires c in rentals && rentals[c].None?
    ensures Available(rentals[c := Some(p)], kind) == Available(rentals, kind) - (if c.kind == kind then 1 else 0)
  {
    var after := AvailableAmong(rentals[c := Some(p)], rentals[c := Some(p)].Keys, kind);
    var before := AvailableAmong(rentals, rentals.Keys, kind);
    if c.kind == kind {
      assert after == before - {c};
    } else {
      assert after == before;
    }
  }

  /** Taking a rented car out of the ledger leaves every count alone. */
  lemma AvailableAfterTerminate(rentals: map<Car, Option<Person>>, c: Car, kind: Kind)
    requires c in rentals && rentals[c].Some?
    ensures Available(rentals - {c}, kind) == Available(rentals, kind)
  {
    assert AvailableAmong(rentals - {c}, (rentals - {c}).Keys, kind) == AvailableAmong(rentals, rentals.Keys, kind);
  }

  /** The fleet of `populateMap`: ten large cars on the first ten plates,
      then twenty small cars on the next twenty, each unrented, with an empty
      tank or, when `full`, a full one, and on nobody's account. */
  predicate IsFleet(rentals: map<Car, Option<Person>>, cars: seq<Car>, plates: seq<Registration>, full: bool, n: int)
    reads cars
  {
    && |cars| == n && n <= |plates|
    && (forall c :: c in rentals ==> c in cars)
    && (forall i :: 0 <= i < n ==>
         && cars[i].registration == plates[i]
         && cars[i].kind == (if i < 10 then Large else Small)
         && cars[i].capacity == TankCapacity(cars[i].kind)
         && cars[i].fuel == (if full then cars[i].capacity else 0) && !cars[i].rented
         && cars[i] in rentals && rentals[cars[i]] == None)
  }

  class RentalManagement {
    var rentals: map<Car, Option<Person>>

    /** Every car is sound, a car is on someone's account exactly when it
        is marked rented, no two cars share a registration, and nobody rents
        two cars. */
    ghost predicate Valid()
      reads this, rentals.Keys
    {
      && (forall c :: c in rentals ==> c.Valid())
      && (forall c :: c in rentals ==> (rentals[c].Some? <==> c.rented))
      && (forall c, d :: c in rentals && d in rentals && c.registration == d.registration ==> c == d)
      && (forall c, d :: c in rentals && d in rentals && rentals[c].Some? && rentals[c] == rentals[d] ==> c == d)
    }

    /** Some car is on `person`'s account: `containsValue(person)`. */
    predicate IsRenting(person: Person)
      reads this
    {
      Some(person) in rentals.Values
    }

    /** The requested car's twin in the ledger exists and is free. */
    predicate HasCandidate(requested: Car)
      reads this, rentals.Keys
    {
      exists c :: c in rentals && IsCandidate(c, requested)
    }

    /** `new RentalManagement()`, with the registrations of the generator
        and whether a new car starts with a full tank rather than an empty
        one as parameters. */
    constructor (plates: seq<Registration>, startFull: bool)
      requires |plates| == 30
      requires forall i, j :: 0 <= i < j < |plates| ==> plates[i] != plates[j]
      ensures Valid()
      ensures fresh(rentals.Keys) && |rentals| == 30
      ensures forall c :: c in rentals ==> rentals[c].None? && c.fuel == (if startFull then c.capacity else 0)
      ensures forall c :: c in rentals ==> c.capacity == TankCapacity(c.kind)
      ensures forall i :: 0 <= i < 30 ==>
        exists c :: c in rentals && c.registration == plates[i] && c.kind == (if i < 10 then Large else Small)
      ensures Available(rentals, Large) == 10 && Available(rentals, Small) == 20
    {
      var m, cars := PopulateMap(plates, startFull);
      rentals := m;
      FleetIsValid(m, cars, plates, startFull);
      forall i | 0 <= i < 30
        ensures exists c :: c in m && c.registration == plates[i] && c.kind == (if i < 10 then Large else Small)
      {
        assert cars[i] in m;
      }
    }

    /** An unrented, distinct-plated fleet keeps the ledger's invariant. */
    static lemma FleetIsValid(m: map<Car, Option<Person>>, cars: seq<Car>, plates: seq<Registration>, full: bool)
      requires IsFleet(m, cars, plates, full, |cars|)
      requires forall i, j :: 0 <= i < j < |plates| ==> plates[i] != plates[j]
      ensures forall c :: c in m ==> c.Valid() && !c.rented && m[c].None?
      ensures forall c, d :: c in m && d in m && c.registration == d.registration ==> c == d
    {
      forall c, d | c in m && d in m && c.registration == d.registration
        ensures c == d
      {
        var i :| 0 <= i < |cars| && cars[i] == c;
        var j :| 0 <= j < |cars| && cars[j] == d;
        assert plates[i] == plates[j];
      }
    }

    /** One more car of the right kind on the next plate extends the fleet. */
    static lemma FleetStep(m: map<Car, Option<Person>>, cars: seq<Car>, plates: seq<Registration>, full: bool,
                           i: int, car: Car)
      requires IsFleet(m, cars, plates, full, i) && i < |plates| && car !in m
      requires car.registration == plates[i] && car.kind == (if i < 10 then Large else Small)
      requires car.capacity == TankCapacity(car.kind) && car.fuel == (if full then car.capacity else 0) && !car.rented
      ensures IsFleet(m[car := None], cars + [car], plates, full, i + 1)
    {
      var m', cars' := m[car := None], cars + [car];
      forall j | 0 <= j < i + 1
        ensures cars'[j] in m' && m'[cars'[j]] == None
      {
        if j < i {
          assert cars'[j] == cars[j];
          assert cars[j] != car;
        }
      }
    }

    /** `populateMap`: ten large cars, then twenty small ones, all on nobody's account. */
    static method PopulateMap(plates: seq<Registration>, startFull: bool)
      returns (m: map<Car, Option<Person>>, ghost cars: seq<Car>)
      requires |plates| == 30
      ensures IsFleet(m, cars, plates, startFull, 30)
      ensures fresh(m.Keys) && |m| == 30
      ensures Available(m, Large) == 10 && Available(m, Small) == 20
    {
      m := map[];
      cars := [];
      var i := 0;
      while i < 30
        invariant 0 <= i <= 30
        invariant IsFleet(m, cars, plates, startFull, i)
        invariant fresh(m.Keys) && |m| == i
        invariant Available(m, Large) == (if i < 10 then i else 10)
        invariant Available(m, Small) == (if i < 10 then 0 else i - 10)
      {
        var made;
        if i < 10 {
          made := NewLargeCar(Some(plates[i]), if startFull then LargeCars.Capacity else 0);
        } else {
          made := NewSmallCar(Some(plates[i]), if startFull then SmallCars.Capacity else 0);
        }
        var car := made.value;
        FleetStep(m, cars, plates, startFull, i, car);
        AvailableAfterInsert(m, car, Large);
        AvailableAfterInsert(m, car, Small);
        m := m[car := None];
        cars := cars + [car];
        i := i + 1;
      }
    }

    /** `availableCars(type)`: the unrented cars of the class, or -1 for any
        other class. */
    method AvailableCars(carClass: CarClass) returns (count: int)
      ensures carClass == OtherClass ==> count == -1
      ensures carClass == LargeCarClass ==> count == Available(rentals, Large)
      ensures carClass == SmallCarClass ==> count == Available(rentals, Small)
    {
      if carClass == OtherClass {
        return -1;
      }
      var kind := if carClass == LargeCarClass then Large else Small;
      count := 0;
      var remaining := rentals.Keys;
      ghost var seen: set<Car> := {};
      while remaining != {}
        invariant seen + remaining == rentals.Keys && seen !! remaining
        invariant count == |AvailableAmong(rentals, seen, kind)|
        decreases |remaining|
      {
        var c :| c in remaining;
        AvailableAmongAdd(rentals, seen, c, kind);
        if rentals[c].None? && c.kind == kind {
          count := count + 1;
        }
        remaining := remaining - {c};
        seen := seen + {c};
      }
    }

    /** `getRentedCars()`: every car marked rented, each once. */
    method GetRentedCars() returns (rented: seq<Car>)
      ensures forall c :: c in rented <==> c in rentals && c.rented
      ensures Valid() ==> forall c :: c in rented <==> c in rentals && rentals[c].Some?
      ensures forall i, j :: 0 <= i < j < |rented| ==> rented[i] != rented[j]
    {
      rented := [];
      var remaining := rentals.Keys;
      while remaining != {}
        invariant remaining <= rentals.Keys
        invariant forall c :: c in rented <==> c in rentals && c !in remaining && c.rented
        invariant forall i, j :: 0 <= i < j < |rented| ==> rented[i] != rented[j]
        decreases |remaining|
      {
        var c :| c in remaining;
        if c.rented {
          rented := rented + [c];
        }
        remaining := remaining - {c};
      }
    }

    /** The car on `person`'s account, if any: the search loop that
        `getCar` and `terminateRental` share. */
    method FindRental(person: Person) returns (found: Car?)
      ensures found == null <==> !IsRenting(person)
      ensures found != null ==> found in rentals && rentals[found] == Some(person)
    {
      found := null;
      var remaining := rentals.Keys;
      while remaining != {} && found == null
        invariant remaining <= rentals.Keys
        invariant found == null ==> forall c :: c in rentals && c !in remaining ==> rentals[c] != Some(person)
        invariant found != null ==> found in rentals && rentals[found] == Some(person)
        decreases |remaining|
      {
        var c :| c in remaining;
        if rentals[c] == Some(person) {
          found := c;
        }
        remaining := remaining - {c};
      }
    }

    /** `getCar(person)`: a missing person is refused, then one who rents
        nothing; otherwise the car on their account. */
    method GetCar(person: Option<Person>) returns (r: Result<Car>)
      ensures person.None? ==> r == Err(IllegalArgument(NullPerson))
      ensures person.Some? && !IsRenting(person.value) ==> r == Err(IllegalArgument(NoRental))
      ensures r.Ok? <==> person.Some? && IsRenting(person.value)
      ensures r.Ok? ==> r.value in rentals && rentals[r.value] == Some(person.value)
    {
      if person.None? {
        return Err(IllegalArgument(NullPerson));
      }
      if !IsRenting(person.value) {
        return Err(IllegalArgument(NoRental));
      }
      var found := FindRental(person.value);
      r := Ok(found);
    }

    /** The loop of `issueCar` that looks for the requested car in the ledger. */
    method FindCandidate(requested: Car) returns (found: Car?)
      ensures found == null <==> !HasCandidate(requested)
      ensures found != null ==> found in rentals && IsCandidate(found, requested)
    {
      found := null;
      var remaining := rentals.Keys;
      while remaining != {} && found == null
        invariant remaining <= rentals.Keys
        invariant found == null ==> forall c :: c in rentals && c !in remaining ==> !IsCandidate(c, requested)
        invariant found != null ==> found in rentals && IsCandidate(found, requested)
        decreases |remaining|
      {
        var c :| c in remaining;
        if IsCandidate(c, requested) {
          found := c;
        }
        remaining := remaining - {c};
      }
    }

    /** `issueCar(person, license, car)` with the clock's date as `now`:
        a missing person, licence or car is refused in that order; otherwise
        the answer is true exactly when every check passes and the ledger
        holds the requested car unrented, and then that car, and only it, is
        marked rented and put on the person's account. The person's own
        licence is the one the licence table files under them. */
    method IssueCar(table: LicenceTable, person: Option<Person>, licence: Option<DrivingLicense>,
                    car: Car?, now: Date)
      returns (r: Result<bool>, ghost issued: Car?)
      requires Valid()
      requires person.Some? ==> person.value in table.licences
      modifies this, rentals.Keys
      ensures Valid()
      ensures person.None? ==> r == Err(IllegalArgument(NullPerson))
      ensures person.Some? && licence.None? ==> r == Err(IllegalArgument(NullLicence))
      ensures person.Some? && licence.Some? && car == null ==> r == Err(IllegalArgument(NullCar))
      ensures person.Some? && licence.Some? && car != null ==>
        r == Ok(old(Eligibility(person.value, licence.value, table.licences[person.value],
                                IsRenting(person.value), car.IsTankFull(), car.kind, now)) == Eligible
                && old(HasCandidate(car)))
      ensures r == Ok(true) ==>
        && issued != null && issued in old(rentals) && old(IsCandidate(issued, car))
        && rentals == old(rentals)[issued := Some(person.value)] && issued.rented
      ensures r != Ok(true) ==> issued == null && rentals == old(rentals)
      ensures forall c :: c in old(rentals) && c != issued ==> c.rented == old(c.rented)
      ensures forall c :: c in old(rentals) ==> c.fuel == old(c.fuel)
    {
      issued := null;
      if person.None? {
        return Err(IllegalArgument(NullPerson)), issued;
      }
      if licence.None? {
        return Err(IllegalArgument(NullLicence)), issued;
      }
      if car == null {
        return Err(IllegalArgument(NullCar)), issued;
      }
      var p := person.value;
      var verdict := Eligibility(p, licence.value, table.licences[p], IsRenting(p), car.IsTankFull(), car.kind, now);
      if verdict != Eligible {
        return Ok(false), issued;
      }
      var found := FindCandidate(car);
      if found == null {
        return Ok(false), issued;
      }
      found.SetRented(true);
      rentals := rentals[found := Some(p)];
      issued := found;
      r := Ok(true);
    }

    /** `terminateRental(person)`: a missing person is refused; one who
        rents nothing gets -1; otherwise their car leaves the ledger, is
        marked not rented, and the litres missing from its tank are returned. */
    method TerminateRental(person: Option<Person>) returns (r: Result<int>, ghost returned: Car?)
      requires Valid()
      modifies this, rentals.Keys
      ensures Valid()
      ensures person.None? ==> r == Err(IllegalArgument(NullPerson)) && rentals == old(rentals)
      ensures person.Some? && !old(IsRenting(person.value)) ==> r == Ok(-1) && rentals == old(rentals)
      ensures person.Some? && old(IsRenting(person.value)) ==>
        && returned != null && returned in old(rentals) && old(rentals)[returned] == Some(person.value)
        && rentals == old(rentals) - {returned} && !returned.rented
        && r == Ok(returned.capacity - returned.fuel) && 0 <= r.value <= returned.capacity
      ensures forall c :: c in old(rentals) && c != returned ==> c.rented == old(c.rented)
      ensures forall c :: c in old(rentals) ==> c.fuel == old(c.fuel)
    {
      returned := null;
      if person.None? {
        return Err(IllegalArgument(NullPerson)), returned;
      }
      var found := FindRental(person.value);
      if found == null {
        return Ok(-1), returned;
      }
      rentals := rentals - {found};
      found.SetRented(false);
      returned := found;
      r := Ok(found.capacity - found.fuel);
    }
  }
}
