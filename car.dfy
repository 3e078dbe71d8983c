/** One rental car (`Car.java`, `AbstractCar.java`): a registration, a tank
    of whole litres that holds between nothing and its capacity, and a
    rented flag. The two size classes differ only in capacity, consumption
    rule and printed tag, so one class carries the size as a tag and
    dispatches on it. */
module Cars {
  import opened Outcomes
  import opened Registrations
  import SmallCars
  import LargeCars

  /** `SmallCar` or `LargeCar`. */
  datatype Kind = Small | Large

  function TankCapacity(kind: Kind): int
  {
    match kind
    case Small => SmallCars.Capacity
    case Large => LargeCars.Capacity
  }

  /** What `toString` prints after the plate, by size class. */
  function Tag(kind: Kind): string
  {
    match kind
    case Small => SmallCars.Tag
    case Large => LargeCars.Tag
  }

  /** What a car's printed text tells a reader: its plate and its size. */
  datatype Described = Described(registration: Registration, kind: Kind)

  /** Reads a car's printed text `LLDD LLL (S)` or `LLDD LLL (L)` back into
      its plate and size; any other text says nothing. */
  function ReadDescription(s: string): Option<Described>
  {
    if |s| == 12 && s[4] == ' ' && s[8..] == SmallCars.Tag then
      Some(Described(Registration(s[..4], s[5..8]), Small))
    else if |s| == 12 && s[4] == ' ' && s[8..] == LargeCars.Tag then
      Some(Described(Registration(s[..4], s[5..8]), Large))
    else None
  }

  /** The litres a trip requests, by the rule of the car's size class. */
  function Consumption(kind: Kind, km: int): (litres: int)
    requires km >= 0
    ensures litres >= 0
  {
    match kind
    case Small => SmallCars.Consumption(km)
    case Large => LargeCars.Consumption(km)
  }

  /** The tank level after a fuel operation and the litres it moved. */
  datatype Transfer = Transfer(level: int, moved: int)

  /** `addFuel` of a non-negative amount: nothing on a full tank, otherwise
      the amount, less whatever would spill over the capacity. The result is
      the clamped sum, and what is reported is exactly what went in. */
  function Refill(level: int, capacity: int, amount: int): (t: Transfer)
    requires 0 <= level <= capacity && amount >= 0
    ensures t.level == if level + amount <= capacity then level + amount else capacity
    ensures t.moved == t.level - level
    ensures 0 <= t.moved <= amount && level <= t.level <= capacity
  {
    if level == capacity then Transfer(level, 0)
    else
      var overSpillCheck := level + amount;
      if overSpillCheck > capacity then
        var overspill := overSpillCheck - capacity;
        var amountAdd := amount - overspill;
        Transfer(level + amountAdd, amountAdd)
      else Transfer(level + amount, amount)
  }

  /** `useFuel` of a non-negative amount: the amount when the tank holds
      enough, otherwise all that is left. The tank never goes below empty and
      what is reported is exactly what came out. */
  function Drain(level: int, amount: int): (t: Transfer)
    requires level >= 0 && amount >= 0
    ensures t.level == if amount <= level then level - amount else 0
    ensures t.moved == level - t.level
    ensures 0 <= t.level <= level && 0 <= t.moved <= amount
  {
    var overUsed := level - amount;
    if overUsed < 0 then Transfer(0, level)
    else
      var previous := level;
      var current := level - amount;
      Transfer(current, previous - current)
  }

  /** A value of Java's `int`. */
  predicate IsInt32(x: int)
  {
    -0x8000_0000 <= x < 0x8000_0000
  }

  /** Java `int` arithmetic: the exact result wrapped into 32 bits. */
  function Wrap32(x: int): (r: int)
    ensures IsInt32(r) && (r - x) % 0x1_0000_0000 == 0
    ensures IsInt32(x) ==> r == x
  {
    var m := x % 0x1_0000_0000;
    if m >= 0x8000_0000 then m - 0x1_0000_0000 else m
  }

  /** `addFuel` of a non-negative `int` amount exactly as written, every
      sum and difference taken in 32 bits. Whenever the sum of the level
      and the amount fits in an `int`, it is `Refill`. */
  function RefillAsWritten(level: int, capacity: int, amount: int): (t: Transfer)
    requires 0 <= level <= capacity && IsInt32(capacity) && 0 <= amount && IsInt32(amount)
    ensures IsInt32(level + amount) ==> t == Refill(level, capacity, amount)
  {
    if level == capacity then Transfer(level, 0)
    else
      var overSpillCheck := Wrap32(level + amount);
      if overSpillCheck > capacity then
        var overspill := Wrap32(overSpillCheck - capacity);
        var amountAdd := Wrap32(amount - overspill);
        Transfer(Wrap32(level + amountAdd), amountAdd)
      else Transfer(Wrap32(level + amount), amount)
  }

  /** With 10 litres in a 49-litre tank, `addFuel(Integer.MAX_VALUE)` as
      written overflows: the level becomes negative and the whole amount is
      reported as added, where the intended refill fills the tank with 39. */
  lemma RefillAsWrittenOverflows()
    ensures RefillAsWritten(10, 49, 0x7FFF_FFFF) == Transfer(-0x7FFF_FFF7, 0x7FFF_FFFF)
    ensures Refill(10, 49, 0x7FFF_FFFF) == Transfer(49, 39)
  {
    assert Wrap32(10 + 0x7FFF_FFFF) == -0x7FFF_FFF7;
  }

  /** Filling up a full tank takes nothing and changes nothing. */
  lemma RefillFullTank(capacity: int, amount: int)
    requires capacity >= 0 && amount >= 0
    ensures Refill(capacity, capacity, amount) == Transfer(capacity, 0)
  {
  }

  /** A refill of at least the missing litres fills the tank. */
  lemma RefillEnoughFills(level: int, capacity: int, amount: int)
    requires 0 <= level <= capacity && amount >= capacity - level
    ensures Refill(level, capacity, amount) == Transfer(capacity, capacity - level)
  {
  }

  class Car {
    const registration: Registration
    const kind: Kind
    const capacity: int
    var fuel: int
    var rented: bool

    /** The tank is the size class's and holds between nothing and its capacity. */
    ghost predicate Valid()
      reads this
    {
      && capacity == TankCapacity(kind)
      && 0 <= fuel <= capacity
    }

    /** The constructor once its checks have passed; the initial fuel is a
        parameter (see `NewCar`). */
    constructor (registration: Registration, kind: Kind, tankCapacity: int, initialFuel: int)
      requires tankCapacity == TankCapacity(kind)
      requires 0 <= initialFuel <= tankCapacity
      ensures Valid()
      ensures this.registration == registration && this.kind == kind
      ensures capacity == tankCapacity && fuel == initialFuel && !rented
    {
      this.registration := registration;
      this.kind := kind;
      this.capacity := tankCapacity;
      this.fuel := initialFuel;
      this.rented := false;
    }

    /** `isTankFull()`: a full tank is exactly one that takes no more fuel. */
    function IsTankFull(): (full: bool)
      reads this
      ensures Valid() ==> (full <==> Refill(fuel, capacity, 1).moved == 0)
    {
      fuel == capacity
    }

    /** `addFuel(amount)`: a negative amount is refused before anything
        changes; otherwise the tank takes what fits and reports it. */
    method AddFuel(amount: int) returns (r: Result<int>)
      requires Valid()
      modifies this`fuel
      ensures Valid()
      ensures amount < 0 ==> r == Err(IllegalArgument(NegativeFuel)) && fuel == old(fuel)
      ensures amount >= 0 ==> var t := Refill(old(fuel), capacity, amount);
        r == Ok(t.moved) && fuel == t.level
      ensures amount >= 0 && old(fuel) == capacity ==> r == Ok(0) && fuel == old(fuel)
    {
      if amount < 0 {
        return Err(IllegalArgument(NegativeFuel));
      }
      if IsTankFull() {
        return Ok(0);
      }
      var overSpillCheck := fuel + amount;
      if overSpillCheck > capacity {
        var overspill := overSpillCheck - capacity;
        var amountAdd := amount - overspill;
        fuel := fuel + amountAdd;
        return Ok(amountAdd);
      }
      fuel := fuel + amount;
      r := Ok(amount);
    }

    /** `useFuel(amount)`: a negative amount is refused before anything
        changes; otherwise the tank gives what it has, up to the amount. */
    method UseFuel(amount: int) returns (r: Result<int>)
      requires Valid()
      modifies this`fuel
      ensures Valid()
      ensures amount < 0 ==> r == Err(IllegalArgument(NegativeFuel)) && fuel == old(fuel)
      ensures amount >= 0 ==> var t := Drain(old(fuel), amount);
        r == Ok(t.moved) && fuel == t.level
    {
      if amount < 0 {
        return Err(IllegalArgument(NegativeFuel));
      }
      var overUsed := fuel - amount;
      if overUsed < 0 {
        var previousFuelLevel := fuel;
        fuel := 0;
        return Ok(previousFuelLevel);
      }
      var previous := fuel;
      fuel := fuel - amount;
      r := Ok(previous - fuel);
    }

    /** `drive(km)`, the same for both sizes but for the consumption rule:
        a negative distance, then an empty tank, then a car not rented are
        refused, each before anything changes; otherwise the trip's litres are
        taken out with `useFuel` and its result is returned. */
    method Drive(km: int) returns (r: Result<int>)
      requires Valid()
      modifies this`fuel
      ensures Valid()
      ensures km < 0 ==> r == Err(IllegalArgument(NegativeDistance)) && fuel == old(fuel)
      ensures km >= 0 && old(fuel) < 1 ==> r == Err(IllegalState(NoFuel)) && fuel == old(fuel)
      ensures km >= 0 && old(fuel) >= 1 && !rented ==>
        r == Err(IllegalState(NotRented)) && fuel == old(fuel)
      ensures km >= 0 && old(fuel) >= 1 && rented ==>
        var t := Drain(old(fuel), Consumption(kind, km)); r == Ok(t.moved) && fuel == t.level
    {
      if km < 0 {
        return Err(IllegalArgument(NegativeDistance));
      }
      if fuel < 1 {
        return Err(IllegalState(NoFuel));
      }
      if !rented {
        return Err(IllegalState(NotRented));
      }
      var litres := Consumption(kind, km);
      r := UseFuel(litres);
    }

    /** `setRented(rent)`: a plain assignment of the flag. */
    method SetRented(rent: bool)
      modifies this`rented
      ensures rented == rent
    {
      rented := rent;
    }

    /** `rentCar()`. */
    method RentCar()
      modifies this`rented
      ensures rented
    {
      rented := true;
    }

    /** `toString` (`SmallCar` and `LargeCar` alike): the plate followed
        by the tag of the size class. A stored plate and the size are read
        back from the text. */
    function Describe(): (s: string)
      ensures IsCanonical(registration) ==> ReadDescription(s) == Some(Described(registration, kind))
    {
      var s := Registrations.ToString(registration) + Tag(kind);
      if IsCanonical(registration) then
        var plate := Registrations.ToString(registration);
        assert s[..8] == plate && s[8..] == Tag(kind);
        assert s[..4] == plate[..4] && s[5..8] == plate[5..];
        s
      else s
    }
  }

  /** Two cars with stored plates print alike only when they have the same
      plate and the same size. */
  lemma DescriptionsDiffer(c1: Car, c2: Car)
    requires IsCanonical(c1.registration) && IsCanonical(c2.registration)
    requires c1.Describe() == c2.Describe()
    ensures c1.registration == c2.registration && c1.kind == c2.kind
  {
  }

  /** The `AbstractCar` constructor: a missing registration is refused,
      then any capacity but 49 or 60. A new car is not rented and holds the
      initial fuel. */
  method NewCar(registration: Option<Registration>, kind: Kind, tankCapacity: int, initialFuel: int)
    returns (r: Result<Car>)
    requires 0 <= initialFuel
    requires tankCapacity == SmallCars.Capacity || tankCapacity == LargeCars.Capacity ==>
      tankCapacity == TankCapacity(kind) && initialFuel <= tankCapacity
    ensures registration.None? ==> r == Err(IllegalArgument(NullRegistration))
    ensures registration.Some? && tankCapacity != SmallCars.Capacity && tankCapacity != LargeCars.Capacity ==>
      r == Err(IllegalArgument(BadTankCapacity))
    ensures r.Ok? <==> (registration.Some? &&
      (tankCapacity == SmallCars.Capacity || tankCapacity == LargeCars.Capacity))
    ensures r.Ok? ==> (fresh(r.value) && r.value.Valid() && r.value.registration == registration.value
      && r.value.kind == kind && r.value.capacity == tankCapacity
      && r.value.fuel == initialFuel && !r.value.rented)
  {
    if registration.None? {
      return Err(IllegalArgument(NullRegistration));
    }
    if tankCapacity != SmallCars.Capacity && tankCapacity != LargeCars.Capacity {
      return Err(IllegalArgument(BadTankCapacity));
    }
    var car := new Car(registration.value, kind, tankCapacity, initialFuel);
    r := Ok(car);
  }

  /** `new SmallCar(registration)`: the constructor with a 49-litre tank. */
  method NewSmallCar(registration: Option<Registration>, initialFuel: int) returns (r: Result<Car>)
    requires 0 <= initialFuel <= SmallCars.Capacity
    ensures r.Ok? <==> registration.Some?
    ensures r.Err? ==> r.error == IllegalArgument(NullRegistration)
    ensures r.Ok? ==> (fresh(r.value) && r.value.Valid() && r.value.registration == registration.value
      && r.value.kind == Small && r.value.capacity == SmallCars.Capacity
      && r.value.fuel == initialFuel && !r.value.rented)
  {
    r := NewCar(registration, Small, SmallCars.Capacity, initialFuel);
  }

  /** `new LargeCar(registration)`: the constructor with a 60-litre tank. */
  method NewLargeCar(registration: Option<Registration>, initialFuel: int) returns (r: Result<Car>)
    requires 0 <= initialFuel <= LargeCars.Capacity
    ensures r.Ok? <==> registration.Some?
    ensures r.Err? ==> r.error == IllegalArgument(NullRegistration)
    ensures r.Ok? ==> (fresh(r.value) && r.value.Valid() && r.value.registration == registration.value
      && r.value.kind == Large && r.value.capacity == LargeCars.Capacity
      && r.value.fuel == initialFuel && !r.value.rented)
  {
    r := NewCar(registration, Large, LargeCars.Capacity, initialFuel);
  }
}
