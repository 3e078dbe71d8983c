# Car rental: a Dafny model

This project models the core of a small Java car-rental application. A
rental company owns a fleet of thirty cars: ten large cars with 60-litre
tanks and twenty small cars with 49-litre tanks. Each car is identified by a
registration plate such as `NG57 HXE`. Customers are people with a driving
licence. The company's ledger maps every car to the person renting it, or to
nobody, and offers the following operations:

- counting the free cars of a size class;
- listing the rented cars;
- finding a customer's car;
- issuing a car to a customer who passes the eligibility rules: the licence is
  theirs and full; they rent nothing yet; the requested car's tank is full;
  they are old enough; they have held the licence long enough;
- terminating a rental, which reports the litres needed to fill the tank again.

Cars take and give fuel in whole litres and consume it by a rule per size
class. Registrations and licences are obtained through process-wide memo
tables, so the same plate, or the same person, always gets the same object.

The model is organised by source file:

| module | file | form |
|---|---|---|
| `Outcomes` | (exceptions) | `Result`/`Option` and the causes of each `IllegalArgumentException` / `IllegalStateException` |
| `Text` | (Java `String`) | ASCII case mapping, `trim`, `split` on one character, decimal printing, `Boolean.valueOf` |
| `Dates` | (`java.util.Date`, `SimpleDateFormat`, `Period`) | day-precision dates, `dd/MM/yyyy` and `yyyy`, whole years between two dates |
| `Registrations` | `Registration.java` | validated plates; the memo table as a class |
| `SmallCars`, `LargeCars` | `SmallCar.java`, `LargeCar.java` | capacity, consumption rule, printed tag |
| `Cars` | `Car.java`, `AbstractCar.java` | one `Car` class with mutable fuel and rented flag, its size as a tag |
| `Persons` | `Person.java` | the constructor's checks and the person value |
| `Licences` | `DrivingLicense.java` | licence values; the licence memo table as a class |
| `PersonCodec` | `Person.java` | construction with a licence, `toString`, `valueOf` |
| `Rental` | `RentalManagement.java` | the ledger as a class over `map<Car, Option<Person>>` |
| `Scenarios` | the unit tests | the situations the tests set up, replayed with assertions |

Java `null` arguments that the source checks become `Option` arguments, or
`Car?` for a car. Exceptions become `Err` results. A method that changes
state states its whole new state in terms of a specification function on the
old one, and the properties are proved about those functions.

These behaviours are fixed by the code rather than by its comments or tests:

- `setRented` is declared in `Car.java` but implemented by no class shown. It
  is modelled as the plain assignment its name describes.
- A new car starts with an empty tank (`AbstractCar.java:37`), but the tests
  expect a full one. The car constructor therefore takes the initial fuel as
  a parameter, and the ledger constructor takes a flag: empty tanks as
  written, or full tanks as the tests expect.
- A small car needs its licence held for one year (`RentalManagement.java:187`).
  The method's comment gives a higher figure.
- Terminating a rental removes the car from the ledger, as the code's
  `iterator.remove()` does. So the fleet shrinks, and the count of free cars
  does not grow back.

The clock (`LocalDate.now()`) is a `now: Date` parameter of `IssueCar`. The
customer's age and the years the licence has been held are computed from it
by `Dates.YearsBetween`, which follows `Period.between(..).getYears()`. The
two random digits of a licence serial are parameters wherever a licence can
be issued. `RegistrationGenerator`'s thirty plates are a parameter of the
ledger constructor. `Scenarios.GeneratorPlates` lists them in the
generator's order.

## Model

| member | source | states |
|---|---|---|
| Registrations.Make | src/uk/ac/ncl/jcarlton/objects/Registration.java:40-56 | the constructor succeeds exactly when the prefix is two letters and two digits and the suffix three letters, in any case; a bad prefix is reported before a bad suffix; the stored components are the upper-cased arguments and form a canonical plate |
| Registrations.UpperKeepsShapes | src/uk/ac/ncl/jcarlton/objects/Registration.java:42-55 | upper-casing neither makes nor breaks either pattern |
| Registrations.ToString | src/uk/ac/ncl/jcarlton/objects/Registration.java:84-86 | a stored plate prints as eight characters, prefix, one space, suffix, and that space is its only blank, so both components can be read back |
| Registrations.KeyOfCanonical | src/uk/ac/ncl/jcarlton/objects/Registration.java:69 | a memo key that spells a stored plate comes from well-shaped arguments that upper-case to that plate's components |
| Registrations.MemoIsTransparent | src/uk/ac/ncl/jcarlton/objects/Registration.java:68-78 | with a consistent table, `getInstance` returns exactly what the constructor would make of its arguments |
| Registrations.SameKeySameRegistration | src/uk/ac/ncl/jcarlton/objects/Registration.java:68-78 | arguments that differ only in case yield the same registration |
| Registrations.RememberKeepsMemo | src/uk/ac/ncl/jcarlton/objects/Registration.java:72-74 | filing a new registration keeps every entry canonical and filed under its printed form |
| Registrations.RegistrationTable.GetInstance | src/uk/ac/ncl/jcarlton/objects/Registration.java:68-78 | the answer is the constructor's; a refused plate leaves the table unchanged; an accepted one is filed under the upper-cased key; the table stays consistent |
| SmallCars.Consumption | src/uk/ac/ncl/jcarlton/objects/SmallCar.java:49-53 | a trip requests one litre per whole 20 km: `litres*20 <= km < (litres+1)*20` |
| SmallCars.ConsumptionMonotone | src/uk/ac/ncl/jcarlton/objects/SmallCar.java:49-50 | a longer trip never requests less fuel |
| LargeCars.Consumption | src/uk/ac/ncl/jcarlton/objects/LargeCar.java:55-79 | one litre per whole 10 km up to 50 km; beyond 50 km the first 5 litres plus one per whole 15 km of the excess, and at least one litre for any excess |
| LargeCars.ConsumptionMonotone | src/uk/ac/ncl/jcarlton/objects/LargeCar.java:55-79 | a longer trip never requests less fuel, across the 50 km threshold too |
| Cars.Refill | src/uk/ac/ncl/jcarlton/objects/AbstractCar.java:77-95 | refilling gives the sum clamped to the capacity, and reports exactly the litres that went in, between 0 and the amount |
| Cars.Drain | src/uk/ac/ncl/jcarlton/objects/AbstractCar.java:101-115 | draining leaves the level less the amount, or empty if the amount is more; it reports exactly the litres that came out, never more than the level held |
| Cars.RefillFullTank | src/uk/ac/ncl/jcarlton/objects/AbstractCar.java:82-83 | a full tank takes nothing |
| Cars.RefillEnoughFills | src/uk/ac/ncl/jcarlton/objects/AbstractCar.java:85-90 | an amount at least the missing litres fills the tank and reports the missing litres |
| Cars.RefillAsWritten | src/uk/ac/ncl/jcarlton/objects/AbstractCar.java:77-95 | `addFuel` with 32-bit `int` arithmetic equals `Refill` whenever the level plus the amount fits in an `int` |
| Cars.RefillAsWrittenOverflows | src/uk/ac/ncl/jcarlton/objects/AbstractCar.java:85-94 | 10 litres plus `Integer.MAX_VALUE` as written gives a negative level, where `Refill` fills the tank with 39 |
| Cars.Car.constructor | src/uk/ac/ncl/jcarlton/objects/AbstractCar.java:29-39 | a new car has the given plate, size and the size's capacity, the initial fuel, and is not rented |
| Cars.NewCar | src/uk/ac/ncl/jcarlton/objects/AbstractCar.java:29-39 | a missing registration is refused, then any capacity but 49 or 60; otherwise a fresh, unrented, sound car whose capacity is its size class's |
| Cars.NewSmallCar | src/uk/ac/ncl/jcarlton/objects/SmallCar.java:25-27 | succeeds exactly when a registration is given; the car is small with a 49-litre tank |
| Cars.NewLargeCar | src/uk/ac/ncl/jcarlton/objects/LargeCar.java:27-29 | succeeds exactly when a registration is given; the car is large with a 60-litre tank |
| Cars.Car.AddFuel | src/uk/ac/ncl/jcarlton/objects/AbstractCar.java:77-95 | a negative amount is refused with the tank unchanged; otherwise the new level and the answer are those of `Refill`, and a full tank answers 0; the level stays within the tank |
| Cars.Car.UseFuel | src/uk/ac/ncl/jcarlton/objects/AbstractCar.java:101-115 | a negative amount is refused with the tank unchanged; otherwise the new level and the answer are those of `Drain` |
| Cars.Car.Drive | src/uk/ac/ncl/jcarlton/objects/SmallCar.java:36-54 | a negative distance, then an empty tank, then an unrented car are refused with the tank unchanged; otherwise the car's consumption for the distance is drained and reported (the same for `LargeCar.java:40-80`) |
| Cars.Car.SetRented | src/uk/ac/ncl/jcarlton/objects/Car.java:87 | the flag becomes the argument |
| Cars.Car.RentCar | src/uk/ac/ncl/jcarlton/objects/AbstractCar.java:121-123 | the car is marked rented |
| Cars.Car.Describe | src/uk/ac/ncl/jcarlton/objects/SmallCar.java:60-62 | the printed text of a car with a stored plate reads back, by an independent reader of `LLDD LLL (S)` / `LLDD LLL (L)`, to exactly its plate and its size (the same `toString` as `LargeCar.java:86-88`) |
| Cars.DescriptionsDiffer | src/uk/ac/ncl/jcarlton/objects/LargeCar.java:86-88 | two cars with stored plates print alike only when they have the same plate and the same size; a small and a large car never print alike |
| Cars.Car.IsTankFull | src/uk/ac/ncl/jcarlton/objects/AbstractCar.java:69-71 | a sound car's tank is full exactly when it takes no more fuel |
| Dates.Format | src/uk/ac/ncl/jcarlton/objects/Person.java:111-112 | a printed date is made of digits and slashes only |
| Dates.ParseFormat | src/uk/ac/ncl/jcarlton/objects/Person.java:111-128 | parsing a printed `dd/MM/yyyy` date gives the date back |
| Dates.ParseYearIgnoresZeros | src/uk/ac/ncl/jcarlton/objects/Person.java:132-139 | leading zeros do not change the year `yyyy` reads, nor whether it reads one |
| Dates.ParseYearOfYear | src/uk/ac/ncl/jcarlton/objects/DrivingLicense.java:72-76 | the printed year of a date parses back to 1 January of that year |
| Dates.YearsBetween | src/uk/ac/ncl/jcarlton/app/RentalManagement.java:174-187 | the whole years from a date to a later one are never negative, and to an earlier one never positive |
| Dates.YearsAtLeast | src/uk/ac/ncl/jcarlton/app/RentalManagement.java:165-187 | at least k whole years have passed exactly when the k-th anniversary of the start is on or before the end date |
| Dates.YearsBetweenSame | src/uk/ac/ncl/jcarlton/app/RentalManagement.java:174 | no whole year lies between a date and itself |
| Text.TrimIsTrimmed | src/uk/ac/ncl/jcarlton/objects/Person.java:36-45 | `trim` leaves no blank at either end, and is empty exactly when the string is all blanks |
| Text.TrimIdempotent | src/uk/ac/ncl/jcarlton/objects/Person.java:44-45 | trimming twice is trimming once |
| Text.SplitJoin | src/uk/ac/ncl/jcarlton/objects/Person.java:123-131 | splitting separator-free parts, joined by the separator and ending in a non-empty part, gives the parts back |
| Text.ParseBooleanOfString | src/uk/ac/ncl/jcarlton/objects/Person.java:138 | `Boolean.valueOf` reads back the printed flag |
| Text.NatToStringValue | src/uk/ac/ncl/jcarlton/objects/DrivingLicense.java:140 | a printed number reads back as the number |
| Persons.Check | src/uk/ac/ncl/jcarlton/objects/Person.java:35-46 | a missing or blank first name, then last name, then a missing birth date are refused, in that order; otherwise the person holds the trimmed names and is well formed |
| Persons.BlankNamesRefused | src/uk/ac/ncl/jcarlton/objects/Person.java:36-37 | an all-blank first name is refused whatever else is given |
| Persons.CheckOfWellFormed | src/uk/ac/ncl/jcarlton/objects/Person.java:44-46 | a well-formed person is rebuilt unchanged from its own fields |
| Persons.CheckIgnoresPadding | src/uk/ac/ncl/jcarlton/objects/Person.java:44 | blank padding around the first name does not change the person made |
| Licences.ProcessName | src/uk/ac/ncl/jcarlton/objects/DrivingLicense.java:125-130 | two characters: the upper-cased initials of the first and last name |
| Licences.Serial | src/uk/ac/ncl/jcarlton/objects/DrivingLicense.java:136-141 | two digits that read back as 10 times the first draw plus the second |
| Licences.Issue | src/uk/ac/ncl/jcarlton/objects/DrivingLicense.java:60-65 | the table gains the person if absent, with a new licence of their initials, the date, the serial and the flag; every filed licence is kept |
| Licences.IssueKeepsValid | src/uk/ac/ncl/jcarlton/objects/DrivingLicense.java:34-40 | after issuing, every filed licence belongs to the person it is filed under, and the person's licence is theirs |
| Licences.IssueIdempotent | src/uk/ac/ncl/jcarlton/objects/DrivingLicense.java:61-65 | asking again, with any date, flag or serial, changes nothing |
| Licences.ToString | src/uk/ac/ncl/jcarlton/objects/DrivingLicense.java:72-76 | beyond the initials, a printed licence holds only dashes, digits and lower-case letters |
| Licences.ToStringIsJoin | src/uk/ac/ncl/jcarlton/objects/DrivingLicense.java:72-76 | the printed licence is its four fields joined by dashes |
| Licences.ToStringFields | src/uk/ac/ncl/jcarlton/objects/DrivingLicense.java:72-76 | the printed licence splits on dashes into initials, year, serial and flag |
| Licences.LicenceTable.constructor | src/uk/ac/ncl/jcarlton/objects/DrivingLicense.java:20 | the table starts empty and consistent |
| Licences.LicenceTable.GetInstance | src/uk/ac/ncl/jcarlton/objects/DrivingLicense.java:51-66 | a missing person, then a missing date, are refused with the table unchanged; otherwise the table is `Issue` of the old one and the answer is the person's filed licence, the old one if they had one |
| PersonCodec.NewPerson | src/uk/ac/ncl/jcarlton/objects/Person.java:35-48 | the person checks first, then the licence table's refusal of a missing issue date; a person let through owns the licence filed under them |
| PersonCodec.ReadFields | src/uk/ac/ncl/jcarlton/objects/Person.java:119-139 | reading can only fail with an out-of-bounds index or a parse failure, and a text without a space is out of bounds |
| PersonCodec.Decode | src/uk/ac/ncl/jcarlton/objects/Person.java:119-145 | a missing or empty text is refused; any person read is well formed |
| PersonCodec.DecodeTable | src/uk/ac/ncl/jcarlton/objects/Person.java:133-142 | a failed read leaves the licence table alone; a successful one adds the person if absent and keeps every filed licence |
| PersonCodec.ValueOf | src/uk/ac/ncl/jcarlton/objects/Person.java:119-145 | the answer is `Decode` of the text and the licence table after it is `DecodeTable` |
| PersonCodec.LicenceOmits | src/uk/ac/ncl/jcarlton/objects/DrivingLicense.java:72-76 | a printed licence holds only initials, dashes, digits and lower-case letters |
| PersonCodec.DateOmits | src/uk/ac/ncl/jcarlton/objects/Person.java:111-112 | a printed date holds no character other than digits and slashes |
| PersonCodec.InitialsFree | src/uk/ac/ncl/jcarlton/objects/DrivingLicense.java:125-130 | the initials of a printable person hold no space, colon or dash |
| PersonCodec.ToString | src/uk/ac/ncl/jcarlton/objects/Person.java:110-113 | for a person whose names hold no separator, the first space is the only one, so splitting on spaces gives the first name and the rest |
| PersonCodec.SplitOnColon | src/uk/ac/ncl/jcarlton/objects/Person.java:124 | the second split gives the last name, the birth date and the licence |
| PersonCodec.ReadFieldsToString | src/uk/ac/ncl/jcarlton/objects/Person.java:110-139 | reading a printed person gives back its names, birth date and licence flag, with 1 January of the year of issue |
| PersonCodec.DecodeToString | src/uk/ac/ncl/jcarlton/objects/Person.java:110-145 | `valueOf(toString())` is the same person, for every person whose names hold no separator |
| PersonCodec.DecodeTableToString | src/uk/ac/ncl/jcarlton/objects/Person.java:133-142 | reading back a person who already holds a licence files nothing new |
| Rental.Eligibility | src/uk/ac/ncl/jcarlton/app/RentalManagement.java:149-220 | each verdict holds exactly when every earlier check passes and its own fails, in the order: the licence is the person's, they rent nothing, their own licence is full, the requested tank is full, their age reaches 20 (small) or 25 (large), the years held reach 1 or 5; eligible exactly when all pass |
| Rental.EligibleOnCalendar | src/uk/ac/ncl/jcarlton/app/RentalManagement.java:165-220 | the same rule stated with birthdays and licence anniversaries on the calendar |
| Rental.AvailableAmongAdd | src/uk/ac/ncl/jcarlton/app/RentalManagement.java:44-53 | looking at one more car adds one to the count exactly when it is free and of the class |
| Rental.AvailableAfterInsert | src/uk/ac/ncl/jcarlton/app/RentalManagement.java:286-293 | a new car on nobody's account adds one to the count of its class only |
| Rental.AvailableAfterIssue | src/uk/ac/ncl/jcarlton/app/RentalManagement.java:197-200 | issuing a free car takes one from the count of its class only |
| Rental.AvailableAfterTerminate | src/uk/ac/ncl/jcarlton/app/RentalManagement.java:263-265 | removing a rented car changes no count |
| Rental.RentalManagement.constructor | src/uk/ac/ncl/jcarlton/app/RentalManagement.java:27-29 | thirty fresh cars, all free, with the initial fuel; each plate gets a car, large for the first ten and small after; counts of 10 and 20; the ledger invariant holds |
| Rental.RentalManagement.FleetIsValid | src/uk/ac/ncl/jcarlton/app/RentalManagement.java:281-296 | a fleet built on distinct plates is sound, unrented, and has distinct registrations |
| Rental.RentalManagement.FleetStep | src/uk/ac/ncl/jcarlton/app/RentalManagement.java:286-293 | adding the next plate's car keeps the fleet description |
| Rental.RentalManagement.PopulateMap | src/uk/ac/ncl/jcarlton/app/RentalManagement.java:281-296 | ten large cars then twenty small ones, fresh and on nobody's account, with counts 10 and 20 |
| Rental.RentalManagement.AvailableCars | src/uk/ac/ncl/jcarlton/app/RentalManagement.java:41-59 | the number of free cars of the class, or -1 for any other class |
| Rental.RentalManagement.GetRentedCars | src/uk/ac/ncl/jcarlton/app/RentalManagement.java:67-74 | exactly the ledger cars marked rented, each once; on a consistent ledger those are exactly the cars on someone's account |
| Rental.RentalManagement.FindRental | src/uk/ac/ncl/jcarlton/app/RentalManagement.java:92-98 | finds nothing exactly when the person rents nothing, otherwise the car on their account |
| Rental.RentalManagement.GetCar | src/uk/ac/ncl/jcarlton/app/RentalManagement.java:86-100 | a missing person is refused, then one who rents nothing; otherwise the car on their account |
| Rental.RentalManagement.FindCandidate | src/uk/ac/ncl/jcarlton/app/RentalManagement.java:188-195 | finds nothing exactly when no free car of the requested class has its plate; otherwise such a car |
| Rental.RentalManagement.IssueCar | src/uk/ac/ncl/jcarlton/app/RentalManagement.java:136-241 | a missing person, licence or car is refused in that order; otherwise the answer is true exactly when the person is eligible and the requested car is free in the ledger; then that car alone is marked rented and put on their account; otherwise nothing changes; no fuel changes; the ledger invariant is kept |
| Rental.RentalManagement.TerminateRental | src/uk/ac/ncl/jcarlton/app/RentalManagement.java:256-274 | a missing person is refused; one who rents nothing gets -1 with nothing changed; otherwise their car leaves the ledger, is no longer rented, and the litres missing from its tank are returned; the invariant is kept |
| Scenarios.GeneratorPlatesDistinct | src/uk/ac/ncl/jcarlton/util/RegistrationGenerator.java:26-59 | the generator's thirty plates are pairwise distinct, as the ledger constructor needs |
| Scenarios.TestPersonEligible | src/uk/ac/ncl/jcarlton/testing/app/RentalManagementTest.java:38-62 | the test customer is eligible for a small car on 1 March 2016 |
| Scenarios.IssueTestCar | src/uk/ac/ncl/jcarlton/testing/app/RentalManagementTest.java:36-63 | after the test's set-up the customer rents SE61 RLU, which has a full tank, and 19 small and 10 large cars are free |
| Scenarios.TestLicenceText | src/uk/ac/ncl/jcarlton/testing/objects/DrivingLicenseTest.java:49-53 | the test licence prints as "JC-2011-", its serial, "-true" |

The other methods of `Scenarios` replay further unit tests by assertion:

- `SmallCarTest`: the fuel and drive tests;
- `LargeCarTest`: drive 20 km and 60 km;
- `RegistrationTest`: shapes and case;
- `RentalManagementTest`: counts after issuing, getting and returning the
  test car, null arguments, and a second request;
- `PersonTest.testValueOf`.

`Scenarios.EmptyRequestRefused` shows what the code itself does with the
test's set-up: a requested car built with the empty tank of
`AbstractCar.java:37` is refused.

## Left out

- I/O, `LocalDate.now()` and `java.util.Random`: they are parameters (`now`, the two serial draws).
- `Cars.Car.AddFuel`: follows `Refill`, the intended unbounded arithmetic, rather than the 32-bit wrap-around of the code; see Findings, where `Cars.RefillAsWritten` models the code as written.
- `Date` at millisecond precision and time zones: dates are day, month and year, and two `Date`s are equal exactly when these are.
- `SimpleDateFormat` leniency: parsing is strict, and text after a parsed date is not accepted.
- `hashCode`, `HashMap` iteration order and `getRentedCars` list order: the ledger is a `map` and is searched in no fixed order, which none of the contracts depends on.
- Unicode case mapping and Unicode `trim`: only ASCII letters change case, and `trim` removes the characters up to U+0020.
- `NullPointerException` on a null registration component or a null `valueOf` piece: registration components are plain strings, and only the null checks the code makes are modelled.
- Car classes other than `SmallCar` and `LargeCar` (the final `return false` of `issueCar`, and the `else` of `availableCars` beyond `OtherClass`): the model has only the two sizes.
- `Person.getAge`: private and never called.
- `Person.getLicense`: the licence is read from the licence table under the person, since `LICENSE_MAP` is never cleared.
- `RegistrationGenerator`: replaced by the `plates` parameter, with its list in `Scenarios.GeneratorPlates`.
- The three-argument `Registration.getInstance` the registration tests call: it is not in the source.
- Rental.RentalManagement.GetRentedCars, Rental.RentalManagement.IssueCar, Rental.RentalManagement.TerminateRental: the ledger invariant assumes that a car's rented flag changes only through the ledger. In Java, `setRented` is public and cars escape through `getCar` and `getRentedCars`. After `getCar(p).setRented(false)`, `issueCar` would hand the car to a second person and overwrite `p`'s entry. The model does not capture this state.
- Static memo tables: `RegistrationTable` and `LicenceTable` are objects passed to their users.

## Findings

| source | as written | input that shows it | evidently intended | confidence | as-written member | corrected member |
|---|---|---|---|---|---|---|
| src/uk/ac/ncl/jcarlton/objects/AbstractCar.java:85-94 | `currentFuelLevel + fuelAmount` is computed in 32-bit `int`, so for a large amount the overspill check wraps negative and the whole amount is added | a small car holding 10 litres, `addFuel(Integer.MAX_VALUE)`: the level becomes -2147483639 and 2147483647 is reported | the tank is filled to 49 and 39 is reported | high, not executed | Cars.RefillAsWrittenOverflows | Cars.Refill |
