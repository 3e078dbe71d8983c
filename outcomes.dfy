/** The exceptions the rental system throws, as values.
    Every Java `throw` of the modelled code becomes an `Err` carrying the
    exception class and the check that raised it; callers see the check's
    identity the way a Java caller sees the exception message. */
module Outcomes {

  /** Which check raised the exception. */
  datatype Cause =
    | NegativeFuel           // addFuel / useFuel with a negative amount
    | NegativeDistance       // drive with a negative number of kilometres
    | NoFuel                 // drive with an empty tank
    | NotRented              // drive a car that has not been rented
    | NullRegistration       // car built without a registration
    | BadTankCapacity        // tank capacity other than 49 or 60
    | BadFirstComponent      // registration prefix not two letters and two digits
    | EmptyFirstComponent    // registration prefix blank
    | BadSecondComponent     // registration suffix not three letters
    | EmptySecondComponent   // registration suffix blank
    | NullPerson
    | NullLicence
    | NullCar
    | NullDate
    | BlankFirstName
    | BlankLastName
    | NullDateOfBirth
    | EmptyInput             // Person.valueOf of an empty string
    | NoRental               // getCar for a person who rents nothing

  /** The Java exception classes the modelled code can raise. */
  datatype Error =
    | IllegalArgument(cause: Cause)
    | IllegalState(cause: Cause)
    | ParseFailure              // java.text.ParseException
    | IndexOutOfBounds          // ArrayIndexOutOfBoundsException after a split

  datatype Result<+T> = Ok(value: T) | Err(error: Error)

  datatype Option<+T> = None | Some(value: T)
}
