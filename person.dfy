/** A person as `Person.java` holds one: trimmed first and last names and a
    date of birth. The licence the Java object also carries is the one the
    licence table files under the person (see `Licences`), so it is looked up
    there rather than stored twice. */
module Persons {
  import opened Outcomes
  import opened Text
  import opened Dates

  /** Equality of this datatype is `Person.equals`: first name, last name
      and date of birth, the licence playing no part. */
  datatype Person = Person(firstName: string, lastName: string, dateOfBirth: Date)

  /** What the constructor guarantees of every person it lets through. */
  predicate WellFormed(p: Person)
  {
    p.firstName != [] && IsTrimmed(p.firstName) && p.lastName != [] && IsTrimmed(p.lastName)
  }

  /** The checks of the constructor, in its order (a missing or blank first
      name, then last name, then a missing date of birth), and the trimmed
      names it stores. */
  function Check(firstName: Option<string>, lastName: Option<string>, dateOfBirth: Option<Date>)
    : (r: Result<Person>)
    ensures firstName.None? || Trim(firstName.value) == [] ==> r == Err(IllegalArgument(BlankFirstName))
    ensures firstName.Some? && Trim(firstName.value) != [] && (lastName.None? || Trim(lastName.value) == []) ==>
      r == Err(IllegalArgument(BlankLastName))
    ensures (firstName.Some? && Trim(firstName.value) != [] && lastName.Some? && Trim(lastName.value) != []
             && dateOfBirth.None?) ==> r == Err(IllegalArgument(NullDateOfBirth))
    ensures r.Ok? <==> (firstName.Some? && Trim(firstName.value) != [] && lastName.Some?
      && Trim(lastName.value) != [] && dateOfBirth.Some?)
    ensures r.Err? ==> r.error.IllegalArgument?
    ensures r.Ok? ==> WellFormed(r.value)
    ensures r.Ok? ==> r.value == Person(Trim(firstName.value), Trim(lastName.value), dateOfBirth.value)
  {
    if firstName.None? || Trim(firstName.value) == [] then Err(IllegalArgument(BlankFirstName))
    else if lastName.None? || Trim(lastName.value) == [] then Err(IllegalArgument(BlankLastName))
    else if dateOfBirth.None? then Err(IllegalArgument(NullDateOfBirth))
    else
      TrimIsTrimmed(firstName.value);
      TrimIsTrimmed(lastName.value);
      Ok(Person(Trim(firstName.value), Trim(lastName.value), dateOfBirth.value))
  }

  /** A blank name is refused, whatever else is given. */
  lemma BlankNamesRefused(firstName: string, lastName: Option<string>, dateOfBirth: Option<Date>)
    requires forall i :: 0 <= i < |firstName| ==> IsBlankChar(firstName[i])
    ensures Check(Some(firstName), lastName, dateOfBirth) == Err(IllegalArgument(BlankFirstName))
  {
    TrimIsTrimmed(firstName);
  }

  /** The constructor rebuilds a well-formed person from its own fields. */
  lemma CheckOfWellFormed(p: Person)
    requires WellFormed(p)
    ensures Check(Some(p.firstName), Some(p.lastName), Some(p.dateOfBirth)) == Ok(p)
  {
    TrimmedIsFixed(p.firstName);
    TrimmedIsFixed(p.lastName);
  }

  /** Padding the names with blanks does not change the person made. */
  lemma CheckIgnoresPadding(firstName: string, lastName: string, dateOfBirth: Date, pad: string)
    requires forall i :: 0 <= i < |pad| ==> IsBlankChar(pad[i])
    requires Check(Some(firstName), Some(lastName), Some(dateOfBirth)).Ok?
    ensures Check(Some(pad + firstName + pad), Some(lastName), Some(dateOfBirth))
      == Check(Some(firstName), Some(lastName), Some(dateOfBirth))
  {
    PadTrim(pad, firstName);
  }
}
