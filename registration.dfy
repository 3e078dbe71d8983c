/** Car registrations (`Registration.java`): a validated two-part plate such
    as "NG57 HXE", and the memo table through which every registration is
    obtained, keyed by the upper-cased text of the plate. */
module Registrations {
  import opened Outcomes
  import opened Text

  /** The two stored components, trimmed and upper-cased. Java compares
      registrations by identity; because every registration comes out of the
      memo table, and the key fixes both components, identity and equality of
      the components coincide. */
  datatype Registration = Registration(first: string, second: string)

  /** The regular expression `[a-zA-Z]{2}[0-9]{2}`, matched against the whole string. */
  predicate IsFirstShape(s: string)
  {
    |s| == 4 && IsLetter(s[0]) && IsLetter(s[1]) && IsDigit(s[2]) && IsDigit(s[3])
  }

  /** The regular expression `[a-zA-Z]{3}`, matched against the whole string. */
  predicate IsSecondShape(s: string)
  {
    |s| == 3 && IsLetter(s[0]) && IsLetter(s[1]) && IsLetter(s[2])
  }

  predicate IsUpperLetter(c: char) { 'A' <= c <= 'Z' }

  /** A plate as stored: `LLDD` and `LLL` in capitals. */
  predicate IsCanonical(r: Registration)
  {
    && |r.first| == 4 && IsUpperLetter(r.first[0]) && IsUpperLetter(r.first[1])
    && IsDigit(r.first[2]) && IsDigit(r.first[3])
    && |r.second| == 3 && IsUpperLetter(r.second[0]) && IsUpperLetter(r.second[1])
    && IsUpperLetter(r.second[2])
  }

  /** The private constructor: the prefix is checked first, then the suffix.
      The emptiness checks after each pattern can never fire, since a string
      that matches the pattern is neither empty nor blank. */
  function Make(first: string, second: string): (r: Result<Registration>)
    ensures r.Ok? <==> IsFirstShape(first) && IsSecondShape(second)
    ensures !IsFirstShape(first) ==> r == Err(IllegalArgument(BadFirstComponent))
    ensures IsFirstShape(first) && !IsSecondShape(second) ==> r == Err(IllegalArgument(BadSecondComponent))
    ensures r.Ok? ==> IsCanonical(r.value)
    ensures r.Ok? ==> r.value.first == Upper(first) && r.value.second == Upper(second)
  {
    if !IsFirstShape(first) then Err(IllegalArgument(BadFirstComponent))
    else if Trim(first) == [] then Err(IllegalArgument(EmptyFirstComponent))
    else if !IsSecondShape(second) then Err(IllegalArgument(BadSecondComponent))
    else if Trim(second) == [] then Err(IllegalArgument(EmptySecondComponent))
    else
      NoBlankIsTrimmed(first);
      NoBlankIsTrimmed(second);
      Ok(Registration(Upper(Trim(first)), Upper(Trim(second))))
  }

  /** A string with no blank character is its own trim. */
  lemma NoBlankIsTrimmed(s: string)
    requires forall i :: 0 <= i < |s| ==> !IsBlankChar(s[i])
    ensures Trim(s) == s
  {
    TrimmedIsFixed(s);
  }

  /** `toString`: the two components with one space between them. A
      stored plate prints as `LLDD LLL`, the space its only blank, so the
      components can be read back. */
  function ToString(r: Registration): (s: string)
    ensures IsCanonical(r) ==> |s| == 8 && s[4] == ' ' && s[..4] == r.first && s[5..] == r.second
    ensures IsCanonical(r) ==> forall i :: 0 <= i < |s| && i != 4 ==> s[i] != ' '
  {
    r.first + " " + r.second
  }

  /** The memo key: both arguments upper-cased, a space between them. */
  function Key(first: string, second: string): string
  {
    Upper(first) + " " + Upper(second)
  }

  /** Every entry is a stored plate filed under its own printed form. */
  ghost predicate IsMemo(entries: map<string, Registration>)
  {
    forall k :: k in entries ==> IsCanonical(entries[k]) && ToString(entries[k]) == k
  }

  /** What `getInstance` returns: the stored entry under the key if there
      is one, otherwise whatever the constructor makes of the arguments. */
  function Resolve(entries: map<string, Registration>, first: string, second: string): Result<Registration>
  {
    var k := Key(first, second);
    if k in entries then Ok(entries[k]) else Make(first, second)
  }

  /** The memo table after `getInstance`: a successful construction is filed
      under the key, a rejected one files nothing. */
  function Remember(entries: map<string, Registration>, first: string, second: string): map<string, Registration>
  {
    var k := Key(first, second);
    if k in entries then entries
    else match Make(first, second)
      case Ok(r) => entries[k := r]
      case Err(_) => entries
  }

  /** Upper-casing keeps letters letters and digits digits, and a letter
      or digit upper-cased came from one. */
  lemma UpperKeepsShapes(s: string)
    ensures IsFirstShape(Upper(s)) <==> IsFirstShape(s)
    ensures IsSecondShape(Upper(s)) <==> IsSecondShape(s)
  {
  }

  /** If the key of two arguments spells the printed form of a stored plate,
      the arguments are that plate in some mix of cases. */
  lemma KeyOfCanonical(first: string, second: string, r: Registration)
    requires IsCanonical(r)
    requires Key(first, second) == ToString(r)
    ensures Upper(first) == r.first && Upper(second) == r.second
    ensures IsFirstShape(first) && IsSecondShape(second)
  {
    var k := Key(first, second);
    // The key has a space at index |first|, the printed plate only at index 4.
    assert k[|first|] == ' ';
    assert Upper(first) == k[..4];
    assert Upper(second) == k[5..];
    UpperKeepsShapes(first);
    UpperKeepsShapes(second);
  }

  /** The memo never changes the answer: under a consistent table,
      `getInstance` returns exactly what the constructor would. */
  lemma MemoIsTransparent(entries: map<string, Registration>, first: string, second: string)
    requires IsMemo(entries)
    ensures Resolve(entries, first, second) == Make(first, second)
  {
    var k := Key(first, second);
    if k in entries {
      KeyOfCanonical(first, second, entries[k]);
    }
  }

  /** Arguments that differ only in case give the same registration. */
  lemma SameKeySameRegistration(f1: string, s1: string, f2: string, s2: string)
    requires Key(f1, s1) == Key(f2, s2)
    requires Make(f1, s1).Ok?
    ensures Make(f2, s2) == Make(f1, s1)
  {
    var r := Make(f1, s1).value;
    assert ToString(r) == Key(f1, s1);
    KeyOfCanonical(f2, s2, r);
  }

  /** Remembering keeps the table consistent. */
  lemma RememberKeepsMemo(entries: map<string, Registration>, first: string, second: string)
    requires IsMemo(entries)
    ensures IsMemo(Remember(entries, first, second))
  {
  }

  /** The process-wide `REGISTRATION_MAP`, as an object passed to its users. */
  class RegistrationTable {
    var entries: map<string, Registration>

    ghost predicate Valid()
      reads this
    {
      IsMemo(entries)
    }

    constructor ()
      ensures Valid() && entries == map[]
    {
      entries := map[];
    }

    /** `Registration.getInstance(first, second)`. */
    method GetInstance(first: string, second: string) returns (r: Result<Registration>)
      requires Valid()
      modifies this
      ensures Valid()
      ensures r == Resolve(old(entries), first, second)
      ensures r == Make(first, second)
      ensures entries == Remember(old(entries), first, second)
      ensures r.Err? ==> entries == old(entries)
      ensures r.Ok? ==> Key(first, second) in entries && entries[Key(first, second)] == r.value
    {
      MemoIsTransparent(entries, first, second);
      RememberKeepsMemo(entries, first, second);
      var check := Key(first, second);
      if check !in entries {
        var made := Make(first, second);
        if made.Err? {
          return made;
        }
        entries := entries[check := made.value];
      }
      r := Ok(entries[check]);
    }
  }
}
