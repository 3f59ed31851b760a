/** A watched course section (src/courses.py): its identity, the interpretation of the
    availability table fetched for it, the open and waitlist predicates, and the filter
    that drops filler words from prerequisite text. The page fetch itself is a parameter
    `source`, mapping (CRN, term) to the integers of the "Registration Availability" table. */
module Courses {
  import opened Wrappers
  import opened Text

  /** What identifies a course: its registration number and its term code. */
  datatype CourseId = CourseId(crn: string, term: string)

  /** The exceptions the source raises: `ValueError` for a short table, `IndexError`
      when a list index is out of range. */
  datatype Error = ValueError | IndexError

  datatype Availability = Availability(seats: int, taken: int, vacant: int)

  /** The record `get_registration_info` returns: the seat counts and the waitlist counts. */
  datatype Registration = Registration(seats: int, taken: int, vacant: int, waitlist: Availability)

  /** The availability table of one course as the remote page gives it. */
  type Source = (string, string) -> seq<int>

  /** The table's cells in page order, as `get_registration_info` reads them. */
  function Encode(reg: Registration): (data: seq<int>)
  {
    [reg.seats, reg.taken, reg.vacant, reg.waitlist.seats, reg.waitlist.taken, reg.waitlist.vacant]
  }

  /** The interpretation of the fetched table; fewer than six cells is a `ValueError`. */
  function RegistrationOf(data: seq<int>): (r: Result<Registration, Error>)
    ensures r.Failure? <==> |data| < 6
    ensures r.Failure? ==> r.error == ValueError
  {
    if |data| < 6 then Failure(ValueError)
    else
      var waitlist := Availability(data[3], data[4], data[5]);
      Success(Registration(data[0], data[1], data[2], waitlist))
  }

  lemma DecodeEncode(reg: Registration)
    ensures RegistrationOf(Encode(reg)) == Success(reg)
  {
  }

  /** A successful interpretation keeps exactly the first six cells, in order. */
  lemma EncodeDecode(data: seq<int>)
    requires |data| >= 6
    ensures Encode(RegistrationOf(data).value) == data[..6]
  {
  }

  /** Cells beyond the sixth do not affect the record. */
  lemma {:induction false} RegistrationIgnoresTail(data: seq<int>, extra: seq<int>)
    requires |data| >= 6
    ensures RegistrationOf(data + extra) == RegistrationOf(data)
  {
    var d := data + extra;
    assert d[0] == data[0] && d[1] == data[1] && d[2] == data[2];
    assert d[3] == data[3] && d[4] == data[4] && d[5] == data[5];
  }

  /** `is_open_by_term` on a fetched table: the third cell is positive; a table with
      fewer than three cells raises `IndexError`, and there is no six-cell check. */
  function OpenOf(data: seq<int>): (r: Result<bool, Error>)
  {
    if |data| < 3 then Failure(IndexError) else Success(data[2] > 0)
  }

  /** `waitlist_available_by_term` on a fetched table: the waitlist's vacant count is positive. */
  function WaitlistOf(data: seq<int>): (r: Result<bool, Error>)
  {
    match RegistrationOf(data)
    case Success(reg) => Success(reg.waitlist.vacant > 0)
    case Failure(e) => Failure(e)
  }

  /** Wherever a full record can be read, "open" means the record shows vacant seats. */
  lemma OpenMatchesRegistration(data: seq<int>)
    ensures |data| >= 6 ==> OpenOf(data) == Success(RegistrationOf(data).value.vacant > 0)
    ensures OpenOf(data).Success? <==> |data| >= 3
  {
  }

  /** The open check reads a table too short for a registration record. */
  lemma OpenNeedsNoFullRecord(data: seq<int>)
    requires 3 <= |data| < 6
    ensures OpenOf(data) == Success(data[2] > 0)
    ensures RegistrationOf(data) == Failure(ValueError)
  {
  }

  lemma WaitlistMatchesRegistration(data: seq<int>)
    ensures WaitlistOf(data).Success? <==> |data| >= 6
    ensures |data| >= 6 ==> WaitlistOf(data) == Success(data[5] > 0)
    ensures |data| < 6 ==> WaitlistOf(data) == Failure(ValueError)
  {
  }

  /** The words dropped from prerequisite text. */
  const Fodder: seq<string> := ["undergraduate", "graduate", "level", "grade", "of", "minimum", "semester"]

  predicate NotFodder(s: string)
  {
    Lower(s) !in Fodder
  }

  /** `filter(__is_not_fodder, tokens)`: keeps, in order, exactly the tokens that are not fodder. */
  function FilterFodder(tokens: seq<string>): (r: seq<string>)
    ensures forall t :: t in r ==> NotFodder(t)
    ensures forall t :: multiset(r)[t] == if NotFodder(t) then multiset(tokens)[t] else 0
    ensures |r| <= |tokens|
  {
    if tokens == [] then []
    else
      assert tokens == [tokens[0]] + tokens[1..];
      (if NotFodder(tokens[0]) then [tokens[0]] else []) + FilterFodder(tokens[1..])
  }

  /** Filtering a concatenation filters each part in place: the kept tokens stay in input order. */
  lemma {:induction false} FilterFodderAppend(a: seq<string>, b: seq<string>)
    ensures FilterFodder(a + b) == FilterFodder(a) + FilterFodder(b)
  {
    if a == [] {
      assert a + b == b;
    } else {
      assert (a + b)[0] == a[0] && (a + b)[1..] == a[1..] + b;
      FilterFodderAppend(a[1..], b);
    }
  }

  /** Fodder is matched against the whole token, ignoring case, not as a substring. */
  lemma FodderExamples()
    ensures !NotFodder("Undergraduate") && !NotFodder("GRADE") && !NotFodder("of")
    ensures NotFodder("undergraduates") && NotFodder("Level3") && NotFodder("CS")
  {
    assert Lower("Undergraduate") == "undergraduate";
    assert Lower("GRADE") == "grade";
    assert Lower("of") == "of";
    assert Lower("undergraduates") == "undergraduates";
    assert Lower("Level3") == "level3";
    assert Lower("CS") == "cs";
  }

  class Course {
    var crn: string
    var term: string
    var name: string

    /** The display name is fetched from the course page; here it is given. */
    constructor (crn: string, term: string, name: string)
      ensures this.crn == crn && this.term == term && this.name == name
    {
      this.crn := crn;
      this.term := term;
      this.name := name;
    }

    /** Records `term` as the course's term, then interprets the table fetched for it. */
    method GetRegistrationInfo(term: string, source: Source) returns (r: Result<Registration, Error>)
      modifies this
      ensures this.term == term && crn == old(crn) && name == old(name)
      ensures r == RegistrationOf(source(crn, term))
    {
      this.term := term;
      r := RegistrationOf(source(crn, term));
    }

    method IsOpenByTerm(term: string, source: Source) returns (r: Result<bool, Error>)
      ensures r == OpenOf(source(crn, term))
    {
      var data := source(crn, term);
      if |data| < 3 {
        return Failure(IndexError);
      }
      r := Success(data[2] > 0);
    }

    method IsOpen(source: Source) returns (r: Result<bool, Error>)
      ensures r == OpenOf(source(crn, term))
    {
      r := IsOpenByTerm(term, source);
    }

    method WaitlistAvailableByTerm(term: string, source: Source) returns (r: Result<bool, Error>)
      modifies this
      ensures this.term == term && crn == old(crn) && name == old(name)
      ensures r == WaitlistOf(source(crn, term))
    {
      var info := GetRegistrationInfo(term, source);
      match info
      case Failure(e) => r := Failure(e);
      case Success(reg) => r := Success(reg.waitlist.vacant > 0);
    }

    method WaitlistAvailable(source: Source) returns (r: Result<bool, Error>)
      modifies this
      ensures term == old(term) && crn == old(crn) && name == old(name)
      ensures r == WaitlistOf(source(crn, term))
    {
      r := WaitlistAvailableByTerm(term, source);
    }

    method IsNotFodder(s: string) returns (b: bool)
      ensures b <==> NotFodder(s)
    {
      var tmp := Lower(s);
      for i := 0 to |Fodder|
        invariant forall j :: 0 <= j < i ==> Fodder[j] != tmp
      {
        if Fodder[i] == tmp {
          return false;
        }
      }
      return true;
    }
  }
}
