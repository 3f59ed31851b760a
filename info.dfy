/** Term-code resolution (src/info.py): the season asked for and the current date give
    the institution's term code, the year's digits followed by "02" (spring), "05"
    (summer) or "08" (fall). The date is given as its year and month. */
module Info {
  import opened Wrappers
  import opened Text
  import opened Courses

  /** The `ValueError` raised for a season other than spring, summer or fall. */
  datatype TermError = InvalidSeason

  function GetTerm(season: string, year: nat, month: int): (r: Result<string, TermError>)
    ensures r.Failure? <==> Lower(season) !in ["spring", "summer", "fall"]
  {
    if Lower(season) == "spring" then
      Success(if month > 4 then Decimal(year + 1) + "02" else Decimal(year) + "02")
    else if Lower(season) == "summer" then
      Success(Decimal(year) + "05")
    else if Lower(season) == "fall" then
      Success(Decimal(year) + "08")
    else
      Failure(InvalidSeason)
  }

  /** The two-character code of each recognised (lower-case) season. */
  function SeasonCode(s: string): string
  {
    if s == "spring" then "02" else if s == "summer" then "05" else "08"
  }

  /** The calendar year a term code names: the next year for spring once April is over. */
  function AcademicYear(s: string, year: nat, month: int): nat
  {
    if s == "spring" && month > 4 then year + 1 else year
  }

  /** A resolved term code reads back as the academic year followed by the season's code. */
  lemma GetTermDecodes(season: string, year: nat, month: int)
    requires GetTerm(season, year, month).Success?
    ensures var code := GetTerm(season, year, month).value;
      && |code| >= 3
      && code[|code| - 2..] == SeasonCode(Lower(season))
      && AllDigits(code[..|code| - 2])
      && ParseDecimal(code[..|code| - 2]) == AcademicYear(Lower(season), year, month)
  {
    TermCodeParts(AcademicYear(Lower(season), year, month), SeasonCode(Lower(season)));
  }

  /** Different seasons, or different academic years, never share a term code. */
  lemma GetTermInjective(s1: string, y1: nat, m1: int, s2: string, y2: nat, m2: int)
    requires GetTerm(s1, y1, m1).Success? && GetTerm(s2, y2, m2).Success?
    ensures GetTerm(s1, y1, m1) == GetTerm(s2, y2, m2)
        <==> Lower(s1) == Lower(s2) && AcademicYear(Lower(s1), y1, m1) == AcademicYear(Lower(s2), y2, m2)
  {
    var c1, c2 := GetTerm(s1, y1, m1).value, GetTerm(s2, y2, m2).value;
    GetTermDecodes(s1, y1, m1);
    GetTermDecodes(s2, y2, m2);
    if c1 == c2 {
      assert SeasonCode(Lower(s1)) == SeasonCode(Lower(s2));
    }
  }

  lemma GetTermSpring(season: string, year: nat, month: int)
    requires Lower(season) == "spring"
    ensures month > 4 ==> GetTerm(season, year, month) == Success(Decimal(year + 1) + "02")
    ensures month <= 4 ==> GetTerm(season, year, month) == Success(Decimal(year) + "02")
  {
  }

  lemma GetTermSummerAndFall(season: string, year: nat, month: int)
    ensures Lower(season) == "summer" ==> GetTerm(season, year, month) == Success(Decimal(year) + "05")
    ensures Lower(season) == "fall" ==> GetTerm(season, year, month) == Success(Decimal(year) + "08")
  {
  }

  /** Only the lower-cased season matters. */
  lemma GetTermCaseInsensitive(season: string, year: nat, month: int)
    ensures GetTerm(season, year, month) == GetTerm(Lower(season), year, month)
  {
    LowerIdempotent(season);
  }

  lemma GetTermExamples()
    ensures GetTerm("fall", 2024, 1) == Success("202408")
    ensures GetTerm("FALL", 2024, 1) == GetTerm("Fall", 2024, 1) == GetTerm("fall", 2024, 1)
    ensures GetTerm("spring", 2024, 5) == Success("202502")
    ensures GetTerm("spring", 2024, 1) == Success("202402")
    ensures GetTerm("summer", 2024, 6) == Success("202405")
    ensures GetTerm("winter", 2024, 6) == Failure(InvalidSeason)
  {
    assert Decimal(2024) == "2024";
    assert Decimal(2025) == "2025";
    assert Lower("FALL") == "fall";
    assert Lower("Fall") == "fall";
    assert Lower("winter") == "winter";
    assert Lower("fall") == "fall" && Lower("spring") == "spring" && Lower("summer") == "summer";
    assert "2024" + "08" == "202408" && "2025" + "02" == "202502";
    assert "2024" + "02" == "202402" && "2024" + "05" == "202405";
  }

  /** `create_course_list`: one course per CRN, in input order, all in the given term. */
  function CreateCourseList(crns: seq<string>, term: string): (r: seq<CourseId>)
    ensures |r| == |crns|
    ensures forall i :: 0 <= i < |r| ==> r[i].crn == crns[i] && r[i].term == term
  {
    if crns == [] then [] else [CourseId(crns[0], term)] + CreateCourseList(crns[1..], term)
  }
}
