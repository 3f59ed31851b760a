/** The inline term computation of src/tracker.py. Unlike `Info.GetTerm` it never fails:
    every season that is not spring or summer is treated as fall. */
module Tracker {
  import opened Wrappers
  import opened Text
  import opened Info

  function TrackerTerm(season: string, year: nat, month: int): (term: string)
    ensures |term| >= 3 && term[|term| - 2..] in ["02", "05", "08"]
  {
    if Lower(season) == "spring" then
      (if month > 4 then Decimal(year + 1) + "02" else Decimal(year) + "02")
    else
      (if Lower(season) == "summer" then Decimal(year) + "05" else Decimal(year) + "08")
  }

  /** Only the lower-cased season matters. */
  lemma TrackerCaseInsensitive(season: string, year: nat, month: int)
    ensures TrackerTerm(season, year, month) == TrackerTerm(Lower(season), year, month)
  {
    LowerIdempotent(season);
  }

  /** On the seasons `GetTerm` accepts, both computations give the same term code. */
  lemma TrackerAgreesWithGetTerm(season: string, year: nat, month: int)
    requires GetTerm(season, year, month).Success?
    ensures GetTerm(season, year, month) == Success(TrackerTerm(season, year, month))
  {
  }

  /** Where `GetTerm` rejects the season, the tracker silently resolves it as fall. */
  lemma TrackerTreatsUnknownAsFall(season: string, year: nat, month: int)
    requires GetTerm(season, year, month).Failure?
    ensures TrackerTerm(season, year, month) == GetTerm("fall", year, month).value
    ensures TrackerTerm(season, year, month) == Decimal(year) + "08"
  {
    assert Lower("fall") == "fall";
  }

  /** The tracker's term reads back as the academic year followed by a season code, and
      its code is "08" exactly when the season is neither spring nor summer. */
  lemma TrackerTermDecodes(season: string, year: nat, month: int)
    ensures var code := TrackerTerm(season, year, month);
      && |code| >= 3
      && AllDigits(code[..|code| - 2])
      && ParseDecimal(code[..|code| - 2]) == AcademicYear(Lower(season), year, month)
      && (code[|code| - 2..] == "08" <==> Lower(season) != "spring" && Lower(season) != "summer")
  {
    var s := Lower(season);
    TermCodeParts(AcademicYear(s, year, month), if s == "spring" then "02" else if s == "summer" then "05" else "08");
  }

  lemma WinterDiverges(year: nat, month: int)
    ensures GetTerm("winter", year, month) == Failure(InvalidSeason)
    ensures TrackerTerm("winter", year, month) == Decimal(year) + "08"
    ensures TrackerTerm("WINTER", 2024, 1) == "202408"
  {
    assert Lower("winter") == "winter";
    assert Lower("WINTER") == "winter";
    assert Decimal(2024) == "2024";
    assert "2024" + "08" == "202408";
  }
}
