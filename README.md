# Pulse course watcher — a Dafny model of its core

Pulse watches Georgia Tech course sections (CRNs) and e-mails a subscriber when a seat
opens. This project models the parts of it that hold logic, and proves properties of
that model:

- **The registry of watched courses** (`Config`, from `src/config.py`). The JSON
  file is an ordered mapping from notification topic to an ordered list of CRNs. It is
  kept as the field `file` of the class `CoursesConfig`, and a ghost counter `writes`
  counts rewrites of the file. The mapping is flattened into (course, topic) pairs,
  topic by topic and then in list order. `RemoveCourse` re-reads the file. It removes
  the first occurrence of the CRN from the first topic that holds it, drops that topic
  if its list is now empty, and stops. It always rebuilds `courses`, and writes the
  file only if something was removed. As in the source, `courses` is rebuilt by reading the file
  *before* the write. So after a removal it is the flattening of the old mapping and
  still holds the removed pair (`StaleRebuildKeepsRemovedPair`).
- **Term-code resolution** (`Info.GetTerm`, from `src/info.py`, and `Tracker.TrackerTerm`,
  from the inline computation in `src/tracker.py`). A season and the current year and
  month give the year's digits followed by `02`, `05` or `08`. `GetTerm` rejects an
  unknown season. The tracker's copy silently treats any season other than spring or
  summer as fall. Both are proved to agree on the three valid seasons.
- **The notification gate** (`Notifications`, from `src/notifier.py`). A `Notifier`
  holds a title, a body and a status predicate, and has three dispatch modes:
  busy-wait, send-if-true and unconditional. Sending appends the mail to an `Outbox` and
  prints the confirmation "Sent email to …". The predicate is a `StatusCheck` object.
  It gives the answers in `script` in order, then `fallback` forever, and `history`
  records every answer it has given.
- **Registration-data interpretation** (`Courses`, from `src/courses.py`). This covers
  the seats/taken/vacant record and its waitlist record, the open and waitlist
  predicates, and the case-insensitive "fodder" token filter. The page fetch is a
  parameter `source: (crn, term) -> seq<int>`, and the course name is a constructor
  argument. A `Course` is a class because `get_registration_info` rewrites its `term`.
  Registry pairs carry the plain identity value `CourseId(crn, term)`.

Exceptions become `Wrappers.Result` failures: `ValueError`, `IndexError` and `InvalidSeason`.
Python's `str.lower` is modelled as ASCII lower-casing (`Text.Lower`). Every comparison
in the source is against an all-ASCII lower-case word that contains no `k`. For such
words, ASCII lower-casing decides the same equalities as Unicode lower-casing.
`f"{year}"` is `Text.Decimal`, and its inverse `Text.ParseDecimal` is proved to read it back.

## Model

| member | source | states |
|---|---|---|
| `Text.ParseDecimalOfDecimal` | src/info.py:24 | the decimal rendering of a year reads back as that year |
| `Text.DecimalInjective` | src/info.py:24-28 | two years render to the same digits exactly when they are equal |
| `Text.TermCodeParts` | src/info.py:24-28 | a term code is the year's digits followed by the two-character season code, and both parts can be recovered |
| `Text.TermCodeInjective` | src/info.py:24-28 | two term codes are equal exactly when their years and season codes are equal |
| `Info.GetTerm` | src/info.py:9-30 | fails with `InvalidSeason` exactly when the lower-cased season is not spring, summer or fall |
| `Info.GetTermDecodes` | src/info.py:21-28 | a resolved code ends in the season's code, and its digits read back as the year, or the next year for spring after April |
| `Info.GetTermInjective` | src/info.py:21-28 | two resolved codes are equal exactly when the seasons agree (ignoring case) and so do the academic years |
| `Info.GetTermSpring` | src/info.py:23-24 | spring gives year+1 followed by "02" when month > 4, and year followed by "02" otherwise |
| `Info.GetTermSummerAndFall` | src/info.py:25-28 | summer gives year followed by "05", and fall gives year followed by "08", whatever the month |
| `Info.GetTermCaseInsensitive` | src/info.py:23-27 | the result depends only on the lower-cased season |
| `Info.GetTermExamples` | src/info.py:9-30 | fall 2024 gives "202408", spring May 2024 gives "202502", spring January 2024 gives "202402", summer 2024 gives "202405"; "FALL", "Fall" and "fall" agree; "winter" fails |
| `Info.CreateCourseList` | src/info.py:45-46 | one course per CRN, in input order, each with the given term |
| `Tracker.TrackerTerm` | src/tracker.py:17-20 | never fails: every season gives a code of at least three characters ending in "02", "05" or "08" |
| `Tracker.TrackerCaseInsensitive` | src/tracker.py:17-20 | the tracker's code depends only on the lower-cased season |
| `Tracker.TrackerAgreesWithGetTerm` | src/tracker.py:17-20 | on every season `GetTerm` accepts, the tracker computes the same code |
| `Tracker.TrackerTreatsUnknownAsFall` | src/tracker.py:19-20 | where `GetTerm` rejects a season, the tracker returns the fall code year followed by "08" instead of failing |
| `Tracker.TrackerTermDecodes` | src/tracker.py:17-20 | the tracker's code reads back as the academic year, and ends in "08" exactly when the season is neither spring nor summer |
| `Tracker.WinterDiverges` | src/tracker.py:17-20 | "winter" is rejected by `GetTerm` but becomes year followed by "08" in the tracker, whatever its case |
| `Courses.RegistrationOf` | src/courses.py:140-150 | fails with `ValueError` exactly when the table has fewer than 6 cells |
| `Courses.DecodeEncode` | src/courses.py:143-149 | seats, taken and vacant are cells 0-2 and the waitlist record is cells 3-5: reading a record's six cells gives the record back |
| `Courses.EncodeDecode` | src/courses.py:143-149 | a successful reading keeps exactly the first six cells, in order |
| `Courses.RegistrationIgnoresTail` | src/courses.py:143-149 | cells beyond the sixth do not change the record |
| `Courses.OpenMatchesRegistration` | src/courses.py:163 | "open" means the record's vacant count is positive, and the check succeeds exactly when the table has at least 3 cells |
| `Courses.OpenNeedsNoFullRecord` | src/courses.py:163 | with 3 to 5 cells the open check succeeds while reading the record fails: it has no 6-cell check |
| `Courses.WaitlistMatchesRegistration` | src/courses.py:186-187 | waitlist available means cell 5 is positive; fewer than 6 cells is a `ValueError` |
| `Courses.FilterFodder` | src/courses.py:84-87 | keeps exactly the non-fodder tokens, each as often as in the input; no fodder remains |
| `Courses.FilterFodderAppend` | src/courses.py:84-87 | filtering a concatenation is the concatenation of the filtered parts, so kept tokens stay in input order |
| `Courses.FodderExamples` | src/courses.py:57-70 | fodder is matched on the whole token, ignoring case: "Undergraduate" and "GRADE" are fodder, "undergraduates" is not |
| `Courses.Course.constructor` | src/courses.py:17-25 | stores the CRN, the term and the fetched name |
| `Courses.Course.GetRegistrationInfo` | src/courses.py:126-150 | sets `term` to its argument even when it fails, leaves `crn` and `name` unchanged, and returns the reading of the table fetched for that term |
| `Courses.Course.IsOpenByTerm` | src/courses.py:152-163 | cell 2 of the table for the given term is positive, or `IndexError`; changes nothing |
| `Courses.Course.IsOpen` | src/courses.py:165-173 | the open check on the table for the stored term |
| `Courses.Course.WaitlistAvailableByTerm` | src/courses.py:175-187 | the waitlist check on the table for the given term, with `term` set to it |
| `Courses.Course.WaitlistAvailable` | src/courses.py:189-197 | the waitlist check on the table for the stored term, which stays as it was |
| `Courses.Course.IsNotFodder` | src/courses.py:46-70 | false exactly when the lower-cased token equals one of the seven listed words |
| `Config.Flatten` | src/config.py:35-39 | one pair per CRN occurrence, every pair carrying the registry's term |
| `Config.FlattenAt` | src/config.py:35-39 | CRN j of topic k is paired with topic k at position (number of CRNs in the earlier topics) + j: topic by topic, then in list order |
| `Config.FlattenContains` | src/config.py:35-39 | every CRN of every topic appears, paired with its topic |
| `Config.RemoveFirst` | src/config.py:58 | removes one element when the CRN is present, and leaves the list unchanged otherwise |
| `Config.RemoveFirstAt` | src/config.py:58 | the removed element is the first occurrence; the rest keep their order |
| `Config.RemoveFirstMultiset` | src/config.py:58 | exactly one occurrence of the CRN is taken away |
| `Config.Removal` | src/config.py:55-64 | reports a removal exactly when some topic holds the CRN; otherwise the mapping is unchanged |
| `Config.RemovalAt` | src/config.py:56-64 | only the first topic holding the CRN changes. It loses the first occurrence and is deleted if emptied; earlier and later topics are kept in order |
| `Config.RemovalCounts` | src/config.py:57-63 | a removal takes away exactly one CRN entry, which is one occurrence of that CRN |
| `Config.RemovalKeepsMapping` | src/config.py:56-64 | topic keys stay distinct |
| `Config.RemovalKeepsNoEmptyTopics` | src/config.py:61-63 | if no topic had an empty list before, none has one afterwards |
| `Config.RemoveTwiceIsNoop` | src/config.py:55-64 | for a CRN listed at most once, removing it a second time changes nothing and reports no removal |
| `Config.StaleRebuildKeepsRemovedPair` | src/config.py:66-72 | after a removal, the list rebuilt from the file before the write still holds the removed pair and has one pair more than the new mapping's flattening |
| `Config.CoursesConfig.constructor` | src/config.py:7-18 | stores path and term, and sets `courses` to the flattening of the file's mapping |
| `Config.CoursesConfig.RemoveCourse` | src/config.py:42-72 | the file becomes `Removal` of its old mapping. It is written once if the CRN was present and not at all otherwise. `courses` is the flattening of the mapping from before the write |
| `Notifications.Notifier.constructor` | src/notifier.py:10-15 | stores title, info and the given predicate; without one, a fresh predicate that always answers true |
| `Notifications.Notifier.Send` | src/notifier.py:17-32 | appends one mail with subject "Course Sniper -- Your Course Is Open", body info + ": " + title and recipient `email`, then prints "Sent email to " + email |
| `Notifications.Notifier.Run` | src/notifier.py:34-37 | returns having sent exactly once. It evaluated the predicate one or more times, in order; every answer but the last was false, and the last was true; the predicate's later answers are the old ones after those used, its fallback unchanged |
| `Notifications.Notifier.RunAsync` | src/notifier.py:39-41 | evaluates the predicate once; sends exactly once if it answered true, nothing otherwise; the predicate's later answers shift by one, its fallback unchanged |
| `Notifications.Notifier.RunForce` | src/notifier.py:43-44 | sends exactly once without evaluating the predicate |
| `Notifications.DefaultRunAsyncSendsOnce` | src/notifier.py:10-15 | with the default predicate, `run_async` sends exactly once and prints one confirmation |

## Left out

- The HTTP fetches and HTML parsing of `src/courses.py` (course name, prerequisite page, availability table): the fetched table is the parameter `source`, and the name is a constructor argument. A fetch that raises (an empty table, a network error) is not modelled.
- `get_prereqs` and `__get_prereqs` (prerequisite slicing, the regular-expression tokenising and the catch-all `except`): they depend on the scraped page's layout and on `re.findall`. Only the fodder filter over the split tokens is modelled (`FilterFodder`).
- `Course.__str__`: formatting that triggers further fetches.
- E-mail delivery through SMTP, and loading `smtp.json` at import: a send is an append to `Outbox`, with the sender address and SMTP settings omitted.
- Reading and writing the JSON file, its `indent=4` formatting and malformed files: the file is the `file` field, always a well-formed object whose keys are distinct. The constructor is given the contents it reads. Edits made by another process between calls are not modelled.
- The command-line entry points (`src/pulse.py`, `main` in `src/info.py`, the argument checks in `src/tracker.py`) and `datetime.now()`: the date is given as a year and a month.
- `CourseList`, its `run_notifiers` polling sweep, the rate-limit sleeps and the restart-on-crash loop: `CourseList` is imported from `src/courses.py` by `src/tracker.py` (line 3), and from `src/tracker.py` by `src/info.py` (line 6) and `src/pulse.py` (line 6); neither `courses.py` nor `tracker.py` defines it, so `Info.CreateCourseList` returns the list of course identities it would wrap.
- Notifications.Notifier.Run: requires that the predicate eventually answers true. When it never does, the source spins forever, and that non-termination is not modelled.
- Text.Lower: lower-cases ASCII letters only. Unicode case mapping is not modelled, and as explained above it does not change any comparison the source makes.
