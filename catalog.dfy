/** The chapter-count catalog (the `chapters` table) and the figures the
    subscription handlers derive from it: the total number of classes, the
    number of parts each seeded subject plan needs, and the default number
    of days per week. */
module Catalog {
  import opened Seqs
  import opened Text

  /** One row of the catalog: a class level, a subject name and its chapter count. */
  datatype ChapterRow = ChapterRow(classLevel: int, subject: string, totalChapters: int)

  /** The count used when a subject is missing from the catalog or listed with 0 chapters. */
  const DefaultChapters: int := 15

  /** The `WHERE` clause of the exact (`subject = $2`) and of the
      case-insensitive (`LOWER(subject) = LOWER($2)`) lookup. */
  predicate Matches(row: ChapterRow, classLevel: int, subject: string, ignoreCase: bool) {
    row.classLevel == classLevel
    && if ignoreCase then Lower(row.subject) == Lower(subject) else row.subject == subject
  }

  function RowFor(classLevel: int, subject: string, ignoreCase: bool): ChapterRow -> bool {
    (row: ChapterRow) => Matches(row, classLevel, subject, ignoreCase)
  }

  /** The count `QueryRow(...).Scan` reads: that of the first matching row, if any. */
  function CountOf(rows: seq<ChapterRow>, classLevel: int, subject: string, ignoreCase: bool): (r: Option<int>)
    ensures r.None? <==> forall k :: 0 <= k < |rows| ==> !Matches(rows[k], classLevel, subject, ignoreCase)
    ensures r.Some? ==> exists k :: 0 <= k < |rows| && Matches(rows[k], classLevel, subject, ignoreCase)
                                     && rows[k].totalChapters == r.value
  {
    match FirstIndex(rows, RowFor(classLevel, subject, ignoreCase))
    case Some(k) => Some(rows[k].totalChapters)
    case None => None
  }

  /** A missing count, and a count of 0, both become the default. */
  function OrDefault(found: Option<int>): (n: int)
    ensures n != 0
    ensures found.Some? && found.value != 0 ==> n == found.value
    ensures found.None? || found.value == 0 ==> n == DefaultChapters
  {
    match found
    case Some(c) => if c == 0 then DefaultChapters else c
    case None => DefaultChapters
  }

  /** No row of the catalog has a negative chapter count. */
  ghost predicate NonNegative(rows: seq<ChapterRow>) {
    forall k :: 0 <= k < |rows| ==> rows[k].totalChapters >= 0
  }

  /** The chapter count of one (trimmed) subject as the totals loops resolve
      it: exact match first, then a case-insensitive match, then 15. */
  function ResolveChapterCount(rows: seq<ChapterRow>, classLevel: int, subject: string): (n: int)
    ensures n != 0
    ensures n == DefaultChapters
            || exists k :: 0 <= k < |rows| && Matches(rows[k], classLevel, subject, true) && rows[k].totalChapters == n
    ensures (forall k :: 0 <= k < |rows| ==> !Matches(rows[k], classLevel, subject, true)) ==> n == DefaultChapters
    ensures NonNegative(rows) ==> n >= 1
  {
    var exact := CountOf(rows, classLevel, subject, false);
    if exact.Some? then OrDefault(exact) else OrDefault(CountOf(rows, classLevel, subject, true))
  }

  /** An exact match, when there is one, decides the count; a case-insensitive
      match is consulted only when there is none. */
  lemma ExactMatchWins(rows: seq<ChapterRow>, classLevel: int, subject: string, k: nat)
    requires k < |rows| && Matches(rows[k], classLevel, subject, false)
    requires forall j :: 0 <= j < k ==> !Matches(rows[j], classLevel, subject, false)
    ensures ResolveChapterCount(rows, classLevel, subject)
            == if rows[k].totalChapters == 0 then DefaultChapters else rows[k].totalChapters
  {
    assert FirstIndex(rows, RowFor(classLevel, subject, false)) == Some(k);
  }

  /** Without an exact match, the first case-insensitive match decides the
      count (0 becomes 15). */
  lemma CaseInsensitiveFallback(rows: seq<ChapterRow>, classLevel: int, subject: string, k: nat)
    requires forall j :: 0 <= j < |rows| ==> !Matches(rows[j], classLevel, subject, false)
    requires k < |rows| && Matches(rows[k], classLevel, subject, true)
    requires forall j :: 0 <= j < k ==> !Matches(rows[j], classLevel, subject, true)
    ensures ResolveChapterCount(rows, classLevel, subject)
            == if rows[k].totalChapters == 0 then DefaultChapters else rows[k].totalChapters
  {
    assert FirstIndex(rows, RowFor(classLevel, subject, true)) == Some(k);
  }

  /** The part count a seeded plan gets. The seeding loop guards its
      case-insensitive retry with an error that is always nil at that point, so
      only the exact match counts: its count, or 15 when it is missing or 0. */
  function SeededPartsNeeded(rows: seq<ChapterRow>, classLevel: int, subject: string): (n: int)
    ensures n != 0
    ensures n == DefaultChapters
            || exists k :: 0 <= k < |rows| && Matches(rows[k], classLevel, subject, false) && rows[k].totalChapters == n
    ensures (forall k :: 0 <= k < |rows| ==> !Matches(rows[k], classLevel, subject, false)) ==> n == DefaultChapters
  {
    OrDefault(CountOf(rows, classLevel, subject, false))
  }

  /** The seeded count agrees with the resolved one unless the subject is found
      only case-insensitively. */
  lemma SeededAgreesUnlessCaseDiffers(rows: seq<ChapterRow>, classLevel: int, subject: string)
    requires CountOf(rows, classLevel, subject, false).Some? || CountOf(rows, classLevel, subject, true).None?
    ensures SeededPartsNeeded(rows, classLevel, subject) == ResolveChapterCount(rows, classLevel, subject)
  {
  }

  /** An input on which the two disagree: the catalog lists "math" and the
      subscription asks for "Math". */
  lemma SeedingDisagreesWithTotal()
    ensures var rows := [ChapterRow(5, "math", 12)];
      && ResolveChapterCount(rows, 5, "Math") == 12
      && SeededPartsNeeded(rows, 5, "Math") == DefaultChapters
  {
    var rows := [ChapterRow(5, "math", 12)];
    assert !Matches(rows[0], 5, "Math", false);
    assert Lower("math") == Lower("Math") by {
      assert LowerChar('M') == 'm';
    }
    assert Matches(rows[0], 5, "Math", true);
  }

  /** In general: when a subject is found only case-insensitively, with a
      count other than 0 and 15, its seeded plan and its term in the total
      disagree. */
  lemma SeedingDisagreesOnCaseOnlyMatch(rows: seq<ChapterRow>, classLevel: int, subject: string, k: nat)
    requires forall j :: 0 <= j < |rows| ==> !Matches(rows[j], classLevel, subject, false)
    requires k < |rows| && Matches(rows[k], classLevel, subject, true)
    requires forall j :: 0 <= j < k ==> !Matches(rows[j], classLevel, subject, true)
    requires rows[k].totalChapters != 0 && rows[k].totalChapters != DefaultChapters
    ensures SeededPartsNeeded(rows, classLevel, subject) == DefaultChapters
    ensures ResolveChapterCount(rows, classLevel, subject) == rows[k].totalChapters
    ensures SeededPartsNeeded(rows, classLevel, subject) != ResolveChapterCount(rows, classLevel, subject)
  {
    CaseInsensitiveFallback(rows, classLevel, subject, k);
  }

  /** `total_classes`: the sum of the resolved counts of the trimmed subjects. */
  function TotalClasses(rows: seq<ChapterRow>, classLevel: int, subjects: seq<string>): (n: int)
    ensures subjects == [] ==> n == 0
    ensures NonNegative(rows) ==> n >= |subjects|
  {
    if subjects == [] then 0
    else TotalClasses(rows, classLevel, subjects[..|subjects| - 1])
         + ResolveChapterCount(rows, classLevel, TrimSpace(subjects[|subjects| - 1]))
  }

  /** The totals loop of the creation and update handlers. */
  method SumChapterCounts(rows: seq<ChapterRow>, classLevel: int, subjects: seq<string>) returns (total: int)
    ensures total == TotalClasses(rows, classLevel, subjects)
  {
    total := 0;
    var i := 0;
    while i < |subjects|
      invariant 0 <= i <= |subjects|
      invariant total == TotalClasses(rows, classLevel, subjects[..i])
    {
      var subject := TrimSpace(subjects[i]);
      total := total + ResolveChapterCount(rows, classLevel, subject);
      assert subjects[..i + 1][..i] == subjects[..i];
      i := i + 1;
    }
    assert subjects[..i] == subjects;
  }

  /** `total_classes` on update: recomputed only when a class and a subject
      list are given, otherwise 0. */
  function UpdatedTotalClasses(rows: seq<ChapterRow>, classLevel: int, subjects: string): (n: int)
    ensures !(classLevel > 0 && subjects != "") ==> n == 0
    ensures classLevel > 0 && subjects != "" && NonNegative(rows) ==> n >= multiset(subjects)[','] + 1
  {
    if classLevel > 0 && subjects != "" then
      SplitCount(subjects);
      TotalClasses(rows, classLevel, Split(subjects))
    else 0
  }

  /** With a well-formed catalog the update total is zero exactly when the
      class or the subject list is missing. */
  lemma UpdatedTotalZeroIff(rows: seq<ChapterRow>, classLevel: int, subjects: string)
    requires NonNegative(rows)
    ensures UpdatedTotalClasses(rows, classLevel, subjects) == 0 <==> classLevel <= 0 || subjects == ""
  {
  }

  /** `days_per_week`: a given value is kept; 0 with a non-empty
      `schedule_days` becomes the number of comma-separated tokens. */
  function DaysPerWeek(given: int, scheduleDays: string): int {
    if given == 0 && scheduleDays != "" then |Split(scheduleDays)| else given
  }

  /** The derived count is one more than the number of commas, so at least 1;
      any other value is kept as given. */
  lemma DaysPerWeekCount(given: int, scheduleDays: string)
    ensures var d := DaysPerWeek(given, scheduleDays);
      && (given == 0 && scheduleDays != "" ==> d == multiset(scheduleDays)[','] + 1 && d >= 1)
      && (given != 0 || scheduleDays == "" ==> d == given)
  {
    SplitCount(scheduleDays);
  }

  /** A subject name with no white space at either end is looked up as it is. */
  lemma TrimSpaceKeepsTrimmed(s: string)
    requires s != [] ==> !IsSpace(s[0]) && !IsSpace(s[|s| - 1])
    ensures TrimSpace(s) == s
  {
  }

  /** Creation with two distinct, trimmed subjects that the catalog lists with
      non-zero counts: the total is the sum of the two counts (Math with 12
      and Science with 15 give 27) ... */
  lemma TwoSubjectTotal(rows: seq<ChapterRow>, classLevel: int, a: string, b: string, ca: int, cb: int)
    requires rows == [ChapterRow(classLevel, a, ca), ChapterRow(classLevel, b, cb)]
    requires a != b && ca != 0 && cb != 0
    requires a != [] ==> !IsSpace(a[0]) && !IsSpace(a[|a| - 1])
    requires b != [] ==> !IsSpace(b[0]) && !IsSpace(b[|b| - 1])
    ensures TotalClasses(rows, classLevel, [a, b]) == ca + cb
  {
    var parts := [a, b];
    assert ResolveChapterCount(rows, classLevel, TrimSpace(a)) == ca by {
      TrimSpaceKeepsTrimmed(a);
      ExactMatchWins(rows, classLevel, a, 0);
    }
    assert ResolveChapterCount(rows, classLevel, TrimSpace(b)) == cb by {
      TrimSpaceKeepsTrimmed(b);
      assert !Matches(rows[0], classLevel, b, false);
      ExactMatchWins(rows, classLevel, b, 1);
    }
    assert parts[..1] == [a] && parts[..1][..0] == [];
    assert TotalClasses(rows, classLevel, parts[..1]) == ca;
  }

  /** ... and each seeded plan needs its subject's count. */
  lemma TwoSubjectSeeds(rows: seq<ChapterRow>, classLevel: int, a: string, b: string, ca: int, cb: int)
    requires rows == [ChapterRow(classLevel, a, ca), ChapterRow(classLevel, b, cb)]
    requires a != b && ca != 0 && cb != 0
    ensures SeededPartsNeeded(rows, classLevel, a) == ca
    ensures SeededPartsNeeded(rows, classLevel, b) == cb
  {
    assert FirstIndex(rows, RowFor(classLevel, a, false)) == Some(0);
    assert !Matches(rows[0], classLevel, b, false);
    assert FirstIndex(rows, RowFor(classLevel, b, false)) == Some(1);
  }
}
