# Tutoring progress and scheduling core

A Dafny model of the tutoring core of the mentor back end (`main.go`): the
lesson pointer that every taught class advances, the chapter catalog
lookup that sizes a new subscription, the progress ledger, the cascade
delete, and the two "who is taught today" views a teacher's app reads.

The PostgreSQL tables the handlers share become the fields of one class,
`Store.Store`: `subscriptions`, `plans` (the `schedule` table: one subject
plan per subscription and subject) and `events` (the `progress` ledger) are
sequences in table order, with the next value of each serial key beside
them; the `chapters` catalog and the `holidays` calendar are read-only.
Every handler is a method on it. Its invariant `Valid` says the tables stay
consistent: ids below their counters and increasing, every plan and ledger
row belongs to an existing subscription, every plan's pointer is the one
reached after its parts done, and every subscription's completed count is
the sum of its plans' parts done. Each state-changing handler keeps it,
and each is tied to a pure function or lemma that states its result.

Modules, leaves first:

- `Seqs`: `Option`, filtering (a `WHERE`), first match (a `QueryRow`),
  reversal and truncation (`ORDER BY ... DESC LIMIT n`).
- `Text`: Go's `strings.Split(s, ",")` and `strings.TrimSpace`,
  PostgreSQL's `LOWER`, `LIKE '%x%'` and text order.
- `Catalog`: the chapter count of a subject (exact match, then a
  case-insensitive match, then 15), the total of classes, the parts a
  seeded plan needs, and the default days per week.
- `Advancement`: the (chapter, part) pointer with three parts per chapter,
  and the completion percentage.
- `Tables`: the rows of the three tables, one plan's advance, the sum of
  parts done, and the consistency predicate.
- `Ledger`: the history query.
- `Schedule`: weekday names and codes, the `schedule_days LIKE` match, the
  selection of a teacher's sessions and their order by time.
- `Views`: the version-2 session list and the daily schedule with its
  holiday check.
- `Store`: the handlers on the shared tables.

Three behaviours of the code are easy to misread; the model follows the code:

- A seeded plan's part count uses the exact catalog match only. The
  case-insensitive retry in the seeding loop is guarded by the error of the
  earlier `INSERT`, which is always nil there (`main.go:411`). So a subject
  found only case-insensitively with a count other than 0 contributes that
  count to the total but gets 15 parts (`Catalog.SeedingDisagreesWithTotal`,
  `Catalog.SeedingDisagreesOnCaseOnlyMatch`); a count of 0 becomes 15 on both
  sides.
- The update handler rewrites `total_classes` but leaves
  `progress_percent` as it was, and it leaves the subject plans alone. So
  "percentage = completed / total" holds right after a completion
  (`Store.CompleteCountsOne`) but is not a table invariant. Only
  "completed = sum of parts done" is.
- The day match is substring containment on the stored comma-joined text,
  not membership in a set of day tokens (`Schedule.RunTogetherCodes`).

## Model

| member | source | states |
|---|---|---|
| Advancement.Advance | main.go:569-575 | one taught part moves a valid pointer to the next valid pointer, one part further on; the chapter stays, or moves on by one with part 1 |
| Advancement.PositionAfter | main.go:569-575 | the pointer after `n` parts from chapter 1, part 1 is valid and is `n` parts along |
| Advancement.PositionOfOrdinal | main.go:569-575 | a valid pointer is determined by the number of parts it takes to reach it |
| Advancement.AdvanceAfter | main.go:569-575 | advancing the pointer of `n` parts gives the pointer of `n + 1` parts |
| Advancement.CompletionsFromStart | main.go:569-575 | from (1, 1), `k` completions reach chapter 1 + k / 3, part 1 + k % 3 |
| Advancement.TransitionLaw | main.go:569-575 | the first wrap-arounds: (1,3) after 2, (2,1) after 3, (2,3) after 5, (3,1) after 6 completions |
| Advancement.Percent | main.go:593-596 | with a positive total, percent × total = completed × 100; otherwise 0 |
| Advancement.PercentBounds | main.go:593-596 | the percentage lies in 0..100 while completed does not exceed the total |
| Advancement.PercentOverrun | main.go:569-596 | completions are not capped, so past the total the percentage exceeds 100 |
| Tables.Advanced | main.go:569-582 | a plan after one class: the pointer advanced, one more part done, id, subscription, subject and parts needed kept, consistency kept |
| Tables.AdvanceKeepsConsistent | main.go:569-575 | on a consistent plan, the advance reaches the pointer of one more part done |
| Tables.CompletionsOfSeededPlan | main.go:421-425 | a freshly seeded plan after `k` completions has `k` parts done and points at chapter 1 + k / 3, part 1 + k % 3, nothing else changed |
| Tables.PartsDoneConcat | main.go:586-588 | the sum of parts done over two runs of rows is the sum of the two sums |
| Tables.PartsDoneOfOthers | main.go:586-588 | rows of other subscriptions add nothing to a subscription's sum |
| Tables.PartsDoneOfFresh | main.go:421-425 | freshly seeded plans add nothing to any sum |
| Tables.PartsDoneAfterUpdate | main.go:578-588 | rewriting one plan changes its subscription's sum by the change in parts done, and no other sum |
| Tables.PartsDoneAfterRemoval | main.go:520-521 | deleting one subscription's plans leaves every other subscription's sum as it was |
| Tables.Reaggregate | main.go:598-601 | the completion's `UPDATE subscriptions`: every row with the id gets the new count and percentage; every other row is unchanged |
| Catalog.CountOf | main.go:364-373 | the count read is that of a matching catalog row, and there is none exactly when no row matches |
| Catalog.OrDefault | main.go:376-378 | a missing count and a count of 0 both become 15; any other count is kept |
| Catalog.ResolveChapterCount | main.go:359-381 | a subject's count is never 0: 15, or the count of a row matching case-insensitively; 15 when no row matches; at least 1 on a catalog without negative counts (which match decides is stated by `ExactMatchWins` and `CaseInsensitiveFallback`) |
| Catalog.ExactMatchWins | main.go:364-372 | the first exact match decides the count (0 becomes 15); the case-insensitive lookup is consulted only without one |
| Catalog.CaseInsensitiveFallback | main.go:364-378 | without an exact match, the first case-insensitive match decides the count (0 becomes 15) |
| Catalog.SeededPartsNeeded | main.go:404-420 | a seeded plan's part count is never 0: 15, or the count of an exact match; 15 without an exact match |
| Catalog.SeededAgreesUnlessCaseDiffers | main.go:404-420 | the seeded count equals the subject's term in the total whenever there is an exact match or no match at all |
| Catalog.SeedingDisagreesWithTotal | main.go:409-420 | a catalog listing "math" with 12 chapters gives "Math" 12 classes in the total but a seeded plan of 15 parts |
| Catalog.SeedingDisagreesOnCaseOnlyMatch | main.go:359-420 | whenever a subject is found only case-insensitively with a count other than 0 and 15, the seeded plan gets 15 parts while the total adds that count |
| Catalog.TotalClasses | main.go:357-383 | the total of no subjects is 0; on a catalog without negative counts, every subject adds at least 1 |
| Catalog.SumChapterCounts | main.go:357-383 | the totals loop computes the sum of the resolved counts of the trimmed subjects |
| Catalog.UpdatedTotalClasses | main.go:469-492 | the update total is 0 unless class > 0 and subjects are given; then, on a catalog without negative counts, it is at least the number of comma-separated subjects |
| Catalog.UpdatedTotalZeroIff | main.go:469-492 | on a catalog without negative counts the update total is 0 exactly when class or subjects are missing |
| Catalog.DaysPerWeekCount | main.go:351-355 | a days per week of 0 with days given becomes the number of comma-separated tokens (commas + 1, so at least 1); any other value is kept |
| Catalog.TrimSpaceKeepsTrimmed | main.go:362 | a subject with no white space at either end is looked up as it is |
| Catalog.TwoSubjectTotal | main.go:357-383 | two distinct trimmed subjects that the catalog lists with non-zero counts ca and cb give a total of ca + cb (a count of 0 would count as 15) |
| Catalog.TwoSubjectSeeds | main.go:404-420 | with the same catalog (non-zero counts) each seeded plan needs its own subject's count |
| Text.TrimLeft | main.go:362 | what is left starts with a non-space and is no longer than the input |
| Text.TrimLeftSuffix | main.go:362 | trimming on the left keeps a suffix and drops only white space |
| Text.TrimRight | main.go:362 | what is left ends with a non-space and is no longer than the input |
| Text.TrimRightPrefix | main.go:362 | trimming on the right keeps a prefix and drops only white space |
| Text.TrimSpace | main.go:362 | the result has no white space at either end and is no longer than the input |
| Text.TrimSpaceSlice | main.go:362 | the result is the slice of the input between a white-space prefix and a white-space suffix |
| Text.ContainsIff | main.go:682 | `LIKE '%pat%'` holds exactly when the pattern occurs at some position |
| Text.ContainsChar | main.go:682 | a one-character pattern is contained exactly when the character occurs |
| Text.ContainsSameLength | main.go:682 | a pattern as long as the text is contained only when it is the text |
| Text.Split | main.go:358 | splitting gives at least one piece |
| Text.SplitNoComma | main.go:358 | no piece of a split holds a comma |
| Text.SplitCount | main.go:353 | a split has one piece more than the text has commas |
| Text.JoinCons | main.go:358 | joining a head with a non-empty rest puts one comma between them |
| Text.JoinSplit | main.go:358 | joining the pieces of a split gives back the text |
| Text.SplitWithoutComma | main.go:358 | text without a comma splits into itself |
| Text.SplitAfterPiece | main.go:358 | a comma-free piece, a comma and more text split into the piece and the split of the rest |
| Text.SplitJoin | main.go:358 | splitting recovers any non-empty list of comma-free pieces joined with commas |
| Text.TextLeqTotal | main.go:683 | any two texts are ordered one way or the other |
| Text.TextLeqTransitive | main.go:683 | the text order is transitive |
| Seqs.FirstIndex | main.go:548-555 | `QueryRow`: the index found satisfies the condition and no earlier row does; none exactly when no row does |
| Seqs.Filter | main.go:520-523 | a `WHERE`: the rows kept are exactly those of the input that satisfy the condition |
| Seqs.FilterConcat | main.go:620-624 | filtering distributes over concatenation |
| Seqs.FilterKeepsOrder | main.go:620-624 | filtering keeps any pairwise order of the rows |
| Seqs.Reverse | main.go:620-624 | the reversal reads the input from its end |
| Seqs.ReverseConcat | main.go:620-624 | reversing a concatenation reverses and swaps the parts |
| Seqs.Take | main.go:623 | `LIMIT n`: the first `n` rows, or all of them when there are fewer |
| Ledger.HistoryNewestFirst | main.go:620-624 | the history holds min(50, n) of the subscription's n events, the newest first, and nothing of any other subscription |
| Ledger.HistoryIdsDecrease | main.go:620-624 | with increasing ledger ids, the history's ids strictly decrease |
| Schedule.DayName | main.go:922-925 | a weekday's name has three letters, the first a capital |
| Schedule.DayNamesDistinct | main.go:922-925 | two weekdays have the same name exactly when they are the same day |
| Schedule.CodeDigit | main.go:670-674 | a weekday's code is a digit from 1 to 7 |
| Schedule.DayCodeOfWeekday | main.go:670-674 | every weekday's name has a one-digit code (Sat 1 ... Fri 7), and no two weekdays share a code |
| Schedule.CodeDaysMatch | main.go:679-683 | days written as codes select exactly the weekdays whose code digit they hold |
| Schedule.NameDaysMatch | main.go:679-683 | days written without digits select a weekday exactly when they contain its name |
| Schedule.SingleNamedDay | main.go:679-683 | a subscription on one named day is selected on that day and no other |
| Schedule.RunTogetherCodes | main.go:679-683 | the stored days "13" select Saturday and Monday and no other day |
| Schedule.InsertByTime | main.go:683 | placing a row into a time-sorted list keeps it sorted and adds exactly that row |
| Schedule.SortedCons | main.go:683 | a row no later than every row of a sorted list can head it |
| Schedule.FirstBeforeAll | main.go:683 | a row no later than the head of a sorted list is no later than any of it |
| Schedule.HeadBeforeInserted | main.go:683 | the head of a sorted list stays first after a later row is placed in the rest |
| Schedule.SortByTime | main.go:683 | `ORDER BY time` gives a time-sorted permutation of its input |
| Schedule.TodayOrder | main.go:677-684 | the version-2 view lists exactly the selected subscriptions, each as often as stored, sorted by time |
| Schedule.ProgressOfAppend | main.go:703-715 | reading one more plan row adds its snapshot exactly when it belongs to the subscription |
| Schedule.ProgressListsEveryPlan | main.go:703-715 | a session's subject progress lists every plan of its subscription, and nothing else |
| Schedule.PointerOfFirstPlan | main.go:839-843 | the daily view shows the first plan's pointer, chapter 1, part 1 without a plan, and a valid pointer while the plans are consistent |
| Schedule.FirstSubjectIsOne | main.go:845-850 | the subject shown holds no comma and has no white space at either end |
| Schedule.FirstSubjectOfJoin | main.go:845-850 | for subjects stored joined with commas, the subject shown is the first of them, trimmed |
| Views.SessionsSorted | main.go:683 | the sessions come earliest time first |
| Views.SessionAt | main.go:719-731 | the session at position k is that of the k-th row in time order |
| Views.SessionsSelected | main.go:677-684 | every session comes from an active subscription of the teacher scheduled on the day |
| Views.SelectedHaveSessions | main.go:677-684 | every such subscription has a session |
| Views.SessionsListPlans | main.go:703-715 | every session lists the snapshot of every plan of its subscription |
| Views.EntriesOfAppend | main.go:829-873 | one more row read adds its entry at the end |
| Views.TodayViewHoliday | main.go:802-811 | the view reports a holiday exactly when the calendar lists the date, with the first such row's name, and then lists no entry |
| Views.TodayViewEntries | main.go:814-873 | on a working day the entries are exactly the selected subscriptions, each with its first subject, trimmed and comma-free, for any tables; each pointer is valid while the plans are consistent |
| Store.SeededPlansAppend | main.go:404-426 | one more subject adds its plan, numbered next, at the end |
| Store.SeededPlansFresh | main.go:421-425 | seeded plans are numbered on from the next id, belong to the new subscription, start at (1, 1) with nothing done |
| Store.StatusOrActive | main.go:498 | an empty status becomes "active"; any other is kept |
| Store.EditedRow | main.go:494-503 | the update keeps the row's id, completed count and percentage |
| Store.TotalOfUnique | main.go:591 | with increasing ids, the total read back is that of the one row with the id |
| Store.CompleteNotFound | main.go:552-560 | a completion reports not found exactly when the subscription has no plan for the subject, and then changes nothing |
| Store.CompleteRecordsClass | main.go:562-582 | a completion appends one ledger row with the plan's pointer before the advance, replaces that plan by its advanced form (same id, subscription, subject and parts needed; one more part done), changes no other plan, and reports the new pointer |
| Store.CompleteCountsOne | main.go:584-602 | on consistent tables a completion raises the subscription's count by exactly one, stores each row's percentage of its own total, reports a valid pointer, and leaves other subscriptions alone |
| Store.InsertKeepsConsistent | main.go:386-396 | inserting the new subscription with the next id and no progress keeps the tables consistent |
| Store.SeedKeepsConsistent | main.go:421-425 | seeding fresh plans for an existing subscription keeps the tables consistent |
| Store.EditKeepsConsistent | main.go:494-503 | the update keeps the tables consistent |
| Store.DeleteKeepsConsistent | main.go:520-523 | the cascade delete keeps the tables consistent |
| Store.CompleteKeepsConsistent | main.go:562-602 | a completion keeps the tables consistent: new ledger id, plan advanced, subscription count equal to the new sum |
| Store.AppendKeepsEventOrder | main.go:562-566 | a ledger row with the next id keeps the ledger in increasing id order |
| Store.AdvanceKeepsPlanOrder | main.go:578-582 | advancing a plan keeps the plans in increasing id order |
| Store.Store.constructor | main.go:386-396 | empty tables, serial keys starting at 1, consistent |
| Store.Store.CreateSubscription | main.go:328-438 | inserts the row with the next id, the derived days and the total of the resolved counts, then one fresh plan per listed subject; keeps the tables consistent |
| Store.Store.InsertSubscription | main.go:357-396 | the totals loop and the insert: the row appended with the next id and the computed total |
| Store.Store.SeedPlans | main.go:403-426 | the seeding loop appends exactly the seeded plans, numbered on, and keeps the tables consistent |
| Store.Store.UpdateSubscription | main.go:443-510 | rewrites exactly the rows with the id, with the update total, and nothing else; keeps the tables consistent |
| Store.Store.DeleteSubscription | main.go:517-531 | removes exactly the subscription's ledger rows, plans and rows, and nothing else; keeps the tables consistent |
| Store.Store.CompleteClass | main.go:535-612 | leaves the tables and answer that `Complete` gives, uses the next ledger id only on success, and keeps the tables consistent |
| Store.Store.ProgressHistory | main.go:617-660 | the loop returns the history: the newest 50 events of the subscription, newest first |
| Store.Store.SubjectProgressFor | main.go:700-715 | the loop returns the snapshots of the subscription's plans in table order |
| Store.Store.TeacherTodayV2 | main.go:665-739 | returns the day's name and code and one session per selected subscription in time order |
| Store.Store.TodaySchedule | main.go:789-877 | returns the view `TodayView` describes: the holiday, or the day's entries |
| Store.Store.BuildEntries | main.go:829-873 | the row loop builds one entry per row, in order |

## Left out

- HTTP routing, JSON binding and response shaping, CORS and start-up are not modelled; the handlers' inputs are parameters and their answers are return values.
- Database failures are not modelled: a failed `INSERT` or `UPDATE` and its 500 answer are left out, and every statement is taken to succeed.
- Concurrency is not modelled: each handler runs alone, so the lost update of two simultaneous completions of one plan is out of scope.
- `time.Now()` is a parameter: the weekday (`w`) and the date text (`date`) are passed in.
- Pass-through fields the core never reads (phones, guardian, amount, billing date, `schedule_json`, timestamps) are not part of the rows.
- Percent: modelled as an exact `real`, so the rounding of Go's `float64` is not captured.
- Integers are unbounded: the 64-bit range of Go's `int` is not modelled.
- Text.Lower: lower-cases ASCII letters only, not the full Unicode case mapping of PostgreSQL's `LOWER`.
- Text.TextLeq: `ORDER BY time` is modelled as code-point order (the C collation); other collations are not.
- Row order: SQL leaves the order of rows unspecified without `ORDER BY`. The model reads tables in insertion order, so a `QueryRow` takes the first inserted match.
- Schedule.SortByTime: rows with equal times keep their table order; SQL does not promise that.
- Ledger.HistoryNewestFirst: `completed_at DESC` is modelled as reverse insertion order, which holds when the clock never goes back.
- Database defaults (status "active", chapter 1, part 1, no progress) are written out in the rows the handlers insert.
- Teacher CRUD and login, content management, transactions and analytics, GPS attendance, exam grading and exam submissions are not part of this model.
- The legacy `getSchedule` handler, which hard-codes chapter 1, part 1, is not part of this model.
- Store.Store.CompleteClass: the three statements of the completion are applied together, after the plan is read; the tables between them are not observable here.
