/** The day-of-week match of the teacher views: the weekday's short name,
    its numeric code, the `schedule_days LIKE` test, the selection of a
    teacher's active subscriptions for the day and its order by time. */
module Schedule {
  import opened Seqs
  import opened Text
  import opened Tables
  import opened Advancement

  /** `time.Weekday`: Sunday is 0, Saturday is 6. */
  type Weekday = w: int | 0 <= w < 7

  const DayNames: seq<string> := ["Sun", "Mon", "Tue", "Wed", "Thu", "Fri", "Sat"]

  predicate IsLetter(c: char) {
    'A' <= c <= 'Z' || 'a' <= c <= 'z'
  }

  /** `getDayName`: the three-letter name of the weekday, capital first. */
  function DayName(w: Weekday): (name: string)
    ensures |name| == 3 && 'A' <= name[0] <= 'Z'
    ensures forall k :: 0 <= k < |name| ==> IsLetter(name[k])
  {
    DayNames[w]
  }

  /** Different weekdays have different names. */
  lemma DayNamesDistinct(v: Weekday, w: Weekday)
    ensures DayName(v) == DayName(w) <==> v == w
  {
    DayCodeOfWeekday(v);
    DayCodeOfWeekday(w);
  }

  /** `dayNameToCode`: Sat is "1", Sun "2", and so on to Fri "7"; any other
      text has no code and the map lookup yields "". */
  function DayCode(name: string): string {
    if name == "Sat" then "1"
    else if name == "Sun" then "2"
    else if name == "Mon" then "3"
    else if name == "Tue" then "4"
    else if name == "Wed" then "5"
    else if name == "Thu" then "6"
    else if name == "Fri" then "7"
    else ""
  }

  /** The code digit of a weekday, counted from Saturday. */
  function CodeDigit(w: Weekday): (c: char)
    ensures '1' <= c <= '7'
  {
    ('1' as int + (w + 1) % 7) as char
  }

  /** Every weekday's name has a code: the single digit one past its
      distance from Saturday, so no two weekdays share a code. */
  lemma DayCodeOfWeekday(w: Weekday)
    ensures DayCode(DayName(w)) == [CodeDigit(w)]
    ensures forall v: Weekday :: CodeDigit(v) == CodeDigit(w) ==> v == w
  {
    if w == 0 {
      assert DayName(w) == "Sun";
    } else if w == 1 {
      assert DayName(w) == "Mon";
    } else if w == 2 {
      assert DayName(w) == "Tue";
    } else if w == 3 {
      assert DayName(w) == "Wed";
    } else if w == 4 {
      assert DayName(w) == "Thu";
    } else if w == 5 {
      assert DayName(w) == "Fri";
    } else {
      assert DayName(w) == "Sat";
    }
  }

  /** `schedule_days LIKE '%name%' OR schedule_days LIKE '%code%'`. */
  predicate DayMatches(days: string, w: Weekday) {
    Contains(days, DayName(w)) || Contains(days, DayCode(DayName(w)))
  }

  /** A day list written in codes matches exactly the weekdays whose code
      digit it holds. */
  lemma CodeDaysMatch(days: string, w: Weekday)
    requires forall k :: 0 <= k < |days| ==> days[k] == ',' || '1' <= days[k] <= '7'
    ensures DayMatches(days, w) <==> CodeDigit(w) in days
  {
    DayCodeOfWeekday(w);
    ContainsChar(days, CodeDigit(w));
    ContainsIff(days, DayName(w));
    forall i | 0 <= i && i + 3 <= |days| ensures !OccursAt(days, DayName(w), i) {
      assert days[i..i + 3][0] != DayName(w)[0];
    }
  }

  /** A day list without digits matches a weekday exactly when it contains
      the weekday's name. */
  lemma NameDaysMatch(days: string, w: Weekday)
    requires forall k :: 0 <= k < |days| ==> !('1' <= days[k] <= '7')
    ensures DayMatches(days, w) <==> Contains(days, DayName(w))
  {
    DayCodeOfWeekday(w);
    ContainsChar(days, CodeDigit(w));
  }

  /** A subscription scheduled on one named day is selected on that day only. */
  lemma SingleNamedDay(v: Weekday, w: Weekday)
    ensures DayMatches(DayName(v), w) <==> v == w
  {
    var days := DayName(v);
    forall k | 0 <= k < |days| ensures !('1' <= days[k] <= '7') {
      assert IsLetter(days[k]);
    }
    NameDaysMatch(days, w);
    ContainsSameLength(days, DayName(w));
    DayNamesDistinct(v, w);
  }

  /** The match is on text, not on a list: the stored days "13" hold the
      codes of Saturday and of Monday, and select both, and no other day. */
  lemma RunTogetherCodes(w: Weekday)
    ensures DayMatches("13", w) <==> w == 6 || w == 1
  {
    var days := "13";
    CodeDaysMatch(days, w);
    assert CodeDigit(w) in days <==> CodeDigit(w) == '1' || CodeDigit(w) == '3';
  }

  /** The `WHERE` clause of both teacher views. */
  predicate Selected(s: Subscription, teacherId: string, w: Weekday) {
    s.teacherId == teacherId && s.status == "active" && DayMatches(s.scheduleDays, w)
  }

  function ScheduledFor(teacherId: string, w: Weekday): Subscription -> bool {
    (s: Subscription) => Selected(s, teacherId, w)
  }

  /** Ordered by `time` as text. */
  predicate SortedByTime(s: seq<Subscription>) {
    forall i, j :: 0 <= i < j < |s| ==> TextLeq(s[i].time, s[j].time)
  }

  /** `x` placed in a time-sorted list, after every row with an earlier time. */
  function InsertByTime(x: Subscription, s: seq<Subscription>): (r: seq<Subscription>)
    requires SortedByTime(s)
    ensures SortedByTime(r)
    ensures multiset(r) == multiset(s) + multiset{x}
  {
    if s == [] then [x]
    else if TextLeq(x.time, s[0].time) then
      FirstBeforeAll(x, s);
      SortedCons(x, s);
      [x] + s
    else
      var rest := InsertByTime(x, s[1..]);
      HeadBeforeInserted(x, s, rest);
      SortedCons(s[0], rest);
      assert s == [s[0]] + s[1..];
      [s[0]] + rest
  }

  /** A row no later than every row of a sorted list can head it. */
  lemma SortedCons(y: Subscription, s: seq<Subscription>)
    requires SortedByTime(s)
    requires forall j :: 0 <= j < |s| ==> TextLeq(y.time, s[j].time)
    ensures SortedByTime([y] + s)
  {
    var r := [y] + s;
    forall i, j | 0 <= i < j < |r| ensures TextLeq(r[i].time, r[j].time) {
      assert r[j] == s[j - 1];
      if i > 0 {
        assert r[i] == s[i - 1];
      }
    }
  }

  /** A row no later than the head of a sorted list is no later than any of it. */
  lemma FirstBeforeAll(x: Subscription, s: seq<Subscription>)
    requires SortedByTime(s) && s != [] && TextLeq(x.time, s[0].time)
    ensures forall j :: 0 <= j < |s| ==> TextLeq(x.time, s[j].time)
  {
    forall j | 1 <= j < |s| ensures TextLeq(x.time, s[j].time) {
      TextLeqTransitive(x.time, s[0].time, s[j].time);
    }
  }

  /** When `x` goes after the head of a sorted list, the head is no later than
      any row of the rest with `x` placed in it. */
  lemma HeadBeforeInserted(x: Subscription, s: seq<Subscription>, rest: seq<Subscription>)
    requires SortedByTime(s) && s != [] && !TextLeq(x.time, s[0].time)
    requires multiset(rest) == multiset(s[1..]) + multiset{x}
    ensures forall j :: 0 <= j < |rest| ==> TextLeq(s[0].time, rest[j].time)
  {
    TextLeqTotal(x.time, s[0].time);
    forall j | 0 <= j < |rest| ensures TextLeq(s[0].time, rest[j].time) {
      assert rest[j] in multiset(rest);
      if rest[j] != x {
        assert rest[j] in multiset(s[1..]);
        var m :| 0 <= m < |s[1..]| && s[1..][m] == rest[j];
        assert s[m + 1] == rest[j];
      }
    }
  }

  /** `ORDER BY time`: the rows sorted by time, rows of equal time kept in
      table order. */
  function SortByTime(s: seq<Subscription>): (r: seq<Subscription>)
    ensures SortedByTime(r)
    ensures multiset(r) == multiset(s)
  {
    if s == [] then []
    else
      assert s == [s[0]] + s[1..];
      InsertByTime(s[0], SortByTime(s[1..]))
  }

  /** The rows of the teacher's view for the day, in the order it lists them. */
  function TodayOrder(subs: seq<Subscription>, teacherId: string, w: Weekday): (r: seq<Subscription>)
    ensures forall s :: s in r <==> s in subs && Selected(s, teacherId, w)
    ensures SortedByTime(r)
    ensures multiset(r) == multiset(Filter(subs, ScheduledFor(teacherId, w)))
  {
    var r := SortByTime(Filter(subs, ScheduledFor(teacherId, w)));
    var f := Filter(subs, ScheduledFor(teacherId, w));
    assert forall s :: s in r <==> s in multiset(r);
    assert forall s :: s in f <==> s in multiset(f);
    r
  }

  /** One element of `subject_progress`: a plan's subject and pointer. */
  datatype SubjectProgress = SubjectProgress(subject: string, chapter: int, part: int)

  function SnapshotOf(p: SubjectPlan): SubjectProgress {
    SubjectProgress(p.subject, p.chapter, p.part)
  }

  /** `subject_progress` of a session: a snapshot of every plan of the
      subscription, in table order. */
  function ProgressOf(plans: seq<SubjectPlan>, subscriptionId: nat): seq<SubjectProgress> {
    var own := Filter(plans, PlanOf(subscriptionId));
    seq(|own|, k requires 0 <= k < |own| => SnapshotOf(own[k]))
  }

  /** One more plan row read adds its snapshot when it belongs to the subscription. */
  lemma ProgressOfAppend(plans: seq<SubjectPlan>, p: SubjectPlan, subscriptionId: nat)
    ensures ProgressOf(plans + [p], subscriptionId)
            == ProgressOf(plans, subscriptionId) + (if p.subscriptionId == subscriptionId then [SnapshotOf(p)] else [])
  {
    FilterConcat(plans, [p], PlanOf(subscriptionId));
    assert Filter([p], PlanOf(subscriptionId)) == if p.subscriptionId == subscriptionId then [p] else [];
  }

  /** A session lists every plan of its subscription, and nothing else. */
  lemma ProgressListsEveryPlan(plans: seq<SubjectPlan>, subscriptionId: nat)
    ensures forall p :: p in plans && p.subscriptionId == subscriptionId ==> SnapshotOf(p) in ProgressOf(plans, subscriptionId)
    ensures forall x :: x in ProgressOf(plans, subscriptionId) ==>
      exists p :: p in plans && p.subscriptionId == subscriptionId && x == SnapshotOf(p)
  {
    var own := Filter(plans, PlanOf(subscriptionId));
    var r := ProgressOf(plans, subscriptionId);
    forall p | p in plans && p.subscriptionId == subscriptionId ensures SnapshotOf(p) in r {
      assert p in own;
      var k :| 0 <= k < |own| && own[k] == p;
      assert r[k] == SnapshotOf(p);
    }
    forall x | x in r ensures exists p :: p in plans && p.subscriptionId == subscriptionId && x == SnapshotOf(p) {
      var k :| 0 <= k < |r| && r[k] == x;
      assert own[k] in own;
    }
  }

  /** One session of the version-2 teacher view. */
  datatype Session = Session(
    subscriptionId: nat,
    studentName: string,
    classLevel: int,
    subjects: seq<string>,
    scheduleDays: seq<string>,
    time: string,
    completedClasses: int,
    totalClasses: int,
    progressPercent: real,
    subjectProgress: seq<SubjectProgress>)

  function SessionOf(s: Subscription, progress: seq<SubjectProgress>): Session {
    Session(s.id, s.studentName, s.classLevel, Split(s.subjects), Split(s.scheduleDays), s.time,
            s.completedClasses, s.totalClasses, s.progressPercent, progress)
  }

  /** The pointer the daily view shows for a subscription: that of its first
      plan row (`LIMIT 1`), or chapter 1, part 1 when it has none. */
  function PointerOf(plans: seq<SubjectPlan>, subscriptionId: nat): Position {
    match FirstIndex(plans, PlanOf(subscriptionId))
    case Some(k) => plans[k].At()
    case None => Position(1, 1)
  }

  /** The pointer shown is the first plan's of the subscription, chapter 1,
      part 1 without a plan, and a valid pointer while the plans are
      consistent. */
  lemma PointerOfFirstPlan(plans: seq<SubjectPlan>, subscriptionId: nat)
    ensures (forall k :: 0 <= k < |plans| ==> plans[k].subscriptionId != subscriptionId)
            ==> PointerOf(plans, subscriptionId) == Position(1, 1)
    ensures forall k :: 0 <= k < |plans| && plans[k].subscriptionId == subscriptionId
                        && (forall j :: 0 <= j < k ==> plans[j].subscriptionId != subscriptionId)
                        ==> PointerOf(plans, subscriptionId) == plans[k].At()
    ensures (forall k :: 0 <= k < |plans| ==> PlanConsistent(plans[k])) ==> ValidPosition(PointerOf(plans, subscriptionId))
  {
    var f := FirstIndex(plans, PlanOf(subscriptionId));
    if f.Some? {
      assert PlanOf(subscriptionId)(plans[f.value]);
    } else {
      assert forall k :: 0 <= k < |plans| ==> !PlanOf(subscriptionId)(plans[k]);
    }
  }

  /** The subject the daily view shows: the first comma-separated subject,
      trimmed. */
  function FirstSubject(subjects: string): string {
    TrimSpace(Split(subjects)[0])
  }

  /** The subject shown is a single subject: it holds no comma and has no
      white space at either end. */
  lemma FirstSubjectIsOne(subjects: string)
    ensures var r := FirstSubject(subjects);
      ',' !in r && (r != [] ==> !IsSpace(r[0]) && !IsSpace(r[|r| - 1]))
  {
    var first := Split(subjects)[0];
    SplitNoComma(subjects);
    assert ',' !in first;
    TrimSpaceSlice(first);
    var r := TrimSpace(first);
    var start := |first| - |TrimLeft(first)|;
    forall i | 0 <= i < |r| ensures r[i] != ',' {
      assert r[i] == first[start + i];
    }
  }

  /** For subjects stored joined with commas, it is the first of them, trimmed. */
  lemma FirstSubjectOfJoin(parts: seq<string>)
    requires parts != []
    requires forall k :: 0 <= k < |parts| ==> ',' !in parts[k]
    ensures FirstSubject(Join(parts)) == TrimSpace(parts[0])
  {
    SplitJoin(parts);
  }

  /** One row of the daily teacher view. */
  datatype TodayEntry = TodayEntry(
    subscriptionId: nat,
    studentName: string,
    subject: string,
    subjects: seq<string>,
    classLevel: int,
    days: seq<string>,
    time: string,
    chapter: int,
    part: int,
    totalClasses: int,
    completedClasses: int,
    progressPercent: real)

  function EntryOf(s: Subscription, plans: seq<SubjectPlan>): TodayEntry {
    var at := PointerOf(plans, s.id);
    TodayEntry(s.id, s.studentName, FirstSubject(s.subjects), Split(s.subjects), s.classLevel,
               Split(s.scheduleDays), s.time, at.chapter, at.part, s.totalClasses, s.completedClasses,
               s.progressPercent)
  }

  /** A row of `holidays`. */
  datatype Holiday = Holiday(date: string, name: string)

  function HolidayOn(date: string): Holiday -> bool {
    (h: Holiday) => h.date == date
  }

  /** The daily teacher view: the holiday it reports, or the day's rows. */
  datatype TodayResult = OnHoliday(holidayName: string) | Schedules(today: string, entries: seq<TodayEntry>)
}
