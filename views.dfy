/** The two teacher views of the day: the version-2 session list and the
    daily schedule with its holiday check. */
module Views {
  import opened Seqs
  import opened Text
  import opened Advancement
  import opened Tables
  import opened Schedule

  /** `getTeacherTodayV2`'s sessions: one per selected subscription in time
      order, each with the snapshots of all its plans. */
  function SessionsFor(subs: seq<Subscription>, plans: seq<SubjectPlan>, teacherId: string, w: Weekday): seq<Session> {
    var rows := TodayOrder(subs, teacherId, w);
    seq(|rows|, k requires 0 <= k < |rows| => SessionOf(rows[k], ProgressOf(plans, rows[k].id)))
  }

  /** The sessions come earliest time first. */
  lemma SessionsSorted(subs: seq<Subscription>, plans: seq<SubjectPlan>, teacherId: string, w: Weekday)
    ensures var sessions := SessionsFor(subs, plans, teacherId, w);
      forall i, j :: 0 <= i < j < |sessions| ==> TextLeq(sessions[i].time, sessions[j].time)
  {
    var rows := TodayOrder(subs, teacherId, w);
    assert forall i, j :: 0 <= i < j < |rows| ==> TextLeq(rows[i].time, rows[j].time);
  }

  /** The session at position `k` is that of the `k`-th row in time order. */
  lemma SessionAt(subs: seq<Subscription>, plans: seq<SubjectPlan>, teacherId: string, w: Weekday, k: nat)
    requires k < |TodayOrder(subs, teacherId, w)|
    ensures |SessionsFor(subs, plans, teacherId, w)| == |TodayOrder(subs, teacherId, w)|
    ensures SessionsFor(subs, plans, teacherId, w)[k].subscriptionId == TodayOrder(subs, teacherId, w)[k].id
  {
  }

  /** Each session comes from one of the teacher's active subscriptions
      scheduled on the day ... */
  lemma SessionsSelected(subs: seq<Subscription>, plans: seq<SubjectPlan>, teacherId: string, w: Weekday)
    ensures var sessions := SessionsFor(subs, plans, teacherId, w);
      forall k :: 0 <= k < |sessions| ==>
        exists s :: s in subs && Selected(s, teacherId, w) && s.id == sessions[k].subscriptionId
  {
    var rows := TodayOrder(subs, teacherId, w);
    var sessions := SessionsFor(subs, plans, teacherId, w);
    forall k | 0 <= k < |sessions|
      ensures exists s :: s in subs && Selected(s, teacherId, w) && s.id == sessions[k].subscriptionId
    {
      SessionAt(subs, plans, teacherId, w, k);
      assert rows[k] in rows;
    }
  }

  /** ... and each of those has a session. */
  lemma SelectedHaveSessions(subs: seq<Subscription>, plans: seq<SubjectPlan>, teacherId: string, w: Weekday)
    ensures var sessions := SessionsFor(subs, plans, teacherId, w);
      forall s :: s in subs && Selected(s, teacherId, w) ==>
        exists k :: 0 <= k < |sessions| && sessions[k].subscriptionId == s.id
  {
    var rows := TodayOrder(subs, teacherId, w);
    forall s | s in subs && Selected(s, teacherId, w)
      ensures exists k :: 0 <= k < |SessionsFor(subs, plans, teacherId, w)| && SessionsFor(subs, plans, teacherId, w)[k].subscriptionId == s.id
    {
      var k :| 0 <= k < |rows| && rows[k] == s;
      SessionAt(subs, plans, teacherId, w, k);
    }
  }

  /** Every session lists every plan of its subscription. */
  lemma SessionsListPlans(subs: seq<Subscription>, plans: seq<SubjectPlan>, teacherId: string, w: Weekday)
    ensures var sessions := SessionsFor(subs, plans, teacherId, w);
      forall k, p :: 0 <= k < |sessions| && p in plans && p.subscriptionId == sessions[k].subscriptionId ==>
        SnapshotOf(p) in sessions[k].subjectProgress
  {
    var rows := TodayOrder(subs, teacherId, w);
    var sessions := SessionsFor(subs, plans, teacherId, w);
    forall k, p | 0 <= k < |sessions| && p in plans && p.subscriptionId == sessions[k].subscriptionId
      ensures SnapshotOf(p) in sessions[k].subjectProgress
    {
      ProgressListsEveryPlan(plans, rows[k].id);
    }
  }

  /** `getTodaySchedule`: the holiday of the date if the calendar lists one
      (the first such row), otherwise one entry per selected subscription in
      table order. */
  function TodayView(holidays: seq<Holiday>, subs: seq<Subscription>, plans: seq<SubjectPlan>,
                     teacherId: string, w: Weekday, date: string): TodayResult
  {
    match FirstIndex(holidays, HolidayOn(date))
    case Some(k) => OnHoliday(holidays[k].name)
    case None =>
      Schedules(DayName(w), EntriesOf(Filter(subs, ScheduledFor(teacherId, w)), plans))
  }

  function EntriesOf(rows: seq<Subscription>, plans: seq<SubjectPlan>): (r: seq<TodayEntry>)
    ensures |r| == |rows|
  {
    seq(|rows|, k requires 0 <= k < |rows| => EntryOf(rows[k], plans))
  }

  lemma EntriesOfAppend(rows: seq<Subscription>, i: nat, plans: seq<SubjectPlan>)
    requires i < |rows|
    ensures EntriesOf(rows[..i + 1], plans) == EntriesOf(rows[..i], plans) + [EntryOf(rows[i], plans)]
  {
    var a, b := EntriesOf(rows[..i + 1], plans), EntriesOf(rows[..i], plans) + [EntryOf(rows[i], plans)];
    forall k | 0 <= k < |a| ensures a[k] == b[k] {
      assert rows[..i + 1][k] == rows[k];
    }
  }

  /** The view reports a holiday exactly when the calendar lists the date, and
      then lists no entry; its name is that of the first row for the date. */
  lemma TodayViewHoliday(holidays: seq<Holiday>, subs: seq<Subscription>, plans: seq<SubjectPlan>,
                         teacherId: string, w: Weekday, date: string)
    ensures var r := TodayView(holidays, subs, plans, teacherId, w, date);
      && (r.OnHoliday? <==> exists k :: 0 <= k < |holidays| && holidays[k].date == date)
      && (forall k :: 0 <= k < |holidays| && holidays[k].date == date
                      && (forall j :: 0 <= j < k ==> holidays[j].date != date)
                      ==> r == OnHoliday(holidays[k].name))
  {
    var f := FirstIndex(holidays, HolidayOn(date));
    if f.Some? {
      assert HolidayOn(date)(holidays[f.value]);
    } else {
      assert forall k :: 0 <= k < |holidays| ==> !HolidayOn(date)(holidays[k]);
    }
  }

  /** On a working day the entries are the teacher's active subscriptions
      scheduled on the day, each showing the first of its subjects, trimmed;
      while the plans are consistent each pointer is valid. */
  lemma TodayViewEntries(holidays: seq<Holiday>, subs: seq<Subscription>, plans: seq<SubjectPlan>,
                         teacherId: string, w: Weekday, date: string)
    ensures var r := TodayView(holidays, subs, plans, teacherId, w, date);
      r.Schedules? ==>
        && r.today == DayName(w)
        && (forall k :: 0 <= k < |r.entries| ==>
              && ((forall j :: 0 <= j < |plans| ==> PlanConsistent(plans[j])) ==>
                    ValidPosition(Position(r.entries[k].chapter, r.entries[k].part)))
              && ',' !in r.entries[k].subject
              && exists s :: s in subs && Selected(s, teacherId, w) && s.id == r.entries[k].subscriptionId
                             && r.entries[k].subject == FirstSubject(s.subjects))
        && (forall s :: s in subs && Selected(s, teacherId, w) ==>
              exists k :: 0 <= k < |r.entries| && r.entries[k].subscriptionId == s.id)
  {
    var r := TodayView(holidays, subs, plans, teacherId, w, date);
    if r.Schedules? {
      var rows := Filter(subs, ScheduledFor(teacherId, w));
      forall k | 0 <= k < |r.entries|
        ensures exists s :: s in subs && Selected(s, teacherId, w) && s.id == r.entries[k].subscriptionId
                            && r.entries[k].subject == FirstSubject(s.subjects)
      {
        assert rows[k] in rows;
      }
      forall k | 0 <= k < |r.entries|
        ensures (forall j :: 0 <= j < |plans| ==> PlanConsistent(plans[j])) ==>
                  ValidPosition(Position(r.entries[k].chapter, r.entries[k].part))
        ensures ',' !in r.entries[k].subject
      {
        if forall j :: 0 <= j < |plans| ==> PlanConsistent(plans[j]) {
          PointerOfFirstPlan(plans, rows[k].id);
        }
        FirstSubjectIsOne(rows[k].subjects);
      }
      forall s | s in subs && Selected(s, teacherId, w)
        ensures exists k :: 0 <= k < |r.entries| && r.entries[k].subscriptionId == s.id
      {
        var k :| 0 <= k < |rows| && rows[k] == s;
        assert r.entries[k].subscriptionId == s.id;
      }
    }
  }
}
