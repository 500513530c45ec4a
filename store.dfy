/** The database state the handlers share (the `subscriptions`, `schedule`
    and `progress` tables, with the read-only `chapters` catalog and
    `holidays` calendar) and the handlers of the core as methods on it. */
module Store {
  import opened Seqs
  import opened Text
  import opened Catalog
  import opened Advancement
  import opened Tables
  import opened Ledger
  import opened Schedule
  import opened Views

  /** The body of a creation request (the fields the core reads). */
  datatype NewSubscription = NewSubscription(
    studentName: string,
    classLevel: int,
    subjects: string,
    teacherId: string,
    daysPerWeek: int,
    scheduleDays: string,
    time: string)

  /** The body of an update request (the fields the core reads). */
  datatype SubscriptionEdit = SubscriptionEdit(
    studentName: string,
    classLevel: int,
    subjects: string,
    teacherId: string,
    scheduleDays: string,
    daysPerWeek: int,
    time: string,
    status: string)

  /** The answer of the completion handler. */
  datatype Completion =
    | NotFound
    | Completed(newChapter: int, newPart: int, completedTotal: int, percent: real)

  /** The plan rows the creation handler seeds: one per subject, trimmed, at
      chapter 1, part 1, with nothing done, numbered from `firstId`. */
  function SeededPlans(firstId: nat, subscriptionId: nat, rows: seq<ChapterRow>, classLevel: int,
                       subjects: seq<string>): (r: seq<SubjectPlan>)
    ensures |r| == |subjects|
  {
    seq(|subjects|, k requires 0 <= k < |subjects| =>
      SubjectPlan(firstId + k, subscriptionId, TrimSpace(subjects[k]), 1, 1, 0,
                  SeededPartsNeeded(rows, classLevel, TrimSpace(subjects[k]))))
  }

  lemma SeededPlansAppend(firstId: nat, subscriptionId: nat, rows: seq<ChapterRow>, classLevel: int,
                          subjects: seq<string>, i: nat)
    requires i < |subjects|
    ensures SeededPlans(firstId, subscriptionId, rows, classLevel, subjects[..i + 1])
            == SeededPlans(firstId, subscriptionId, rows, classLevel, subjects[..i])
               + [SubjectPlan(firstId + i, subscriptionId, TrimSpace(subjects[i]), 1, 1, 0,
                              SeededPartsNeeded(rows, classLevel, TrimSpace(subjects[i])))]
  {
    var a := SeededPlans(firstId, subscriptionId, rows, classLevel, subjects[..i + 1]);
    var b := SeededPlans(firstId, subscriptionId, rows, classLevel, subjects[..i]);
    forall k | 0 <= k < i ensures a[k] == b[k] {
      assert subjects[..i + 1][k] == subjects[..i][k];
    }
    assert subjects[..i + 1][i] == subjects[i];
  }

  /** Seeded plans are numbered on from `firstId`, belong to the new
      subscription and start at chapter 1, part 1 with nothing done. */
  lemma SeededPlansFresh(firstId: nat, subscriptionId: nat, rows: seq<ChapterRow>, classLevel: int,
                         subjects: seq<string>)
    ensures var seeded := SeededPlans(firstId, subscriptionId, rows, classLevel, subjects);
      forall k :: 0 <= k < |seeded| ==>
        seeded[k].id == firstId + k && seeded[k].subscriptionId == subscriptionId
        && seeded[k].partsDone == 0 && seeded[k].At() == Position(1, 1)
  {
  }

  /** The row the creation handler inserts: the DB defaults give status
      "active" and no progress. */
  function NewRow(id: nat, input: NewSubscription, total: int): Subscription {
    Subscription(id, input.studentName, input.classLevel, input.subjects, input.teacherId,
                 DaysPerWeek(input.daysPerWeek, input.scheduleDays), input.scheduleDays, input.time,
                 "active", total, 0, 0.0)
  }

  /** `COALESCE(NULLIF(status, ''), 'active')`. */
  function StatusOrActive(status: string): (r: string)
    ensures r != ""
    ensures status != "" ==> r == status
    ensures status == "" ==> r == "active"
  {
    if status == "" then "active" else status
  }

  /** A subscription row after the update handler's `UPDATE`: the request's
      fields, the derived days and total, and the progress figures as they were. */
  function EditedRow(s: Subscription, edit: SubscriptionEdit, total: int): (r: Subscription)
    ensures r.id == s.id && r.completedClasses == s.completedClasses && r.progressPercent == s.progressPercent
  {
    s.(studentName := edit.studentName, classLevel := edit.classLevel, subjects := edit.subjects,
       teacherId := edit.teacherId, scheduleDays := edit.scheduleDays, time := edit.time,
       status := StatusOrActive(edit.status), daysPerWeek := DaysPerWeek(edit.daysPerWeek, edit.scheduleDays),
       totalClasses := total)
  }

  function Edited(subs: seq<Subscription>, id: nat, edit: SubscriptionEdit, total: int): (r: seq<Subscription>)
    ensures |r| == |subs|
  {
    seq(|subs|, k requires 0 <= k < |subs| => if subs[k].id == id then EditedRow(subs[k], edit, total) else subs[k])
  }

  /** `SELECT total_classes FROM subscriptions WHERE id = $1`: the total of
      the first row with the id, or 0 (the variable's zero value) when there
      is none. */
  function TotalOf(subs: seq<Subscription>, id: nat): int {
    match FirstIndex(subs, SubscriptionWith(id))
    case Some(j) => subs[j].totalClasses
    case None => 0
  }

  /** With increasing ids, at most one row has the id, so its total is the one read. */
  lemma TotalOfUnique(subs: seq<Subscription>, id: nat)
    requires Ordered(subs, SubscriptionIdOrder)
    ensures forall j :: 0 <= j < |subs| && subs[j].id == id ==> TotalOf(subs, id) == subs[j].totalClasses
  {
    if FirstIndex(subs, SubscriptionWith(id)).Some? {
      var i := FirstIndex(subs, SubscriptionWith(id)).value;
      assert forall j :: i < j < |subs| ==> SubscriptionIdOrder(subs[i], subs[j]);
    }
  }

  /** The tables a completion leaves, with its answer. */
  datatype Outcome = Outcome(result: Completion, subs: seq<Subscription>, plans: seq<SubjectPlan>, events: seq<ProgressEvent>)

  /** The completion handler on the tables: the first plan of the subject
      (`QueryRow`) is advanced and the class recorded at its old pointer;
      the subscription's rows get the new sum of parts done and its
      percentage of the total read back. Without such a plan nothing changes. */
  function Complete(subs: seq<Subscription>, plans: seq<SubjectPlan>, events: seq<ProgressEvent>, nextEventId: nat,
                    subscriptionId: nat, subject: string, teacherId: string, notes: string): Outcome
  {
    match FirstIndex(plans, PlanFor(subscriptionId, subject))
    case None => Outcome(NotFound, subs, plans, events)
    case Some(k) =>
      var p := plans[k];
      var q := Advanced(p);
      var plans' := plans[k := q];
      var completed := PartsDoneOf(plans', subscriptionId);
      var percent := Percent(completed, TotalOf(subs, subscriptionId));
      Outcome(Completed(q.chapter, q.part, completed, percent),
              Reaggregate(subs, subscriptionId, completed, percent),
              plans',
              events + [ProgressEvent(nextEventId, subscriptionId, p.id, subject, p.chapter, p.part, teacherId, notes)])
  }

  /** A completion finds no plan exactly when the subscription has none for
      the subject, and then changes nothing. */
  lemma CompleteNotFound(subs: seq<Subscription>, plans: seq<SubjectPlan>, events: seq<ProgressEvent>, nextEventId: nat,
                         subscriptionId: nat, subject: string, teacherId: string, notes: string)
    ensures var o := Complete(subs, plans, events, nextEventId, subscriptionId, subject, teacherId, notes);
      && (o.result.NotFound? <==>
            forall k :: 0 <= k < |plans| ==> !(plans[k].subscriptionId == subscriptionId && plans[k].subject == subject))
      && (o.result.NotFound? ==> o.subs == subs && o.plans == plans && o.events == events)
  {
    var f := FirstIndex(plans, PlanFor(subscriptionId, subject));
    if f.Some? {
      assert PlanFor(subscriptionId, subject)(plans[f.value]);
    }
  }

  /** A completion records the class at the plan's pointer before the
      advance, under the next ledger id, and changes only that plan. */
  lemma CompleteRecordsClass(subs: seq<Subscription>, plans: seq<SubjectPlan>, events: seq<ProgressEvent>,
                             nextEventId: nat, subscriptionId: nat, subject: string, teacherId: string, notes: string,
                             k: nat)
    requires k < |plans| && plans[k].subscriptionId == subscriptionId && plans[k].subject == subject
    requires forall j :: 0 <= j < k ==> !(plans[j].subscriptionId == subscriptionId && plans[j].subject == subject)
    ensures var o := Complete(subs, plans, events, nextEventId, subscriptionId, subject, teacherId, notes);
      && o.result.Completed?
      && o.events == events + [ProgressEvent(nextEventId, subscriptionId, plans[k].id, subject,
                                             plans[k].chapter, plans[k].part, teacherId, notes)]
      && |o.plans| == |plans|
      && (forall j :: 0 <= j < |plans| && j != k ==> o.plans[j] == plans[j])
      && o.plans[k] == Advanced(plans[k])
      && o.plans[k].partsDone == plans[k].partsDone + 1
      && o.plans[k].At() == Advance(plans[k].At())
      && Position(o.result.newChapter, o.result.newPart) == Advance(plans[k].At())
  {
    assert FirstIndex(plans, PlanFor(subscriptionId, subject)) == Some(k);
  }

  /** On consistent tables a completion adds exactly one class to the
      subscription: the reported total and every row of the subscription go
      up by one, each row's percentage is taken of its own total, and the new
      pointer is the one reached after the plan's new count of parts done. */
  lemma CompleteCountsOne(subs: seq<Subscription>, plans: seq<SubjectPlan>, events: seq<ProgressEvent>,
                          nextSubscriptionId: nat, nextPlanId: nat, nextEventId: nat,
                          subscriptionId: nat, subject: string, teacherId: string, notes: string)
    requires Consistent(subs, plans, events, nextSubscriptionId, nextPlanId, nextEventId)
    ensures var o := Complete(subs, plans, events, nextEventId, subscriptionId, subject, teacherId, notes);
      o.result.Completed? ==>
        && o.result.completedTotal == PartsDoneOf(plans, subscriptionId) + 1
        && ValidPosition(Position(o.result.newChapter, o.result.newPart))
        && |o.subs| == |subs|
        && (forall j :: 0 <= j < |subs| && subs[j].id == subscriptionId ==>
              && o.subs[j].completedClasses == subs[j].completedClasses + 1
              && o.subs[j].progressPercent == Percent(o.subs[j].completedClasses, subs[j].totalClasses))
        && (forall j :: 0 <= j < |subs| && subs[j].id != subscriptionId ==> o.subs[j] == subs[j])
  {
    match FirstIndex(plans, PlanFor(subscriptionId, subject))
    case None =>
    case Some(k) =>
      PartsDoneAfterUpdate(plans, k, Advanced(plans[k]), subscriptionId);
      TotalOfUnique(subs, subscriptionId);
      assert PlanConsistent(plans[k]);
  }

  /** Inserting the new subscription keeps the tables consistent: it takes
      the next id and has no progress, and no plan or ledger row refers to it yet. */
  lemma InsertKeepsConsistent(subs: seq<Subscription>, plans: seq<SubjectPlan>, events: seq<ProgressEvent>,
                              nextSubscriptionId: nat, nextPlanId: nat, nextEventId: nat, row: Subscription)
    requires Consistent(subs, plans, events, nextSubscriptionId, nextPlanId, nextEventId)
    requires row.id == nextSubscriptionId && row.completedClasses == 0
    ensures Consistent(subs + [row], plans, events, nextSubscriptionId + 1, nextPlanId, nextEventId)
  {
    var subs' := subs + [row];
    assert IdsOf(subs') == IdsOf(subs) + {row.id} by {
      assert forall k :: 0 <= k < |subs| ==> subs'[k] == subs[k];
      assert subs'[|subs|] == row;
    }
    PartsDoneOfOthers(plans, row.id);
  }

  /** Seeding plans for an existing subscription keeps the tables consistent:
      the plans take the next ids and have nothing done. */
  lemma SeedKeepsConsistent(subs: seq<Subscription>, plans: seq<SubjectPlan>, events: seq<ProgressEvent>,
                            nextSubscriptionId: nat, nextPlanId: nat, nextEventId: nat,
                            id: nat, seeded: seq<SubjectPlan>)
    requires Consistent(subs, plans, events, nextSubscriptionId, nextPlanId, nextEventId)
    requires id in IdsOf(subs)
    requires forall k :: 0 <= k < |seeded| ==>
      seeded[k].id == nextPlanId + k && seeded[k].subscriptionId == id
      && seeded[k].partsDone == 0 && seeded[k].At() == Position(1, 1)
    ensures Consistent(subs, plans + seeded, events, nextSubscriptionId, nextPlanId + |seeded|, nextEventId)
  {
    var plans' := plans + seeded;
    forall k | 0 <= k < |subs| ensures subs[k].completedClasses == PartsDoneOf(plans', subs[k].id) {
      PartsDoneConcat(plans, seeded, subs[k].id);
      PartsDoneOfFresh(seeded, subs[k].id);
    }
    forall k | 0 <= k < |plans'| ensures PlanConsistent(plans'[k]) {
      if k >= |plans| {
        assert plans'[k] == seeded[k - |plans|];
      }
    }
  }

  /** An update keeps the tables consistent: no id and no progress figure changes. */
  lemma EditKeepsConsistent(subs: seq<Subscription>, plans: seq<SubjectPlan>, events: seq<ProgressEvent>,
                            nextSubscriptionId: nat, nextPlanId: nat, nextEventId: nat,
                            id: nat, edit: SubscriptionEdit, total: int)
    requires Consistent(subs, plans, events, nextSubscriptionId, nextPlanId, nextEventId)
    ensures Consistent(Edited(subs, id, edit, total), plans, events, nextSubscriptionId, nextPlanId, nextEventId)
  {
    var subs' := Edited(subs, id, edit, total);
    assert forall k :: 0 <= k < |subs| ==> subs'[k].id == subs[k].id;
    assert IdsOf(subs') == IdsOf(subs);
  }

  /** Deletion keeps the tables consistent: what remains of every other
      subscription is untouched. */
  lemma DeleteKeepsConsistent(subs: seq<Subscription>, plans: seq<SubjectPlan>, events: seq<ProgressEvent>,
                              nextSubscriptionId: nat, nextPlanId: nat, nextEventId: nat, id: nat)
    requires Consistent(subs, plans, events, nextSubscriptionId, nextPlanId, nextEventId)
    ensures Consistent(Filter(subs, SubscriptionKept(id)), Filter(plans, PlanKept(id)), Filter(events, EventKept(id)),
                       nextSubscriptionId, nextPlanId, nextEventId)
  {
    var subs', plans', events' := Filter(subs, SubscriptionKept(id)), Filter(plans, PlanKept(id)), Filter(events, EventKept(id));
    FilterKeepsOrder(subs, SubscriptionKept(id), SubscriptionIdOrder);
    FilterKeepsOrder(plans, PlanKept(id), PlanIdOrder);
    FilterKeepsOrder(events, EventKept(id), EventIdOrder);
    assert forall n :: n in IdsOf(subs) && n != id ==> n in IdsOf(subs') by {
      forall n | n in IdsOf(subs) && n != id ensures n in IdsOf(subs') {
        var k :| 0 <= k < |subs| && subs[k].id == n;
        assert subs[k] in subs';
        var j :| 0 <= j < |subs'| && subs'[j] == subs[k];
      }
    }
    forall k | 0 <= k < |plans'|
      ensures plans'[k].id < nextPlanId && plans'[k].subscriptionId in IdsOf(subs') && PlanConsistent(plans'[k])
    {
      assert plans'[k] in plans;
    }
    forall k | 0 <= k < |events'| ensures events'[k].id < nextEventId && events'[k].subscriptionId in IdsOf(subs') {
      assert events'[k] in events;
    }
    forall k | 0 <= k < |subs'| ensures subs'[k].id < nextSubscriptionId && subs'[k].completedClasses == PartsDoneOf(plans', subs'[k].id) {
      assert subs'[k] in subs;
      PartsDoneAfterRemoval(plans, id, subs'[k].id);
    }
  }

  /** A completion keeps the tables consistent: the ledger row takes the next
      id, the plan advances by one part and the subscription's count becomes
      the new sum. */
  lemma CompleteKeepsConsistent(subs: seq<Subscription>, plans: seq<SubjectPlan>, events: seq<ProgressEvent>,
                                nextSubscriptionId: nat, nextPlanId: nat, nextEventId: nat,
                                id: nat, k: nat, event: ProgressEvent, percent: real)
    requires Consistent(subs, plans, events, nextSubscriptionId, nextPlanId, nextEventId)
    requires k < |plans| && plans[k].subscriptionId == id && event.id == nextEventId && event.subscriptionId == id
    ensures var plans' := plans[k := Advanced(plans[k])];
      Consistent(Reaggregate(subs, id, PartsDoneOf(plans', id), percent),
                 plans', events + [event], nextSubscriptionId, nextPlanId, nextEventId + 1)
  {
    var plans' := plans[k := Advanced(plans[k])];
    var subs' := Reaggregate(subs, id, PartsDoneOf(plans', id), percent);
    assert forall j :: 0 <= j < |subs| ==> subs'[j].id == subs[j].id;
    assert IdsOf(subs') == IdsOf(subs);
    forall j | 0 <= j < |subs'| ensures subs'[j].completedClasses == PartsDoneOf(plans', subs'[j].id) {
      PartsDoneAfterUpdate(plans, k, Advanced(plans[k]), subs[j].id);
    }
    AppendKeepsEventOrder(events, event);
    AdvanceKeepsPlanOrder(plans, k);
  }

  lemma AppendKeepsEventOrder(events: seq<ProgressEvent>, event: ProgressEvent)
    requires Ordered(events, EventIdOrder)
    requires forall j :: 0 <= j < |events| ==> events[j].id < event.id
    ensures Ordered(events + [event], EventIdOrder)
  {
    var events' := events + [event];
    forall i, j | 0 <= i < j < |events'| ensures EventIdOrder(events'[i], events'[j]) {
      assert events'[i] == events[i];
      if j < |events| {
        assert events'[j] == events[j];
      }
    }
  }

  lemma AdvanceKeepsPlanOrder(plans: seq<SubjectPlan>, k: nat)
    requires Ordered(plans, PlanIdOrder) && k < |plans|
    ensures Ordered(plans[k := Advanced(plans[k])], PlanIdOrder)
  {
    var plans' := plans[k := Advanced(plans[k])];
    forall i, j | 0 <= i < j < |plans'| ensures PlanIdOrder(plans'[i], plans'[j]) {
      assert plans'[i].id == plans[i].id && plans'[j].id == plans[j].id;
    }
  }

  class Store {
    /** The `chapters` catalog and the `holidays` calendar, which the core only reads. */
    const chapters: seq<ChapterRow>
    const holidays: seq<Holiday>
    var subscriptions: seq<Subscription>
    var plans: seq<SubjectPlan>
    var events: seq<ProgressEvent>
    /** The next values of the three serial keys. */
    var nextSubscriptionId: nat
    var nextPlanId: nat
    var nextEventId: nat

    ghost predicate Valid()
      reads this
    {
      Consistent(subscriptions, plans, events, nextSubscriptionId, nextPlanId, nextEventId)
    }

    /** Empty tables over the given catalog and calendar; serial keys start at 1. */
    constructor (chapters: seq<ChapterRow>, holidays: seq<Holiday>)
      ensures Valid()
      ensures this.chapters == chapters && this.holidays == holidays
      ensures subscriptions == [] && plans == [] && events == []
      ensures nextSubscriptionId == 1 && nextPlanId == 1 && nextEventId == 1
    {
      this.chapters := chapters;
      this.holidays := holidays;
      subscriptions := [];
      plans := [];
      events := [];
      nextSubscriptionId := 1;
      nextPlanId := 1;
      nextEventId := 1;
    }

    /** `createSubscription`: inserts the subscription with its total of
        classes, then one plan per listed subject. */
    method CreateSubscription(input: NewSubscription) returns (id: nat, total: int)
      requires Valid()
      modifies this`subscriptions, this`nextSubscriptionId, this`plans, this`nextPlanId
      ensures Valid()
      ensures id == old(nextSubscriptionId) && nextSubscriptionId == id + 1
      ensures total == TotalClasses(chapters, input.classLevel, Split(input.subjects))
      ensures subscriptions == old(subscriptions) + [NewRow(id, input, total)]
      ensures plans == old(plans) + SeededPlans(old(nextPlanId), id, chapters, input.classLevel, Split(input.subjects))
      ensures nextPlanId == old(nextPlanId) + |Split(input.subjects)|
    {
      id, total := InsertSubscription(input);
      SeedPlans(id, input.classLevel, Split(input.subjects));
    }

    /** The totals loop and the `INSERT INTO subscriptions ... RETURNING id`
        of `createSubscription`. */
    method InsertSubscription(input: NewSubscription) returns (id: nat, total: int)
      requires Valid()
      modifies this`subscriptions, this`nextSubscriptionId
      ensures Valid()
      ensures id == old(nextSubscriptionId) && nextSubscriptionId == id + 1
      ensures total == TotalClasses(chapters, input.classLevel, Split(input.subjects))
      ensures subscriptions == old(subscriptions) + [NewRow(id, input, total)]
      ensures id in IdsOf(subscriptions)
    {
      total := SumChapterCounts(chapters, input.classLevel, Split(input.subjects));
      id := nextSubscriptionId;
      var row := NewRow(id, input, total);
      InsertKeepsConsistent(subscriptions, plans, events, nextSubscriptionId, nextPlanId, nextEventId, row);
      subscriptions := subscriptions + [row];
      nextSubscriptionId := nextSubscriptionId + 1;
      assert subscriptions[|subscriptions| - 1] == row;
    }

    /** The plan-seeding loop of `createSubscription`. */
    method SeedPlans(id: nat, classLevel: int, subjectList: seq<string>)
      requires Valid() && id in IdsOf(subscriptions)
      modifies this`plans, this`nextPlanId
      ensures Valid()
      ensures plans == old(plans) + SeededPlans(old(nextPlanId), id, chapters, classLevel, subjectList)
      ensures nextPlanId == old(nextPlanId) + |subjectList|
    {
      ghost var plans0, first := plans, nextPlanId;
      var i := 0;
      while i < |subjectList|
        invariant 0 <= i <= |subjectList|
        invariant nextPlanId == first + i
        invariant plans == plans0 + SeededPlans(first, id, chapters, classLevel, subjectList[..i])
      {
        var subject := TrimSpace(subjectList[i]);
        var parts := SeededPartsNeeded(chapters, classLevel, subject);
        var plan := SubjectPlan(nextPlanId, id, subject, 1, 1, 0, parts);
        SeededPlansAppend(first, id, chapters, classLevel, subjectList, i);
        assert plans + [plan] == plans0 + SeededPlans(first, id, chapters, classLevel, subjectList[..i + 1]);
        plans := plans + [plan];
        nextPlanId := nextPlanId + 1;
        i := i + 1;
      }
      assert subjectList[..i] == subjectList;
      SeededPlansFresh(first, id, chapters, classLevel, subjectList);
      SeedKeepsConsistent(subscriptions, plans0, events, nextSubscriptionId, first, nextEventId, id,
                          SeededPlans(first, id, chapters, classLevel, subjectList));
    }

    /** `updateSubscription`: rewrites every row with the id; the progress
        figures are left as they were. */
    method UpdateSubscription(id: nat, edit: SubscriptionEdit) returns (total: int)
      requires Valid()
      modifies this
      ensures Valid()
      ensures total == UpdatedTotalClasses(chapters, edit.classLevel, edit.subjects)
      ensures subscriptions == Edited(old(subscriptions), id, edit, total)
      ensures forall k :: 0 <= k < |subscriptions| ==>
        subscriptions[k] == if old(subscriptions[k]).id == id then EditedRow(old(subscriptions[k]), edit, total)
                            else old(subscriptions[k])
      ensures plans == old(plans) && events == old(events)
      ensures nextSubscriptionId == old(nextSubscriptionId) && nextPlanId == old(nextPlanId)
      ensures nextEventId == old(nextEventId)
    {
      if edit.classLevel > 0 && edit.subjects != "" {
        total := SumChapterCounts(chapters, edit.classLevel, Split(edit.subjects));
      } else {
        total := 0;
      }
      EditKeepsConsistent(subscriptions, plans, events, nextSubscriptionId, nextPlanId, nextEventId, id, edit, total);
      subscriptions := Edited(subscriptions, id, edit, total);
    }

    /** `deleteSubscription`: removes the subscription's ledger rows, then its
        plans, then the subscription itself. */
    method DeleteSubscription(id: nat)
      requires Valid()
      modifies this
      ensures Valid()
      ensures events == Filter(old(events), EventKept(id))
      ensures plans == Filter(old(plans), PlanKept(id))
      ensures subscriptions == Filter(old(subscriptions), SubscriptionKept(id))
      ensures forall s :: s in subscriptions ==> s.id != id
      ensures forall p :: p in plans ==> p.subscriptionId != id
      ensures forall e :: e in events ==> e.subscriptionId != id
      ensures nextSubscriptionId == old(nextSubscriptionId) && nextPlanId == old(nextPlanId)
      ensures nextEventId == old(nextEventId)
    {
      DeleteKeepsConsistent(subscriptions, plans, events, nextSubscriptionId, nextPlanId, nextEventId, id);
      events := Filter(events, EventKept(id));
      plans := Filter(plans, PlanKept(id));
      subscriptions := Filter(subscriptions, SubscriptionKept(id));
    }

    /** `markClassComplete`: finds the plan of the subject, records the class
        at the plan's pointer, advances the pointer by one part and stores
        the subscription's new count and percentage. */
    method CompleteClass(subscriptionId: nat, subject: string, teacherId: string, notes: string)
      returns (r: Completion)
      requires Valid()
      modifies this`subscriptions, this`plans, this`events, this`nextEventId
      ensures Valid()
      ensures Outcome(r, subscriptions, plans, events)
              == Complete(old(subscriptions), old(plans), old(events), old(nextEventId), subscriptionId, subject, teacherId, notes)
      ensures nextEventId == old(nextEventId) + (if r.Completed? then 1 else 0)
    {
      match FirstIndex(plans, PlanFor(subscriptionId, subject))
      case None =>
        r := NotFound;
      case Some(k) =>
        var p := plans[k];
        var event := ProgressEvent(nextEventId, subscriptionId, p.id, subject, p.chapter, p.part, teacherId, notes);
        var q := Advanced(p);
        var plans' := plans[k := q];
        var completed := PartsDoneOf(plans', subscriptionId);
        var percent := Percent(completed, TotalOf(subscriptions, subscriptionId));
        CompleteKeepsConsistent(subscriptions, plans, events, nextSubscriptionId, nextPlanId, nextEventId,
                                subscriptionId, k, event, percent);
        subscriptions, plans, events, nextEventId :=
          Reaggregate(subscriptions, subscriptionId, completed, percent), plans', events + [event], nextEventId + 1;
        r := Completed(q.chapter, q.part, completed, percent);
    }

    /** `getProgress`: the subscription's ledger rows, newest first, at most 50. */
    method ProgressHistory(subscriptionId: nat) returns (history: seq<ProgressEvent>)
      ensures history == History(events, subscriptionId)
    {
      history := [];
      var i := |events|;
      while i > 0 && |history| < HistoryLimit
        invariant 0 <= i <= |events|
        invariant |history| <= HistoryLimit
        invariant history == Reverse(Filter(events[i..], EventOf(subscriptionId)))
      {
        i := i - 1;
        assert events[i..] == [events[i]] + events[i + 1..];
        if events[i].subscriptionId == subscriptionId {
          history := history + [events[i]];
        }
      }
      assert events == events[..i] + events[i..];
      FilterConcat(events[..i], events[i..], EventOf(subscriptionId));
      ReverseConcat(Filter(events[..i], EventOf(subscriptionId)), Filter(events[i..], EventOf(subscriptionId)));
    }

    /** The `subject_progress` loop of `getTeacherTodayV2`. */
    method SubjectProgressFor(subscriptionId: nat) returns (progress: seq<SubjectProgress>)
      ensures progress == ProgressOf(plans, subscriptionId)
    {
      progress := [];
      var i := 0;
      while i < |plans|
        invariant 0 <= i <= |plans|
        invariant progress == ProgressOf(plans[..i], subscriptionId)
      {
        ProgressOfAppend(plans[..i], plans[i], subscriptionId);
        assert plans[..i + 1] == plans[..i] + [plans[i]];
        if plans[i].subscriptionId == subscriptionId {
          progress := progress + [SnapshotOf(plans[i])];
        }
        i := i + 1;
      }
      assert plans[..i] == plans;
    }

    /** `getTeacherTodayV2`: the day's name and code, and one session per
        selected subscription in time order. */
    method TeacherTodayV2(teacherId: string, w: Weekday) returns (today: string, todayCode: string, sessions: seq<Session>)
      ensures today == DayName(w) && todayCode == DayCode(today)
      ensures sessions == SessionsFor(subscriptions, plans, teacherId, w)
    {
      today := DayName(w);
      todayCode := DayCode(today);
      var rows := TodayOrder(subscriptions, teacherId, w);
      sessions := [];
      var i := 0;
      while i < |rows|
        invariant 0 <= i <= |rows|
        invariant |sessions| == i
        invariant forall k :: 0 <= k < i ==> sessions[k] == SessionOf(rows[k], ProgressOf(plans, rows[k].id))
      {
        var progress := SubjectProgressFor(rows[i].id);
        sessions := sessions + [SessionOf(rows[i], progress)];
        i := i + 1;
      }
    }

    /** `getTodaySchedule`: the holiday of the date, or one entry per selected
        subscription in table order. */
    method TodaySchedule(teacherId: string, w: Weekday, date: string) returns (r: TodayResult)
      ensures r == TodayView(holidays, subscriptions, plans, teacherId, w, date)
    {
      match FirstIndex(holidays, HolidayOn(date))
      case Some(k) =>
        r := OnHoliday(holidays[k].name);
      case None =>
        var entries := BuildEntries(Filter(subscriptions, ScheduledFor(teacherId, w)));
        r := Schedules(DayName(w), entries);
    }

    /** The row loop of `getTodaySchedule`: each row's pointer from its first
        plan and its first subject. */
    method BuildEntries(rows: seq<Subscription>) returns (entries: seq<TodayEntry>)
      ensures entries == EntriesOf(rows, plans)
    {
      entries := [];
      var i := 0;
      while i < |rows|
        invariant 0 <= i <= |rows|
        invariant entries == EntriesOf(rows[..i], plans)
      {
        var entry := EntryOf(rows[i], plans);
        EntriesOfAppend(rows, i, plans);
        entries := entries + [entry];
        i := i + 1;
      }
      assert rows[..i] == rows;
    }
  }
}
