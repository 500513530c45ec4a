/** The rows of the three tables the core owns (`subscriptions`, `schedule`
    and `progress`) and the aggregate that ties a subscription to its
    subject plans. */
module Tables {
  import opened Seqs
  import opened Advancement

  /** A row of `subscriptions`. `subjects` and `scheduleDays` are kept
      comma-joined, as stored, because the day match reads the raw text. */
  datatype Subscription = Subscription(
    id: nat,
    studentName: string,
    classLevel: int,
    subjects: string,
    teacherId: string,
    daysPerWeek: int,
    scheduleDays: string,
    time: string,
    status: string,
    totalClasses: int,
    completedClasses: int,
    progressPercent: real)

  /** A row of `schedule`: one subject's lesson pointer within a subscription. */
  datatype SubjectPlan = SubjectPlan(
    id: nat,
    subscriptionId: nat,
    subject: string,
    chapter: int,
    part: int,
    partsDone: int,
    partsNeeded: int)
  {
    function At(): Position {
      Position(chapter, part)
    }
  }

  /** A row of `progress`: one taught class, with the pointer it was taught at. */
  datatype ProgressEvent = ProgressEvent(
    id: nat,
    subscriptionId: nat,
    planId: nat,
    subject: string,
    chapter: int,
    part: int,
    teacherId: string,
    notes: string)

  /** A plan that has only ever been advanced from chapter 1, part 1: its
      pointer is the one reached after `partsDone` completions. */
  predicate PlanConsistent(p: SubjectPlan) {
    p.partsDone >= 0 && p.At() == PositionAfter(p.partsDone)
  }

  /** The plan after one taught class: its pointer advanced, one more part done. */
  function Advanced(p: SubjectPlan): (q: SubjectPlan)
    ensures q.id == p.id && q.subscriptionId == p.subscriptionId && q.subject == p.subject
    ensures q.partsNeeded == p.partsNeeded && q.partsDone == p.partsDone + 1
    ensures q.At() == Advance(p.At())
    ensures PlanConsistent(p) ==> PlanConsistent(q)
  {
    var next := Advance(p.At());
    AdvanceKeepsConsistent(p);
    p.(chapter := next.chapter, part := next.part, partsDone := p.partsDone + 1)
  }

  lemma AdvanceKeepsConsistent(p: SubjectPlan)
    ensures PlanConsistent(p) ==> Advance(p.At()) == PositionAfter(p.partsDone + 1)
  {
    if PlanConsistent(p) {
      AdvanceAfter(p.partsDone);
    }
  }

  /** The plan after `k` taught classes. */
  function AdvancedTimes(p: SubjectPlan, k: nat): SubjectPlan {
    if k == 0 then p else Advanced(AdvancedTimes(p, k - 1))
  }

  /** A freshly seeded plan, after `k` completions, has `k` parts done and
      points at chapter 1 + k / 3, part 1 + k % 3; nothing else of it changes. */
  lemma {:induction false} CompletionsOfSeededPlan(p: SubjectPlan, k: nat)
    requires p.chapter == 1 && p.part == 1 && p.partsDone == 0
    ensures var q := AdvancedTimes(p, k);
      && q.partsDone == k
      && q.At() == Position(1 + k / 3, 1 + k % 3)
      && q.id == p.id && q.subscriptionId == p.subscriptionId && q.subject == p.subject
      && q.partsNeeded == p.partsNeeded
  {
    if k > 0 {
      CompletionsOfSeededPlan(p, k - 1);
      AdvanceAfter(k - 1);
    }
  }

  function SubscriptionWith(id: nat): Subscription -> bool {
    (s: Subscription) => s.id == id
  }

  function PlanOf(subscriptionId: nat): SubjectPlan -> bool {
    (p: SubjectPlan) => p.subscriptionId == subscriptionId
  }

  function PlanFor(subscriptionId: nat, subject: string): SubjectPlan -> bool {
    (p: SubjectPlan) => p.subscriptionId == subscriptionId && p.subject == subject
  }

  function EventOf(subscriptionId: nat): ProgressEvent -> bool {
    (e: ProgressEvent) => e.subscriptionId == subscriptionId
  }

  /** `SELECT COALESCE(SUM(total_parts_done), 0) FROM schedule WHERE subscription_id = $1`. */
  function PartsDoneOf(plans: seq<SubjectPlan>, subscriptionId: nat): int {
    if plans == [] then 0
    else (if plans[0].subscriptionId == subscriptionId then plans[0].partsDone else 0)
         + PartsDoneOf(plans[1..], subscriptionId)
  }

  lemma {:induction false} PartsDoneConcat(a: seq<SubjectPlan>, b: seq<SubjectPlan>, subscriptionId: nat)
    ensures PartsDoneOf(a + b, subscriptionId) == PartsDoneOf(a, subscriptionId) + PartsDoneOf(b, subscriptionId)
  {
    if a == [] {
      assert a + b == b;
    } else {
      assert (a + b)[1..] == a[1..] + b;
      PartsDoneConcat(a[1..], b, subscriptionId);
    }
  }

  /** Plans of other subscriptions contribute nothing to the sum. */
  lemma {:induction false} PartsDoneOfOthers(plans: seq<SubjectPlan>, subscriptionId: nat)
    requires forall k :: 0 <= k < |plans| ==> plans[k].subscriptionId != subscriptionId
    ensures PartsDoneOf(plans, subscriptionId) == 0
  {
    if plans != [] {
      PartsDoneOfOthers(plans[1..], subscriptionId);
    }
  }

  /** Freshly seeded plans contribute nothing to any sum. */
  lemma {:induction false} PartsDoneOfFresh(plans: seq<SubjectPlan>, subscriptionId: nat)
    requires forall k :: 0 <= k < |plans| ==> plans[k].partsDone == 0
    ensures PartsDoneOf(plans, subscriptionId) == 0
  {
    if plans != [] {
      PartsDoneOfFresh(plans[1..], subscriptionId);
    }
  }

  /** Replacing one plan by another of the same subscription changes that
      subscription's sum by the difference in parts done, and no other sum. */
  lemma {:induction false} PartsDoneAfterUpdate(plans: seq<SubjectPlan>, k: nat, q: SubjectPlan, subscriptionId: nat)
    requires k < |plans| && q.subscriptionId == plans[k].subscriptionId
    ensures PartsDoneOf(plans[k := q], subscriptionId)
            == PartsDoneOf(plans, subscriptionId)
               + (if q.subscriptionId == subscriptionId then q.partsDone - plans[k].partsDone else 0)
  {
    if k == 0 {
      assert plans[k := q][1..] == plans[1..];
    } else {
      assert plans[k := q][1..] == plans[1..][k - 1 := q];
      PartsDoneAfterUpdate(plans[1..], k - 1, q, subscriptionId);
    }
  }

  /** Removing the plans of one subscription leaves every other sum as it was. */
  lemma {:induction false} PartsDoneAfterRemoval(plans: seq<SubjectPlan>, removed: nat, subscriptionId: nat)
    requires subscriptionId != removed
    ensures PartsDoneOf(Filter(plans, PlanKept(removed)), subscriptionId) == PartsDoneOf(plans, subscriptionId)
  {
    if plans != [] {
      PartsDoneAfterRemoval(plans[1..], removed, subscriptionId);
      if plans[0].subscriptionId != removed {
        assert Filter(plans, PlanKept(removed)) == [plans[0]] + Filter(plans[1..], PlanKept(removed));
        assert ([plans[0]] + Filter(plans[1..], PlanKept(removed)))[1..] == Filter(plans[1..], PlanKept(removed));
      }
    }
  }

  function PlanKept(removed: nat): SubjectPlan -> bool {
    (p: SubjectPlan) => p.subscriptionId != removed
  }

  function EventKept(removed: nat): ProgressEvent -> bool {
    (e: ProgressEvent) => e.subscriptionId != removed
  }

  function SubscriptionKept(removed: nat): Subscription -> bool {
    (s: Subscription) => s.id != removed
  }

  /** The subscription update of a completion (`UPDATE subscriptions SET
      completed_classes = $1, progress_percent = $2 WHERE id = $3`): every row
      with the id gets the two figures, every other row is left as it was. */
  function Reaggregate(subs: seq<Subscription>, id: nat, completed: int, percent: real): (r: seq<Subscription>)
    ensures |r| == |subs|
    ensures forall k :: 0 <= k < |subs| && subs[k].id != id ==> r[k] == subs[k]
    ensures forall k :: 0 <= k < |subs| && subs[k].id == id ==>
      r[k] == subs[k].(completedClasses := completed, progressPercent := percent)
  {
    seq(|subs|, k requires 0 <= k < |subs| =>
      if subs[k].id == id then subs[k].(completedClasses := completed, progressPercent := percent) else subs[k])
  }

  function IdsOf(subs: seq<Subscription>): set<nat> {
    set k | 0 <= k < |subs| :: subs[k].id
  }

  /** What the handlers keep true of the tables: serial ids below their
      counters and increasing in table order; every plan and ledger row
      belongs to an existing subscription; every plan's pointer is the one
      reached after its parts done; and every subscription's completed count
      is the sum of its plans' parts done. */
  ghost predicate Consistent(subs: seq<Subscription>, plans: seq<SubjectPlan>, events: seq<ProgressEvent>,
                             nextSubscriptionId: nat, nextPlanId: nat, nextEventId: nat)
  {
    && (forall k :: 0 <= k < |subs| ==> subs[k].id < nextSubscriptionId)
    && (forall k :: 0 <= k < |plans| ==>
          plans[k].id < nextPlanId && plans[k].subscriptionId in IdsOf(subs) && PlanConsistent(plans[k]))
    && (forall k :: 0 <= k < |events| ==> events[k].id < nextEventId && events[k].subscriptionId in IdsOf(subs))
    && Ordered(subs, SubscriptionIdOrder)
    && Ordered(plans, PlanIdOrder)
    && Ordered(events, EventIdOrder)
    && (forall k :: 0 <= k < |subs| ==> subs[k].completedClasses == PartsDoneOf(plans, subs[k].id))
  }

  /** Row orders by serial key: a row inserted earlier has a smaller id. */
  const SubscriptionIdOrder: (Subscription, Subscription) -> bool := (a: Subscription, b: Subscription) => a.id < b.id
  const PlanIdOrder: (SubjectPlan, SubjectPlan) -> bool := (a: SubjectPlan, b: SubjectPlan) => a.id < b.id
  const EventIdOrder: (ProgressEvent, ProgressEvent) -> bool := (a: ProgressEvent, b: ProgressEvent) => a.id < b.id
}
