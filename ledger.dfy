/** The progress ledger query: the newest 50 events of a subscription,
    newest first. */
module Ledger {
  import opened Seqs
  import opened Tables

  const HistoryLimit: nat := 50

  /** `SELECT ... FROM progress WHERE subscription_id = $1 ORDER BY
      completed_at DESC LIMIT 50`, with the ledger in insertion order. */
  function History(events: seq<ProgressEvent>, subscriptionId: nat): seq<ProgressEvent> {
    Take(Reverse(Filter(events, EventOf(subscriptionId))), HistoryLimit)
  }

  /** The history holds the subscription's events newest first: the last
      `min(50, n)` of its `n` events, in reverse ledger order. */
  lemma HistoryNewestFirst(events: seq<ProgressEvent>, subscriptionId: nat)
    ensures var own, h := Filter(events, EventOf(subscriptionId)), History(events, subscriptionId);
      && |h| == (if |own| < HistoryLimit then |own| else HistoryLimit)
      && (forall k :: 0 <= k < |h| ==> h[k] == own[|own| - 1 - k])
      && (forall e :: e in h ==> e in events && e.subscriptionId == subscriptionId)
  {
    var own, h := Filter(events, EventOf(subscriptionId)), History(events, subscriptionId);
    forall e | e in h ensures e in events && e.subscriptionId == subscriptionId {
      var k :| 0 <= k < |h| && h[k] == e;
      assert own[|own| - 1 - k] in own;
    }
  }

  /** With increasing ledger ids, the history's ids strictly decrease. */
  lemma HistoryIdsDecrease(events: seq<ProgressEvent>, subscriptionId: nat)
    requires Ordered(events, EventIdOrder)
    ensures var h := History(events, subscriptionId);
      forall i, j :: 0 <= i < j < |h| ==> h[i].id > h[j].id
  {
    var own := Filter(events, EventOf(subscriptionId));
    FilterKeepsOrder(events, EventOf(subscriptionId), EventIdOrder);
    HistoryNewestFirst(events, subscriptionId);
    var h := History(events, subscriptionId);
    forall i, j | 0 <= i < j < |h| ensures h[i].id > h[j].id {
      assert EventIdOrder(own[|own| - 1 - j], own[|own| - 1 - i]);
    }
  }
}
