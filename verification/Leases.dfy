/** What holds when a claim holder acts within its lease, exactly where that is needed, and what
    goes wrong otherwise. */
module Leases {
  import opened Money
  import opened Outbox
  import opened Protocol
  import opened Bounds

  predicate InLease(c: Cell, claimedAt: nat) { c.now <= claimedAt + LEASE }

  /** A consumer still entitled to its claim. */
  predicate WorkerLive(c: Cell, w: nat) {
    && w < |c.workers| && InLease(c, c.workers[w].claimedAt)
    && (c.workers[w].at.Posting? || c.workers[w].at.Confirming? || c.workers[w].at.Recovering?)
  }

  predicate PublisherLive(c: Cell, p: nat) {
    p < |c.publishers| && InLease(c, c.publishers[p].claimedAt) && !c.publishers[p].at.Stopped?
  }

  /** Consumers mark in time. */
  predicate WorkersTimely(c: Cell, s: Step) {
    match s
    case Confirm(w, _) => w < |c.workers| ==> InLease(c, c.workers[w].claimedAt)
    case Fail(w) => w < |c.workers| ==> InLease(c, c.workers[w].claimedAt)
    case _ => true
  }

  /** Publishers mark in time. */
  predicate PublishersTimely(c: Cell, s: Step) {
    match s
    case Publish(p, _) => p < |c.publishers| ==> InLease(c, c.publishers[p].claimedAt)
    case Unpublish(p) => p < |c.publishers| ==> InLease(c, c.publishers[p].claimedAt)
    case _ => true
  }

  /** The CFO retries only when no publisher is still at work. */
  ghost predicate RetryWaits(c: Cell, s: Step) {
    s.CfoRetry? ==> forall p :: !PublisherLive(c, p)
  }

  // ---- Consumers ----

  ghost predicate Holds(c: Cell, w: nat)
    requires w < |c.workers|
  {
    c.row.status.Delivering? && c.deliveryOwner == w && c.row.lockedAt == Some(c.workers[w].claimedAt)
  }

  ghost predicate WorkerLeased(c: Cell, w: nat)
    requires w < |c.workers|
  {
    var k := c.workers[w];
    && (WorkerLive(c, w) ==> Holds(c, w) || (k.at.Recovering? && c.row.status.Delivered?))
    && (k.at.Deleting? || k.at.Discarding? ==> c.row.status.Delivered?)
  }

  ghost predicate ConsumersLeased(c: Cell) {
    && Safe(c)
    && forall w :: 0 <= w < |c.workers| ==> WorkerLeased(c, w)
  }

  lemma ReceiptKeepsWorker(c: Cell, s: Step, w: nat)
    requires ConsumersLeased(c) && s.Receive? && w < |Next(c, s).workers|
    ensures WorkerLeased(Next(c, s), w)
  {
    hide AcceptedOnce, SafePublisher, SafeWorker;
    assert w < |c.workers| ==> WorkerLeased(c, w);
  }

  /** Claiming, marking delivered, marking failed: the steps of consumers on the row. */
  lemma ConsumerKeepsWorker(c: Cell, s: Step, w: nat)
    requires ConsumersLeased(c) && WorkersTimely(c, s) && (s.ClaimDelivery? || s.Confirm? || s.Fail?) && w < |c.workers|
    ensures |Next(c, s).workers| == |c.workers| && WorkerLeased(Next(c, s), w)
  {
    hide AcceptedOnce, SafePublisher, SafeWorker, SafeRow;
    assert WorkerLeased(c, w);
    assert s.w < |c.workers| ==> WorkerLeased(c, s.w);
  }

  lemma OthersKeepWorker(c: Cell, s: Step, w: nat)
    requires ConsumersLeased(c) && w < |c.workers|
    requires !s.Receive? && !s.ClaimDelivery? && !s.Confirm? && !s.Fail?
    ensures |Next(c, s).workers| == |c.workers| && WorkerLeased(Next(c, s), w)
  {
    hide Power, AcceptedOnce, SafePublisher, SafeWorker;
    assert WorkerLeased(c, w);
  }

  lemma SameWorkers(c: Cell, s: Step)
    requires !s.Receive?
    ensures |Next(c, s).workers| == |c.workers|
  {
    hide Judge, MarkPublished, MarkPublishFailed, MarkDelivered, MarkFailed;
  }

  lemma NextWorkerLeased(c: Cell, s: Step, w: nat)
    requires ConsumersLeased(c) && WorkersTimely(c, s) && w < |Next(c, s).workers|
    ensures WorkerLeased(Next(c, s), w)
  {
    if s.Receive? { ReceiptKeepsWorker(c, s, w); }
    else {
      SameWorkers(c, s);
      hide Next, ConsumersLeased, WorkerLeased;
      if s.ClaimDelivery? || s.Confirm? || s.Fail? { ConsumerKeepsWorker(c, s, w); }
      else { OthersKeepWorker(c, s, w); }
    }
  }

  lemma NextConsumersLeased(c: Cell, s: Step)
    requires ConsumersLeased(c) && WorkersTimely(c, s)
    ensures ConsumersLeased(Next(c, s))
  {
    NextIsSafe(c, s);
    hide Next, Safe;
    forall w: nat | w < |Next(c, s).workers| { NextWorkerLeased(c, s, w); }
  }

  ghost predicate AllTimely(c: Cell, steps: seq<Step>) {
    forall n: nat :: n < |steps| ==> WorkersTimely(Cells(c, steps[..n]), steps[n])
  }

  lemma {:induction false} ConsumersStayLeased(c: Cell, steps: seq<Step>)
    requires ConsumersLeased(c) && AllTimely(c, steps)
    ensures ConsumersLeased(Cells(c, steps))
  {
    hide ConsumersLeased, Next, WorkersTimely;
    if steps != [] {
      var n := |steps| - 1;
      assert AllTimely(c, steps[..n]) by {
        forall k: nat | k < n ensures WorkersTimely(Cells(c, steps[..n][..k]), steps[..n][k]) {
          assert steps[..n][..k] == steps[..k];
        }
      }
      ConsumersStayLeased(c, steps[..n]);
      NextConsumersLeased(Cells(c, steps[..n]), steps[n]);
    }
  }

  // ---- No lost event ----

  predicate Finished(c: Cell) { c.row.status.Delivered? }

  /** A message is deleted, and a consumer is about to delete one, only once its event is DELIVERED. */
  ghost predicate Unlost(c: Cell) {
    && (forall m :: 0 <= m < |c.msgs| && c.msgs[m].place.Deleted? ==> Finished(c))
    && (forall w :: 0 <= w < |c.workers| && (c.workers[w].at.Deleting? || c.workers[w].at.Discarding?) ==> Finished(c))
  }

  /** mark_delivered returns although it matched no row and the event is not delivered. */
  predicate MarksNothing(c: Cell, s: Step) {
    s.Confirm? && s.returned && Enabled(c, s) && !c.row.status.Delivering? && !c.row.status.Delivered?
  }

  /** That is the one step that loses an event, and it always does. */
  lemma UnlostStepIff(c: Cell, s: Step)
    requires Unlost(c)
    ensures Unlost(Next(c, s)) <==> !MarksNothing(c, s)
  {
    if MarksNothing(c, s) {
      var k := Next(c, s).workers[s.w];
      assert k.at.Deleting? && !Finished(Next(c, s));
    } else {
      NextIsOnward(c, s);
      KeepsMessages(c, s);
      KeepsWorkers(c, s);
    }
  }

  lemma KeepsMessages(c: Cell, s: Step)
    requires Unlost(c)
    ensures var c' := Next(c, s);
            forall m :: 0 <= m < |c'.msgs| && c'.msgs[m].place.Deleted? ==> Finished(c) || Finished(c')
  {
    hide Power, Judge, MarkPublished, MarkPublishFailed, MarkFailed, Finished;
    if s.Discard? || s.Delete? || s.DeleteError? {
      assert s.w < |c.workers| && (c.workers[s.w].at.Deleting? || c.workers[s.w].at.Discarding?) ==> Finished(c);
    }
  }

  lemma KeepsWorkers(c: Cell, s: Step)
    requires Unlost(c) && !MarksNothing(c, s)
    ensures var c' := Next(c, s);
            forall w :: 0 <= w < |c'.workers| && (c'.workers[w].at.Deleting? || c'.workers[w].at.Discarding?) ==>
              Finished(c) || Finished(c')
  {
    hide Power, MarkPublished, MarkPublishFailed, MarkFailed;
  }

  /** Over runs: no message goes before its event is DELIVERED if and only if no mark_delivered ever
      returns having marked nothing. */
  lemma NoLostEventIff(c: Cell, steps: seq<Step>)
    requires Unlost(c)
    ensures (forall n: nat :: n <= |steps| ==> Unlost(Cells(c, steps[..n])))
       <==> (forall n: nat :: n < |steps| ==> !MarksNothing(Cells(c, steps[..n]), steps[n]))
  {
    hide Cells, Unlost, MarksNothing;
    if forall n: nat :: n <= |steps| ==> Unlost(Cells(c, steps[..n])) {
      forall n: nat | n < |steps| ensures !MarksNothing(Cells(c, steps[..n]), steps[n]) {
        assert Unlost(Cells(c, steps[..n])) && Unlost(Cells(c, steps[..n + 1]));
        UnlostStep(c, steps, n);
      }
    } else if forall n: nat :: n < |steps| ==> !MarksNothing(Cells(c, steps[..n]), steps[n]) {
      forall n: nat | n <= |steps| ensures Unlost(Cells(c, steps[..n])) {
        StillUnlost(c, steps, n);
      }
    }
  }

  lemma UnlostStep(c: Cell, steps: seq<Step>, n: nat)
    requires n < |steps| && Unlost(Cells(c, steps[..n]))
    ensures Unlost(Cells(c, steps[..n + 1])) <==> !MarksNothing(Cells(c, steps[..n]), steps[n])
  {
    hide Next, Unlost, MarksNothing;
    assert steps[..n + 1][..n] == steps[..n];
    UnlostStepIff(Cells(c, steps[..n]), steps[n]);
  }

  lemma {:induction false} StillUnlost(c: Cell, steps: seq<Step>, n: nat)
    requires Unlost(c) && n <= |steps|
    requires forall k: nat :: k < n ==> !MarksNothing(Cells(c, steps[..k]), steps[k])
    ensures Unlost(Cells(c, steps[..n]))
  {
    hide Next, Unlost, MarksNothing;
    if n > 0 {
      StillUnlost(c, steps, n - 1);
      UnlostStep(c, steps, n - 1);
    }
  }

  /** Somewhere in the queue or its dead-letter queue. */
  ghost predicate Undeleted(c: Cell) {
    exists m :: 0 <= m < |c.msgs| && !c.msgs[m].place.Deleted?
  }

  /** What an unlost event can always be found by. */
  lemma UnlostIsFindable(c: Cell)
    requires Safe(c) && Unlost(c)
    ensures || c.row.status.Pending? || c.row.status.Processing? || c.row.status.Dead? || c.row.status.Delivered?
            || Undeleted(c)
  {
    if c.row.status.Published? || c.row.status.Delivering? { assert !c.msgs[0].place.Deleted?; }
  }

  /** The lease is enough: a consumer that marks in time finds its own claim. */
  lemma TimelyMarksSomething(c: Cell, steps: seq<Step>, n: nat)
    requires ConsumersLeased(c) && AllTimely(c, steps) && n < |steps|
    ensures !MarksNothing(Cells(c, steps[..n]), steps[n])
  {
    hide Next;
    assert AllTimely(c, steps[..n]) by {
      forall k: nat | k < n ensures WorkersTimely(Cells(c, steps[..n][..k]), steps[..n][k]) {
        assert steps[..n][..k] == steps[..k];
      }
    }
    ConsumersStayLeased(c, steps[..n]);
    hide Cells;
    var before, s := Cells(c, steps[..n]), steps[n];
    assert WorkersTimely(before, s);
    if Enabled(before, s) && s.Confirm? { MarksAreOwn(before, s); }
  }

  /** No lost event, under the lease: a message is deleted only once its event is DELIVERED, and an
      event that is not is either waiting for a publisher, DEAD for the CFO, or still has a message. */
  lemma NoLostEvent(c: Cell, steps: seq<Step>)
    requires ConsumersLeased(c) && Unlost(c) && AllTimely(c, steps)
    ensures var end := Cells(c, steps);
            && (forall m :: 0 <= m < |end.msgs| && end.msgs[m].place.Deleted? ==> end.row.status.Delivered?)
            && (|| end.row.status.Pending? || end.row.status.Processing? || end.row.status.Dead?
                || end.row.status.Delivered? || Undeleted(end))
  {
    forall n: nat | n < |steps| { TimelyMarksSomething(c, steps, n); }
    NoLostEventIff(c, steps);
    ExactlyOnceEffect(c, steps);
    hide Cells;
    assert steps[..|steps|] == steps;
    UnlostIsFindable(Cells(c, steps));
  }

  /** Mutual exclusion: one live consumer at most, and whatever it marks is its own claim. */
  lemma OneConsumer(c: Cell, steps: seq<Step>, v: nat, w: nat)
    requires ConsumersLeased(c) && AllTimely(c, steps)
    requires var end := Cells(c, steps);
             WorkerLive(end, v) && WorkerLive(end, w) && !end.row.status.Delivered?
    ensures v == w == Cells(c, steps).deliveryOwner
  {
    ConsumersStayLeased(c, steps);
    hide Cells;
    var end := Cells(c, steps);
    assert WorkerLeased(end, v) && WorkerLeased(end, w);
  }

  lemma MarksAreOwn(c: Cell, s: Step)
    requires ConsumersLeased(c) && WorkersTimely(c, s) && Enabled(c, s) && (s.Confirm? || s.Fail?)
    ensures c.row.status.Delivering? ==> c.deliveryOwner == s.w
    ensures s.Confirm? ==> c.row.status.Delivering? && Next(c, s).row.status.Delivered?
  {
    assert WorkerLeased(c, s.w);
  }

  // ---- Publishers ----

  ghost predicate PublisherLeased(c: Cell, p: nat)
    requires p < |c.publishers|
  {
    PublisherLive(c, p) ==>
      && !c.row.status.Pending?
      && (c.row.status.Processing? ==>
            && c.publishOwner == p && c.row.lockedAt == Some(c.publishers[p].claimedAt)
            && c.row.publishAttempts == c.publishers[p].attempt)
  }

  ghost predicate PublishersLeased(c: Cell) {
    && Safe(c)
    && (c.row.status.Pending? ==> c.row.publishAttempts < c.row.maxPublish)
    && forall p :: 0 <= p < |c.publishers| ==> PublisherLeased(c, p)
  }

  lemma ClaimKeepsPublisher(c: Cell, p: nat)
    requires PublishersLeased(c) && p < |Next(c, ClaimEvent).publishers|
    ensures PublisherLeased(Next(c, ClaimEvent), p)
  {
    hide AcceptedOnce, SafeWorker, SafePublisher;
    assert p < |c.publishers| ==> PublisherLeased(c, p);
  }

  lemma MarkKeepsPublisher(c: Cell, s: Step, p: nat)
    requires PublishersLeased(c) && PublishersTimely(c, s) && (s.Publish? || s.Unpublish?) && p < |c.publishers|
    ensures |Next(c, s).publishers| == |c.publishers| && PublisherLeased(Next(c, s), p)
  {
    hide Power, AcceptedOnce, SafeWorker, SafePublisher;
    assert PublisherLeased(c, p);
    assert s.p < |c.publishers| ==> PublisherLeased(c, s.p);
  }

  lemma OthersKeepPublisher(c: Cell, s: Step, p: nat)
    requires PublishersLeased(c) && RetryWaits(c, s) && !s.ClaimEvent? && !s.Publish? && !s.Unpublish? && p < |c.publishers|
    ensures |Next(c, s).publishers| == |c.publishers| && PublisherLeased(Next(c, s), p)
  {
    hide Power, AcceptedOnce, SafeWorker, SafePublisher;
    assert PublisherLeased(c, p);
    assert PublisherLive(Next(c, s), p) ==> PublisherLive(c, p);
    assert s.CfoRetry? ==> !PublisherLive(c, p);
  }

  lemma NextPublisherLeased(c: Cell, s: Step, p: nat)
    requires PublishersLeased(c) && PublishersTimely(c, s) && RetryWaits(c, s) && p < |Next(c, s).publishers|
    ensures PublisherLeased(Next(c, s), p)
  {
    if s.ClaimEvent? { ClaimKeepsPublisher(c, p); }
    else {
      SamePublishers(c, s);
      hide Next, PublishersLeased, PublisherLeased;
      if s.Publish? || s.Unpublish? { MarkKeepsPublisher(c, s, p); }
      else { OthersKeepPublisher(c, s, p); }
    }
  }

  lemma SamePublishers(c: Cell, s: Step)
    requires !s.ClaimEvent?
    ensures |Next(c, s).publishers| == |c.publishers|
  {
    hide Judge, MarkPublished, MarkPublishFailed, MarkDelivered, MarkFailed;
  }

  lemma NextPending(c: Cell, s: Step)
    requires PublishersLeased(c) && PublishersTimely(c, s)
    ensures Next(c, s).row.status.Pending? ==> Next(c, s).row.publishAttempts < Next(c, s).row.maxPublish
  {
    hide Power, AcceptedOnce, SafeWorker, SafePublisher;
    if s.Unpublish? && s.p < |c.publishers| { assert PublisherLeased(c, s.p); }
  }

  lemma NextPublishersLeased(c: Cell, s: Step)
    requires PublishersLeased(c) && PublishersTimely(c, s) && RetryWaits(c, s)
    ensures PublishersLeased(Next(c, s))
  {
    NextIsSafe(c, s);
    NextPending(c, s);
    hide Next, Safe;
    forall p: nat | p < |Next(c, s).publishers| { NextPublisherLeased(c, s, p); }
  }

  ghost predicate PublishersDisciplined(c: Cell, steps: seq<Step>) {
    forall n: nat :: n < |steps| ==>
      PublishersTimely(Cells(c, steps[..n]), steps[n]) && RetryWaits(Cells(c, steps[..n]), steps[n])
  }

  lemma {:induction false} PublishersStayLeased(c: Cell, steps: seq<Step>)
    requires PublishersLeased(c) && PublishersDisciplined(c, steps)
    ensures PublishersLeased(Cells(c, steps))
  {
    hide PublishersLeased, Next, PublishersTimely, RetryWaits;
    if steps != [] {
      var n := |steps| - 1;
      assert PublishersDisciplined(c, steps[..n]) by {
        forall k: nat | k < n
          ensures PublishersTimely(Cells(c, steps[..n][..k]), steps[..n][k])
          ensures RetryWaits(Cells(c, steps[..n][..k]), steps[..n][k])
        {
          assert steps[..n][..k] == steps[..k];
        }
      }
      PublishersStayLeased(c, steps[..n]);
      NextPublishersLeased(Cells(c, steps[..n]), steps[n]);
    }
  }

  /** One live publisher at most while the event is PROCESSING; its marks are its own; and the only
      event left at its publish limit without being DEAD is a PROCESSING one. */
  lemma OnePublisher(c: Cell, steps: seq<Step>, p: nat, q: nat)
    requires PublishersLeased(c) && PublishersDisciplined(c, steps)
    ensures var end := Cells(c, steps);
            && (PublisherLive(end, p) && PublisherLive(end, q) && end.row.status.Processing? ==> p == q == end.publishOwner)
            && (end.row.status.Pending? ==> end.row.publishAttempts < end.row.maxPublish && !Stuck(end))
  {
    PublishersStayLeased(c, steps);
    hide Cells;
    var end := Cells(c, steps);
    assert p < |end.publishers| ==> PublisherLeased(end, p);
    assert q < |end.publishers| ==> PublisherLeased(end, q);
  }

  lemma NewIsLeased(event: nat, invoice: nat, payload: nat, maxAttempts: nat, maxPublish: nat, now: nat)
    requires maxAttempts > 0 && maxPublish > 0
    ensures var c := NewCell(event, invoice, payload, maxAttempts, maxPublish, now);
            ConsumersLeased(c) && Unlost(c) && PublishersLeased(c)
  {}
}
