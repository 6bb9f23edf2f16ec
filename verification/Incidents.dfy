/** Runs of the delivery protocol worth knowing: one that works, and four that end badly. */
module Incidents {
  import opened Money
  import opened Outbox
  import opened Protocol
  import opened Bounds
  import opened Leases

  lemma Do(c: Cell, steps: seq<Step>, s: Step)
    ensures Cells(c, steps + [s]) == Next(Cells(c, steps), s)
  {
    hide Next;
    assert (steps + [s])[..|steps|] == steps;
  }

  /** The protocol does deliver: with nobody interfering, eight steps take any new event to
      DELIVERED, accepted once, its message deleted. */
  lemma Delivers(event: nat, invoice: nat, payload: nat, maxAttempts: nat, maxPublish: nat, now: nat)
    returns (steps: seq<Step>)
    requires maxAttempts > 0 && maxPublish > 0
    ensures var c := Cells(NewCell(event, invoice, payload, maxAttempts, maxPublish, now), steps);
            && c.row.status.Delivered? && c.accepts == 1 && c.posts == 1
            && |c.msgs| == 1 && c.msgs[0].place.Deleted? && Quiet(c)
  {
    var c := NewCell(event, invoice, payload, maxAttempts, maxPublish, now);
    var first := Publishes(c);
    var last := Completes(OnceReceived(c));
    hide Cells, OnceReceived, Quiet;
    Then(c, first, last);
    steps := first + last;
  }

  /** A new event published, its one message in a consumer's hands. */
  function OnceReceived(c: Cell): Cell {
    c.(row := c.row.(status := Published, publishAttempts := 1), msgs := [Msg(1, InQueue)],
       publishers := [Publisher(1, c.now, Stopped, 1)], workers := [Worker(0, 1, 0, 0, 0, Judging, false)])
  }

  lemma Publishes(c: Cell) returns (steps: seq<Step>)
    requires exists event, invoice, payload, maxAttempts, maxPublish, now: nat ::
               maxPublish > 0 && c == NewCell(event, invoice, payload, maxAttempts, maxPublish, now)
    ensures Cells(c, steps) == OnceReceived(c)
  {
    steps := [];
    Do(c, steps, ClaimEvent);       steps := steps + [ClaimEvent];
    Do(c, steps, Send(0, 1, true)); steps := steps + [Send(0, 1, true)];
    Do(c, steps, Publish(0, true)); steps := steps + [Publish(0, true)];
    Do(c, steps, Step.Receive(0));  steps := steps + [Step.Receive(0)];
    assert Copies(1) == [Msg(0, InQueue)];
  }

  lemma Completes(c: Cell) returns (steps: seq<Step>)
    requires c.row.status.Published? && c.row.attempts == 0 && c.row.maxAttempts > 0 && c.delivery.None?
    requires c.accepts == 0 && c.posts == 0 && c.msgs == [Msg(1, InQueue)]
    requires |c.publishers| == 1 && c.publishers[0].at.Stopped? && c.workers == [Worker(0, 1, 0, 0, 0, Judging, false)]
    ensures var end := Cells(c, steps);
            && end.row.status.Delivered? && end.accepts == 1 && end.posts == 1
            && |end.msgs| == 1 && end.msgs[0].place.Deleted? && Quiet(end)
  {
    steps := Four(c, ClaimDelivery(0), Post(0, true, true), Confirm(0, true), Delete(0));
    hide Cells;
    IsAccepted(c);
    var c2 := Next(Next(c, ClaimDelivery(0)), Post(0, true, true));
    hide Next;
    IsConfirmed(c2);
  }

  lemma IsAccepted(c: Cell)
    requires c.row.status.Published? && c.row.attempts == 0 && c.row.maxAttempts > 0 && c.delivery.None?
    requires c.workers == [Worker(0, 1, 0, 0, 0, Judging, false)]
    ensures var c2 := Next(Next(c, ClaimDelivery(0)), Post(0, true, true));
            && c2.row.status.Delivering? && |c2.workers| == 1 && c2.workers[0].at.Confirming? && c2.workers[0].msg == 0
            && c2.msgs == c.msgs && c2.publishers == c.publishers
            && c2.accepts == c.accepts + 1 && c2.posts == c.posts + 1
  {
    assert Next(c, ClaimDelivery(0)) == Judges(c, 0);
  }

  lemma IsConfirmed(c: Cell)
    requires c.row.status.Delivering? && |c.workers| == 1 && c.workers[0].at.Confirming? && c.workers[0].msg == 0
    requires |c.msgs| == 1 && |c.publishers| == 1 && c.publishers[0].at.Stopped?
    ensures var end := Next(Next(c, Confirm(0, true)), Delete(0));
            && end.row.status.Delivered? && end.accepts == c.accepts && end.posts == c.posts
            && |end.msgs| == 1 && end.msgs[0].place.Deleted? && Quiet(end)
  {
    assert Next(c, Confirm(0, true)) == SetWorker(c.(row := MarkDelivered(c.row)), 0, Deleting);
  }

  lemma Three(c: Cell, a: Step, b: Step, d: Step) returns (steps: seq<Step>)
    ensures steps == [a, b, d] && Cells(c, steps) == Next(Next(Next(c, a), b), d)
  {
    hide Next;
    assert Cells(c, []) == c;
    Do(c, [], a);
    Do(c, [a], b);
    Do(c, [a, b], d);
    assert [] + [a] == [a] && [a] + [b] == [a, b] && [a, b] + [d] == [a, b, d];
    steps := [a, b, d];
  }

  lemma Four(c: Cell, a: Step, b: Step, d: Step, e: Step) returns (steps: seq<Step>)
    ensures steps == [a, b, d, e] && Cells(c, steps) == Next(Next(Next(Next(c, a), b), d), e)
  {
    hide Next, Cells;
    var three := Three(c, a, b, d);
    Do(c, three, e);
    assert three + [e] == [a, b, d, e];
    steps := [a, b, d, e];
  }

  lemma {:induction false} Then(c: Cell, first: seq<Step>, second: seq<Step>)
    ensures Cells(c, first + second) == Cells(Cells(c, first), second)
  {
    hide Next;
    if second == [] {
      assert first + second == first;
    } else {
      Then(c, first, second[..|second| - 1]);
      assert (first + second)[..|first + second| - 1] == first + second[..|second| - 1];
    }
  }

  /** A publisher has claimed a new event and sent its message; whether it knows decides where it is. */
  function Sent(maxPublish: nat, at: PublisherAt): Cell {
    var c := NewCell(0, 0, 0, 3, maxPublish, 0);
    c.(row := c.row.(status := Processing, publishAttempts := 1, lockedAt := Some(0)),
       msgs := [Msg(0, InQueue)], publishers := [Publisher(1, 0, at, 1)])
  }

  lemma SendsIt(maxPublish: nat, acknowledged: bool) returns (steps: seq<Step>)
    requires maxPublish > 0
    ensures Cells(NewCell(0, 0, 0, 3, maxPublish, 0), steps) == Sent(maxPublish, if acknowledged then Marking else Failing)
  {
    var c := NewCell(0, 0, 0, 3, maxPublish, 0);
    steps := [];
    Do(c, steps, ClaimEvent);               steps := steps + [ClaimEvent];
    Do(c, steps, Send(0, 1, acknowledged)); steps := steps + [Send(0, 1, acknowledged)];
    assert Copies(1) == [Msg(0, InQueue)];
  }

  /** One more receipt of the only message, one more failed delivery. */
  function FailedOnce(c: Cell): Cell
    requires |c.msgs| == 1
  {
    var received := c.msgs[0].received + 1;
    var attempts := Max(c.row.attempts, received);
    c.(row := c.row.(status := if attempts >= c.row.maxAttempts then Dead else Published,
                     attempts := attempts, lockedAt := None),
       msgs := [c.msgs[0].(received := received)], deliveryOwner := |c.workers|,
       workers := c.workers + [Worker(0, received, c.row.payload, attempts, c.now, Idle, false)])
  }

  /** Half-way: received once more and claimed. */
  function Held(c: Cell): Cell
    requires |c.msgs| == 1
  {
    var received := c.msgs[0].received + 1;
    var attempts := Max(c.row.attempts, received);
    c.(row := c.row.(status := Delivering, attempts := attempts, lockedAt := Some(c.now)),
       msgs := [c.msgs[0].(received := received)], deliveryOwner := |c.workers|,
       workers := c.workers + [Worker(0, received, c.row.payload, attempts, c.now, Posting, false)])
  }

  ghost predicate Receivable(c: Cell) {
    && |c.msgs| == 1 && CanReceive(c.msgs[0]) && Open(c) && c.row.maxAttempts == 3 && c.row.attempts <= 3
    && (c.row.status.Delivering? ==> !c.row.Fresh(c.now))
  }

  lemma GetsHeld(c: Cell)
    requires Receivable(c)
    ensures Next(Next(c, Step.Receive(0)), ClaimDelivery(|c.workers|)) == Held(c)
  {
    var c1 := Next(c, Step.Receive(0));
    assert c1 == Receives(c, 0);
    assert Next(c1, ClaimDelivery(|c.workers|)).workers == Held(c).workers;
  }

  lemma LetsGo(c: Cell)
    requires |c.msgs| == 1
    ensures Next(Next(Held(c), Post(|c.workers|, false, false)), Fail(|c.workers|)) == FailedOnce(c)
  {
    var c3 := Next(Held(c), Post(|c.workers|, false, false));
    assert c3 == SetWorker(Held(c), |c.workers|, Recovering);
    assert Next(c3, Fail(|c.workers|)).workers == FailedOnce(c).workers;
  }

  lemma FailsOnce(c: Cell) returns (steps: seq<Step>)
    requires Receivable(c)
    ensures Cells(c, steps) == FailedOnce(c)
  {
    var w := |c.workers|;
    steps := Four(c, Step.Receive(0), ClaimDelivery(w), Post(w, false, false), Fail(w));
    hide Cells, Next;
    GetsHeld(c);
    LetsGo(c);
  }

  /** That message is published and a consumer holds it; then half a minute passes. */
  function Stalled(): Cell {
    var c := Sent(10, Marking);
    c.(now := 31, row := c.row.(status := Delivering, attempts := 1, lockedAt := Some(0)),
       msgs := [Msg(1, InQueue)], publishers := [Publisher(1, 0, Stopped, 1)],
       workers := [Worker(0, 1, 0, 1, 0, Posting, false)])
  }

  /** The message as it is when the consumer has it. */
  function InHand(): Cell {
    var c := Sent(10, Marking);
    c.(row := c.row.(status := Published, lockedAt := None), msgs := [Msg(1, InQueue)],
       publishers := [Publisher(1, 0, Stopped, 1)], workers := [Worker(0, 1, 0, 0, 0, Judging, false)])
  }

  lemma Stalls() returns (steps: seq<Step>)
    ensures Cells(Sent(10, Marking), steps) == Stalled()
  {
    hide *;
    IsInHand();
    IsStalled();
    steps := Four(Sent(10, Marking), Publish(0, true), Step.Receive(0), ClaimDelivery(0), Tick(31));
  }

  lemma IsInHand()
    ensures Next(Next(Sent(10, Marking), Publish(0, true)), Step.Receive(0)) == InHand()
  {
    hide Power;
  }

  lemma IsStalled()
    ensures Next(Next(InHand(), ClaimDelivery(0)), Tick(31)) == Stalled()
  {
    hide Power;
    assert Next(InHand(), ClaimDelivery(0)) == Judges(InHand(), 0);
  }

  lemma ComesLate() returns (steps: seq<Step>)
    ensures var end := Cells(FailedOnce(Stalled()), steps);
            && end.row.status.Published? && end.accepts == 1
            && |end.msgs| == 1 && end.msgs[0].place.Deleted? && Stuck(end)
  {
    var c := FailedOnce(Stalled());
    steps := [];
    Do(c, steps, Post(0, true, true)); steps := steps + [Post(0, true, true)];
    Do(c, steps, Confirm(0, true));    steps := steps + [Confirm(0, true)];
    Do(c, steps, Delete(0));           steps := steps + [Delete(0)];
  }

  /** Without the lease: a consumer stalls for 31 seconds after claiming, a second one takes over
      and fails, then the first succeeds.  The adapter has the invoice, mark_delivered matches no
      row, and the message is deleted all the same: PUBLISHED for ever, out of the CFO's reach. */
  lemma LateConsumerLosesTheEvent() returns (steps: seq<Step>)
    ensures var c := NewCell(0, 0, 0, 3, 10, 0);
            var end := Cells(c, steps);
            && !AllTimely(c, steps)
            && end.row.status.Published? && end.accepts == 1
            && |end.msgs| == 1 && end.msgs[0].place.Deleted? && Stuck(end)
  {
    var c := NewCell(0, 0, 0, 3, 10, 0);
    var first := SendsIt(10, true);
    var second := Stalls();
    var third := FailsOnce(Stalled());
    var last := ComesLate();
    hide Cells, Sent, Stalled, FailedOnce, Stuck;
    Then(c, first, second);
    Then(c, first + second, third);
    Then(c, first + second + third, last);
    steps := first + second + third + last;
    var end := Cells(c, steps);
    if AllTimely(c, steps) {
      NewIsLeased(0, 0, 0, 3, 10, 0);
      NoLostEvent(c, steps);
    }
  }

  lemma {:induction false} ClockRuns(c: Cell, steps: seq<Step>, n: nat)
    requires n <= |steps|
    ensures Cells(c, steps[..n]).now <= Cells(c, steps).now
  {
    hide Next;
    if n == |steps| {
      assert steps[..n] == steps;
    } else {
      var last := |steps| - 1;
      assert steps[..last][..n] == steps[..n];
      ClockRuns(c, steps[..last], n);
      NextIsOnward(Cells(c, steps[..last]), steps[last]);
    }
  }

  /** A run shorter than a lease has no late mark. */
  lemma NobodyIsLate(c: Cell, steps: seq<Step>)
    requires Cells(c, steps).now <= LEASE
    ensures AllTimely(c, steps)
    ensures forall n: nat :: n < |steps| ==> PublishersTimely(Cells(c, steps[..n]), steps[n])
  {
    hide Cells;
    forall n: nat | n < |steps|
      ensures WorkersTimely(Cells(c, steps[..n]), steps[n]) && PublishersTimely(Cells(c, steps[..n]), steps[n])
    {
      ClockRuns(c, steps, n);
    }
  }

  /** The message has been delivered three times in vain: DEAD, while its publisher is still at work. */
  function FailedThrice(maxPublish: nat, at: PublisherAt): Cell {
    FailedOnce(FailedOnce(FailedOnce(Sent(maxPublish, at))))
  }

  lemma ThreeFailures(maxPublish: nat, at: PublisherAt) returns (steps: seq<Step>)
    ensures Cells(Sent(maxPublish, at), steps) == FailedThrice(maxPublish, at)
  {
    var c := Sent(maxPublish, at);
    var first := FailsOnce(c);
    var second := FailsOnce(FailedOnce(c));
    var third := FailsOnce(FailedOnce(FailedOnce(c)));
    hide Cells;
    Then(c, first, second);
    Then(c, first + second, third);
    steps := first + second + third;
  }

  /** What matters of it. */
  ghost predicate DeadInVain(c: Cell, maxPublish: nat, at: PublisherAt) {
    && c.row.status.Dead? && c.row.maxPublish == maxPublish && c.now == 0
    && c.publishers == [Publisher(1, 0, at, 1)] && c.msgs == [Msg(3, InQueue)]
    && forall w :: 0 <= w < |c.workers| ==> c.workers[w].at.Idle?
  }

  lemma ThriceIsInVain(maxPublish: nat, at: PublisherAt)
    ensures DeadInVain(FailedThrice(maxPublish, at), maxPublish, at)
  {}

  lemma MarksAnothersClaim(c: Cell) returns (steps: seq<Step>)
    requires DeadInVain(c, 10, Marking)
    ensures var end := Cells(c, steps);
            && end.row.status.Published? && end.publishOwner == 1 && PublisherIs(end, 1, Sending)
            && end.now == 0
  {
    steps := Three(c, CfoRetry, ClaimEvent, Publish(0, true));
    hide Cells, Power;
    var c1 := Next(c, CfoRetry);
    assert c1 == c.(row := Outbox.Retry(c.row, 0), retries := c.retries + 1);
    var c2 := Next(c1, ClaimEvent);
    assert c2 == Claims(c1);
    assert c2.publishers == c.publishers + [Publisher(1, 0, Sending, 0)] && c2.row.status.Processing?;
  }

  /** Timely marks are not enough for the publishers: while one is between sending and marking,
      its message is delivered three times in vain, the CFO retries, and a second publisher claims
      the event.  The first one's mark then lands on the second one's claim. */
  lemma RetryInsideALease() returns (steps: seq<Step>)
    ensures var c := NewCell(0, 0, 0, 3, 10, 0);
            var end := Cells(c, steps);
            && AllTimely(c, steps)
            && (forall n: nat :: n < |steps| ==> PublishersTimely(Cells(c, steps[..n]), steps[n]))
            && end.row.status.Published? && end.publishOwner == 1 && PublisherIs(end, 1, Sending)
  {
    var c := NewCell(0, 0, 0, 3, 10, 0);
    var first := SendsIt(10, true);
    var second := ThreeFailures(10, Marking);
    ThriceIsInVain(10, Marking);
    var last := MarksAnothersClaim(FailedThrice(10, Marking));
    hide Cells, Sent, FailedThrice, AllTimely, DeadInVain;
    Then(c, first, second);
    Then(c, first + second, last);
    steps := first + second + last;
    NobodyIsLate(c, steps);
  }

  /** An event with two publish attempts, both taken: the first publisher overran its lease. */
  function ClaimedTwice(): Cell {
    var c := NewCell(0, 0, 0, 3, 2, 0);
    c.(now := 31, row := c.row.(status := Processing, publishAttempts := 2, lockedAt := Some(31)), publishOwner := 1,
       publishers := [Publisher(1, 0, Sending, 0), Publisher(2, 31, Sending, 0)])
  }

  lemma ClaimsTwice() returns (steps: seq<Step>)
    ensures Cells(NewCell(0, 0, 0, 3, 2, 0), steps) == ClaimedTwice()
  {
    var c := NewCell(0, 0, 0, 3, 2, 0);
    steps := [];
    Do(c, steps, ClaimEvent); steps := steps + [ClaimEvent];
    Do(c, steps, Tick(31));   steps := steps + [Tick(31)];
    Do(c, steps, ClaimEvent); steps := steps + [ClaimEvent];
  }

  lemma FailsLate() returns (steps: seq<Step>)
    ensures var end := Cells(ClaimedTwice(), steps);
            AtLimit(end) && Stuck(end)
  {
    var c := ClaimedTwice();
    steps := [];
    Do(c, steps, Send(0, 0, false)); steps := steps + [Send(0, 0, false)];
    Do(c, steps, Unpublish(0));          steps := steps + [Unpublish(0)];
    Do(c, steps, PublisherCrash(1));     steps := steps + [PublisherCrash(1)];
  }

  /** A late publisher's failure mark, deciding by the attempt it saw, puts an event that has used
      its last attempt back to PENDING; no publisher will take it and no retry reaches it. */
  lemma LatePublisherStrandsTheEvent() returns (steps: seq<Step>)
    ensures var end := Cells(NewCell(0, 0, 0, 3, 2, 0), steps);
            AtLimit(end) && Stuck(end)
  {
    var first := ClaimsTwice();
    var last := FailsLate();
    hide Cells, ClaimedTwice, Stuck, AtLimit;
    Then(NewCell(0, 0, 0, 3, 2, 0), first, last);
    steps := first + last;
  }

  /** The CFO has retried, and of the two attempts of the new round one has failed. */
  ghost predicate Reclaimed(c: Cell) {
    && c.row.status.Pending? && c.row.publishAttempts == 1 && c.row.maxPublish == 2 && c.row.nextAttemptAt == 2
    && c.now == 0 && c.msgs == [Msg(3, InQueue)]
    && c.publishers == [Publisher(1, 0, Failing, 1), Publisher(1, 0, Stopped, 0)]
    && forall w :: 0 <= w < |c.workers| ==> c.workers[w].at.Idle?
  }

  lemma Reclaims(c: Cell) returns (steps: seq<Step>)
    requires DeadInVain(c, 2, Failing)
    ensures Reclaimed(Cells(c, steps))
  {
    steps := Four(c, CfoRetry, ClaimEvent, Send(1, 0, false), Unpublish(1));
    hide Cells;
    RetriesAndClaims(c);
    var c2 := Next(Next(c, CfoRetry), ClaimEvent);
    hide Next;
    SendFails(c2);
  }

  lemma RetriesAndClaims(c: Cell)
    requires DeadInVain(c, 2, Failing)
    ensures var c2 := Next(Next(c, CfoRetry), ClaimEvent);
            && c2.row == c.row.(status := Processing, attempts := 0, publishAttempts := 1,
                                  nextAttemptAt := 0, lockedAt := Some(0))
            && c2.publishers == c.publishers + [Publisher(1, 0, Sending, 0)]
            && c2.msgs == c.msgs && c2.workers == c.workers && c2.now == 0
  {
    var c1 := Next(c, CfoRetry);
    assert c1 == c.(row := Outbox.Retry(c.row, 0), retries := c.retries + 1);
    assert Next(c1, ClaimEvent) == Claims(c1);
  }

  lemma SendFails(c: Cell)
    requires c.row.status.Processing? && c.row.publishAttempts == 1 && c.row.maxPublish == 2 && c.now == 0
    requires c.publishers == [Publisher(1, 0, Failing, 1), Publisher(1, 0, Sending, 0)] && c.msgs == [Msg(3, InQueue)]
    requires forall w :: 0 <= w < |c.workers| ==> c.workers[w].at.Idle?
    ensures Reclaimed(Next(Next(c, Send(1, 0, false)), Unpublish(1)))
  {
    var c3 := Next(c, Send(1, 0, false));
    assert Copies(0) == [] && c3.msgs == c.msgs + [] == c.msgs && c3.row == c.row;
    assert c3.publishers == [Publisher(1, 0, Failing, 1), Publisher(1, 0, Failing, 0)];
    assert Power(1) == 2 * Power(0);
  }

  lemma FailsInTime(c: Cell) returns (steps: seq<Step>)
    requires Reclaimed(c)
    ensures var end := Cells(c, steps);
            AtLimit(end) && Stuck(end) && end.now == 2
  {
    steps := Four(c, Tick(2), ClaimEvent, Unpublish(0), PublisherCrash(2));
    hide Cells, Power;
    var c1 := Next(c, Tick(2));
    assert c1 == c.(now := 2);
    var c2 := Next(c1, ClaimEvent);
    assert c2 == Claims(c1);
    assert c2.publishers == c.publishers + [Publisher(2, 2, Sending, 0)] && c2.row.publishAttempts == 2;
    var c3 := Next(c2, Unpublish(0));
    assert c3.row.status.Pending? && c3.publishers == c2.publishers[0 := Publisher(1, 0, Stopped, 1)];
  }

  /** Timely marks alone do not prevent it either: the failure mark of a claim from before the CFO's
      retry lands on the last attempt after it, two seconds into everybody's lease. */
  lemma TimelyPublishersStrandTheEvent() returns (steps: seq<Step>)
    ensures var c := NewCell(0, 0, 0, 3, 2, 0);
            && AllTimely(c, steps)
            && (forall n: nat :: n < |steps| ==> PublishersTimely(Cells(c, steps[..n]), steps[n]))
            && AtLimit(Cells(c, steps)) && Stuck(Cells(c, steps))
  {
    var c := NewCell(0, 0, 0, 3, 2, 0);
    var first := SendsIt(2, false);
    var second := ThreeFailures(2, Failing);
    ThriceIsInVain(2, Failing);
    hide Cells, Sent, FailedThrice, Reclaimed, DeadInVain, AllTimely, Stuck, AtLimit;
    var third := Reclaims(FailedThrice(2, Failing));
    var last := FailsInTime(Cells(FailedThrice(2, Failing), third));
    Then(c, first, second);
    Then(c, first + second, third);
    Then(c, first + second + third, last);
    steps := first + second + third + last;
    NobodyIsLate(c, steps);
  }
}
