/** How much work one event can cause, and exactly when it stops for good. */
module Bounds {
  import opened Money
  import opened Sums
  import opened Outbox
  import opened Protocol

  function SentColumn(publishers: seq<Publisher>): seq<int> {
    seq(|publishers|, p requires 0 <= p < |publishers| => publishers[p].sent)
  }

  function ReceivedColumn(msgs: seq<Msg>): seq<int> {
    seq(|msgs|, m requires 0 <= m < |msgs| => msgs[m].received)
  }

  function PostedColumn(workers: seq<Worker>): seq<int> {
    seq(|workers|, w requires 0 <= w < |workers| => if workers[w].posted then 1 else 0)
  }

  /** Every claim spends a publish attempt and sends once, at most six copies; every receipt spends one of a
      message's three, and every receipt posts at most once. */
  ghost predicate Counted(c: Cell) {
    && c.row.publishAttempts <= c.row.maxPublish
    && |c.publishers| <= c.row.maxPublish * c.retries + c.row.publishAttempts
    && Sum(SentColumn(c.publishers)) == |c.msgs|
    && Sum(ReceivedColumn(c.msgs)) == |c.workers|
    && Sum(PostedColumn(c.workers)) == c.posts
    && (forall p :: 0 <= p < |c.publishers| && c.publishers[p].at.Sending? ==> c.publishers[p].sent == 0)
    && (forall p :: 0 <= p < |c.publishers| ==> c.publishers[p].sent <= SEND_ATTEMPTS)
    && (forall m :: 0 <= m < |c.msgs| ==> c.msgs[m].received <= MAX_RECEIVES)
    && (forall w :: 0 <= w < |c.workers| && (c.workers[w].at.Judging? || c.workers[w].at.Posting?) ==> !c.workers[w].posted)
  }

  lemma CountPublisherSteps(c: Cell, s: Step)
    requires Counted(c) && Enabled(c, s) && (s.ClaimEvent? || s.Send?)
    ensures Counted(Next(c, s))
  {
    hide Sum;
    var c' := Next(c, s);
    var before, after := SentColumn(c.publishers), SentColumn(c'.publishers);
    match s
    case ClaimEvent =>
      SumSnoc(before, 0);
      assert after == before + [0];
    case Send(p, copies, _) =>
      SumChange(before, after, p);
      var unreceived := ReceivedColumn(Copies(copies));
      SumOfZeros(unreceived);
      SumConcat(ReceivedColumn(c.msgs), unreceived);
      assert ReceivedColumn(c'.msgs) == ReceivedColumn(c.msgs) + unreceived;
  }

  lemma CountWorkerSteps(c: Cell, s: Step)
    requires Counted(c) && Enabled(c, s) && (s.Receive? || s.Post?)
    ensures Counted(Next(c, s))
  {
    hide Sum;
    var c' := Next(c, s);
    var before, after := PostedColumn(c.workers), PostedColumn(c'.workers);
    match s
    case Receive(m) =>
      SumChange(ReceivedColumn(c.msgs), ReceivedColumn(c'.msgs), m);
      SumSnoc(before, 0);
      assert after == before + [0];
    case Post(w, reached, _) =>
      SumChange(before, after, w);
  }

  predicate Uncounted(s: Step) { !s.ClaimEvent? && !s.Send? && !s.Receive? && !s.Post? }

  lemma SameColumns(c: Cell, s: Step)
    requires Uncounted(s)
    ensures SentColumn(Next(c, s).publishers) == SentColumn(c.publishers)
    ensures ReceivedColumn(Next(c, s).msgs) == ReceivedColumn(c.msgs)
    ensures PostedColumn(Next(c, s).workers) == PostedColumn(c.workers)
  {
    hide Judge, MarkPublishFailed, MarkPublished, MarkDelivered, MarkFailed;
  }

  lemma SameFlags(c: Cell, s: Step)
    requires Counted(c) && Uncounted(s)
    ensures var c' := Next(c, s);
            && c'.posts == c.posts
            && (forall p :: 0 <= p < |c'.publishers| && c'.publishers[p].at.Sending? ==> c'.publishers[p].sent == 0)
            && (forall p :: 0 <= p < |c'.publishers| ==> c'.publishers[p].sent <= SEND_ATTEMPTS)
            && (forall m :: 0 <= m < |c'.msgs| ==> c'.msgs[m].received <= MAX_RECEIVES)
            && (forall w :: 0 <= w < |c'.workers| && (c'.workers[w].at.Judging? || c'.workers[w].at.Posting?) ==>
                  !c'.workers[w].posted)
  {
    hide Sum, Judge, MarkPublishFailed, MarkPublished, MarkDelivered, MarkFailed;
  }

  lemma SameBudget(c: Cell, s: Step)
    requires Counted(c) && Uncounted(s)
    ensures var r := Next(c, s).row;
            && r.publishAttempts <= r.maxPublish
            && |c.publishers| <= r.maxPublish * Next(c, s).retries + r.publishAttempts
  {
    hide Sum, Power;
    if s.CfoRetry? { OneMoreRound(c.row.maxPublish, c.retries); }
  }

  lemma CountOtherSteps(c: Cell, s: Step)
    requires Counted(c) && Uncounted(s)
    ensures Counted(Next(c, s))
  {
    SameColumns(c, s);
    SameFlags(c, s);
    SameBudget(c, s);
    hide Sum, Next;
    assert |SentColumn(Next(c, s).publishers)| == |SentColumn(c.publishers)|;
    assert |ReceivedColumn(Next(c, s).msgs)| == |ReceivedColumn(c.msgs)|;
    assert |PostedColumn(Next(c, s).workers)| == |PostedColumn(c.workers)|;
  }

  lemma OneMoreRound(max: nat, retries: nat)
    ensures max * (retries + 1) == max * retries + max
  {}

  lemma {:induction false} RunsAreCounted(c: Cell, steps: seq<Step>)
    requires Counted(c)
    ensures Counted(Cells(c, steps))
  {
    hide Counted, Next;
    if steps != [] {
      var before, s := Cells(c, steps[..|steps| - 1]), steps[|steps| - 1];
      RunsAreCounted(c, steps[..|steps| - 1]);
      if !Enabled(before, s) { Disabled(before, s); }
      else if s.ClaimEvent? || s.Send? { CountPublisherSteps(before, s); }
      else if s.Receive? || s.Post? { CountWorkerSteps(before, s); }
      else { CountOtherSteps(before, s); }
    }
  }

  lemma Disabled(c: Cell, s: Step)
    requires !Enabled(c, s)
    ensures Next(c, s) == c
  {}

  lemma {:induction false} SumBound(s: seq<int>, k: nat)
    requires forall i :: 0 <= i < |s| ==> s[i] <= k
    ensures Sum(s) <= k * |s|
  {
    if s != [] { SumBound(s[..|s| - 1], k); }
  }

  /** At most max_publish_attempts sends a round, one round more per CFO retry; at most six copies
      a send and three posts a copy - however the steps interleave. */
  lemma BoundedWork(event: nat, invoice: nat, payload: nat, maxAttempts: nat, maxPublish: nat, now: nat, steps: seq<Step>)
    ensures var c := Cells(NewCell(event, invoice, payload, maxAttempts, maxPublish, now), steps);
            && |c.publishers| <= maxPublish * (c.retries + 1)
            && |c.msgs| <= 6 * |c.publishers|
            && c.posts <= 3 * |c.msgs|
  {
    var start := NewCell(event, invoice, payload, maxAttempts, maxPublish, now);
    RunsAreCounted(start, steps);
    LimitsAreFixed(start, steps);
    var c := Cells(start, steps);
    hide Cells, Sum;
    SumBound(SentColumn(c.publishers), SEND_ATTEMPTS);
    SumBound(ReceivedColumn(c.msgs), MAX_RECEIVES);
    SumBound(PostedColumn(c.workers), 1);
    OneMoreRound(c.row.maxPublish, c.retries);
  }

  lemma {:induction false} LimitsAreFixed(c: Cell, steps: seq<Step>)
    ensures Cells(c, steps).row.maxPublish == c.row.maxPublish
  {
    hide Next;
    if steps != [] {
      LimitsAreFixed(c, steps[..|steps| - 1]);
      NextIsOnward(Cells(c, steps[..|steps| - 1]), steps[|steps| - 1]);
    }
  }

  // ---- The stuck states ----

  /** No publisher and no consumer is at work on the event. */
  ghost predicate Quiet(c: Cell) {
    && (forall p :: 0 <= p < |c.publishers| ==> c.publishers[p].at.Stopped?)
    && (forall w :: 0 <= w < |c.workers| ==> c.workers[w].at.Idle?)
  }

  /** A message the queue would still hand out. */
  predicate CanReceive(m: Msg) { m.place.InQueue? && m.received < MAX_RECEIVES }

  predicate Open(c: Cell) { !c.row.status.Delivered? && !c.row.status.Dead? }

  ghost predicate Stuck(c: Cell) {
    && Quiet(c) && Open(c)
    && (forall m :: 0 <= m < |c.msgs| ==> !CanReceive(c.msgs[m]))
    && (c.row.status.Pending? || c.row.status.Processing? ==> c.row.publishAttempts >= c.row.maxPublish)
  }

  /** What the two services do of their own accord. */
  predicate Progress(s: Step) {
    && !s.Tick? && !s.Redrive? && !s.CfoRetry? && !s.PublisherCrash? && !s.WorkerCrash?
    && !s.PublishError? && !s.ConfirmError? && !s.DeleteError?
  }

  ghost predicate SomethingToDo(c: Cell) {
    exists seconds: nat, s :: Progress(s) && Enabled(Next(c, Tick(seconds)), s)
  }

  /** These are all of them: an open event can make no more progress, however long one waits, if
      and only if it is stuck - published or claimed for delivery with no receivable message left,
      or waiting at its publish limit with none. */
  lemma StuckIff(c: Cell)
    requires Safe(c) && Open(c)
    ensures Stuck(c) <==> !SomethingToDo(c)
  {
    if Stuck(c) {
      forall seconds: nat, s | Progress(s) ensures !Enabled(Next(c, Tick(seconds)), s) {}
    } else {
      WorkLeft(c);
    }
  }

  /** A process that is not stopped always has its next statement to run. */
  function PublisherMove(at: PublisherAt, p: nat): Step {
    match at
    case Sending => Send(p, 0, false)
    case Marking => Publish(p, true)
    case Failing => Unpublish(p)
    case Stopped => ClaimEvent
  }

  function WorkerMove(at: WorkerAt, w: nat): Step {
    match at
    case Judging => ClaimDelivery(w)
    case Discarding => Discard(w)
    case Posting => Post(w, false, false)
    case Confirming => Confirm(w, true)
    case Deleting => Delete(w)
    case Recovering => Fail(w)
    case Idle => ClaimEvent
  }

  lemma ToDo(c: Cell, seconds: nat, s: Step)
    requires Progress(s) && Enabled(Next(c, Tick(seconds)), s)
    ensures SomethingToDo(c)
  {}

  lemma WorkLeft(c: Cell)
    requires Safe(c) && Open(c) && !Stuck(c)
    ensures SomethingToDo(c)
  {
    if p :| 0 <= p < |c.publishers| && !c.publishers[p].at.Stopped? {
      var s := PublisherMove(c.publishers[p].at, p);
      ToDo(c, 0, s);
    } else if w :| 0 <= w < |c.workers| && !c.workers[w].at.Idle? {
      assert SafeWorker(c, c.workers[w]);
      var s := WorkerMove(c.workers[w].at, w);
      ToDo(c, 0, s);
    } else if m :| 0 <= m < |c.msgs| && CanReceive(c.msgs[m]) {
      ToDo(c, 0, Receive(m));
    } else {
      var seconds := c.row.nextAttemptAt + (if c.row.lockedAt.Some? then c.row.lockedAt.value + LEASE + 1 else 0);
      assert Due(c.row, c.now + seconds);
      ToDo(c, seconds, ClaimEvent);
    }
  }

  /** A stuck event stays stuck: the CFO's retry only reaches events that are DEAD. */
  lemma {:induction false} StuckForever(c: Cell, steps: seq<Step>)
    requires Stuck(c)
    ensures Stuck(Cells(c, steps)) && Cells(c, steps).row == c.row
  {
    hide Stuck, Next;
    if steps != [] {
      StuckForever(c, steps[..|steps| - 1]);
      StuckStays(Cells(c, steps[..|steps| - 1]), steps[|steps| - 1]);
    }
  }

  lemma StuckStays(c: Cell, s: Step)
    requires Stuck(c)
    ensures Stuck(Next(c, s)) && Next(c, s).row == c.row
  {
    hide Power;
  }

  // ---- PENDING at the publish limit ----

  /** No publisher takes it, and no retry reaches it. */
  predicate AtLimit(c: Cell) { c.row.status.Pending? && c.row.publishAttempts >= c.row.maxPublish }

  /** A failure mark by a claim older than the row's last one. */
  predicate Strands(c: Cell, s: Step) {
    && s.Unpublish? && Enabled(c, s)
    && c.row.status.Processing? && c.row.publishAttempts >= c.row.maxPublish
    && c.publishers[s.p].attempt < c.row.maxPublish
  }

  /** That is the one way into this stuck state. */
  lemma AtLimitIff(c: Cell, s: Step)
    requires Safe(c) && !AtLimit(c)
    ensures AtLimit(Next(c, s)) <==> Strands(c, s)
  {
    hide Power, AcceptedOnce, SafeWorker, SafePublisher;
  }

  /** Over runs: an event is never found PENDING at its limit if and only if no mark_publish_failed
      finds it PROCESSING at its limit with an older attempt in hand. */
  lemma NeverAtLimitIff(c: Cell, steps: seq<Step>)
    requires Safe(c) && !AtLimit(c)
    ensures (forall n: nat :: n <= |steps| ==> !AtLimit(Cells(c, steps[..n])))
       <==> (forall n: nat :: n < |steps| ==> !Strands(Cells(c, steps[..n]), steps[n]))
  {
    hide Cells, AtLimit, Strands, Safe;
    if forall n: nat :: n <= |steps| ==> !AtLimit(Cells(c, steps[..n])) {
      forall n: nat | n < |steps| ensures !Strands(Cells(c, steps[..n]), steps[n]) {
        assert !AtLimit(Cells(c, steps[..n])) && !AtLimit(Cells(c, steps[..n + 1]));
        LimitStep(c, steps, n);
      }
    } else if forall n: nat :: n < |steps| ==> !Strands(Cells(c, steps[..n]), steps[n]) {
      forall n: nat | n <= |steps| ensures !AtLimit(Cells(c, steps[..n])) {
        NotYetAtLimit(c, steps, n);
      }
    }
  }

  lemma LimitStep(c: Cell, steps: seq<Step>, n: nat)
    requires Safe(c) && n < |steps| && !AtLimit(Cells(c, steps[..n]))
    ensures AtLimit(Cells(c, steps[..n + 1])) <==> Strands(Cells(c, steps[..n]), steps[n])
  {
    hide Next, AtLimit, Strands, Safe;
    ExactlyOnceEffect(c, steps[..n]);
    assert steps[..n + 1][..n] == steps[..n];
    AtLimitIff(Cells(c, steps[..n]), steps[n]);
  }

  lemma {:induction false} NotYetAtLimit(c: Cell, steps: seq<Step>, n: nat)
    requires Safe(c) && !AtLimit(c) && n <= |steps|
    requires forall k: nat :: k < n ==> !Strands(Cells(c, steps[..k]), steps[k])
    ensures !AtLimit(Cells(c, steps[..n]))
  {
    hide Next, AtLimit, Strands, Safe;
    if n > 0 {
      NotYetAtLimit(c, steps, n - 1);
      LimitStep(c, steps, n - 1);
    }
  }
}
