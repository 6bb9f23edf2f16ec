/** The whole life of one outbox event: any number of publishers and consumers, an at-least-once
    queue with a dead-letter queue, the adapter, crashes at every await, and the CFO's retry.
    Every await of the two loops is a separate step; steps interleave in any order. */
module Protocol {
  import opened Money
  import opened Sums
  import opened Outbox
  import Adapter

  const MAX_RECEIVES := 3  // the queue's redrive policy
  const SEND_ATTEMPTS := 6 // one attempt and the client's five retries of a send it got no answer to

  datatype Place = InQueue | InDlq | Deleted
  datatype Msg = Msg(received: nat, place: Place)

  /** Where a publisher is in publish_event, with the claim it holds. */
  datatype PublisherAt = Sending | Marking | Failing | Stopped
  datatype Publisher = Publisher(attempt: nat, claimedAt: nat, at: PublisherAt, sent: nat)

  /** Where a consumer is in process_message, with the claim it holds. */
  datatype WorkerAt = Judging | Discarding | Posting | Confirming | Deleting | Recovering | Idle
  datatype Worker = Worker(
    msg: nat, received: nat, payload: nat, attempts: nat, claimedAt: nat, at: WorkerAt, posted: bool)

  datatype Cell = Cell(
    event: nat, invoice: nat, now: nat, row: Row, msgs: seq<Msg>,
    publishers: seq<Publisher>, workers: seq<Worker>, delivery: Option<Adapter.Delivery>,
    // who claimed last, and how much has happened; no step depends on these
    publishOwner: nat, deliveryOwner: nat, retries: nat, posts: nat, accepts: nat, conflicts: nat)

  function NewCell(event: nat, invoice: nat, payload: nat, maxAttempts: nat, maxPublish: nat, now: nat): Cell {
    Cell(event, invoice, now, NewEvent(payload, maxAttempts, maxPublish, now), [], [], [], None, 0, 0, 0, 0, 0, 0)
  }

  datatype Step =
    | Tick(seconds: nat)
    // publisher
    | ClaimEvent
    | Send(p: nat, copies: nat, acknowledged: bool)  // what one send, retries included, enqueues
    | Publish(p: nat, returned: bool)      // mark_published, which may also fail after committing
    | PublishError(p: nat)                 // ... or before
    | Unpublish(p: nat)                    // mark_publish_failed
    | PublisherCrash(p: nat)
    // queue
    | Receive(m: nat)
    | Redrive(m: nat)
    // consumer
    | ClaimDelivery(w: nat)
    | Discard(w: nat)                      // the event was already delivered
    | Post(w: nat, reached: bool, acknowledged: bool)
    | Confirm(w: nat, returned: bool)      // mark_delivered
    | ConfirmError(w: nat)
    | Delete(w: nat)
    | DeleteError(w: nat, gone: bool)      // whether the message went before the error
    | Fail(w: nat)                         // mark_failed
    | WorkerCrash(w: nat)
    // operator
    | CfoRetry

  predicate PublisherIs(c: Cell, p: nat, at: PublisherAt) { p < |c.publishers| && c.publishers[p].at == at }
  predicate WorkerIs(c: Cell, w: nat, at: WorkerAt) { w < |c.workers| && c.workers[w].at == at }

  predicate Enabled(c: Cell, s: Step) {
    match s
    case Tick(_) => true
    case ClaimEvent => Due(c.row, c.now)
    case Send(p, copies, acknowledged) =>
      PublisherIs(c, p, Sending) && copies <= SEND_ATTEMPTS && (acknowledged ==> copies > 0)
    case Publish(p, _) => PublisherIs(c, p, Marking)
    case PublishError(p) => PublisherIs(c, p, Marking)
    case Unpublish(p) => PublisherIs(c, p, Failing)
    case PublisherCrash(p) => p < |c.publishers| && !c.publishers[p].at.Stopped?
    case Receive(m) => m < |c.msgs| && c.msgs[m].place.InQueue? && c.msgs[m].received < MAX_RECEIVES
    case Redrive(m) => m < |c.msgs| && c.msgs[m].place.InQueue? && c.msgs[m].received >= MAX_RECEIVES
    case ClaimDelivery(w) => WorkerIs(c, w, Judging)
    case Discard(w) => WorkerIs(c, w, Discarding) && c.workers[w].msg < |c.msgs|
    case Post(w, reached, acknowledged) => WorkerIs(c, w, Posting) && (acknowledged ==> reached)
    case Confirm(w, _) => WorkerIs(c, w, Confirming)
    case ConfirmError(w) => WorkerIs(c, w, Confirming)
    case Delete(w) => WorkerIs(c, w, Deleting) && c.workers[w].msg < |c.msgs|
    case DeleteError(w, _) => WorkerIs(c, w, Deleting) && c.workers[w].msg < |c.msgs|
    case Fail(w) => WorkerIs(c, w, Recovering)
    case WorkerCrash(w) => w < |c.workers| && !c.workers[w].at.Idle?
    case CfoRetry => c.row.status.Dead?
  }

  function SetPublisher(c: Cell, p: nat, at: PublisherAt): Cell
    requires p < |c.publishers|
  {
    c.(publishers := c.publishers[p := c.publishers[p].(at := at)])
  }

  function SetWorker(c: Cell, w: nat, at: WorkerAt): Cell
    requires w < |c.workers|
  {
    c.(workers := c.workers[w := c.workers[w].(at := at)])
  }

  function SetMessage(c: Cell, m: nat, place: Place): Cell
    requires m < |c.msgs|
  {
    c.(msgs := c.msgs[m := c.msgs[m].(place := place)])
  }

  function Claims(c: Cell): Cell {
    var row := Claim(c.row, c.now);
    c.(row := row, publishOwner := |c.publishers|,
       publishers := c.publishers + [Publisher(row.publishAttempts, c.now, Sending, 0)])
  }

  function Copies(n: nat): seq<Msg> { seq(n, _ => Msg(0, InQueue)) }

  function Sends(c: Cell, p: nat, copies: nat, acknowledged: bool): Cell
    requires p < |c.publishers|
  {
    c.(msgs := c.msgs + Copies(copies),
       publishers := c.publishers[p := c.publishers[p].(sent := copies, at := if acknowledged then Marking else Failing)])
  }

  function Receives(c: Cell, m: nat): Cell
    requires m < |c.msgs|
  {
    var received := c.msgs[m].received + 1;
    c.(msgs := c.msgs[m := c.msgs[m].(received := received)],
       workers := c.workers + [Worker(m, received, 0, 0, 0, Judging, false)])
  }

  function Judges(c: Cell, w: nat): Cell
    requires w < |c.workers|
  {
    var k := c.workers[w];
    var (row, verdict) := Judge(c.row, k.received, c.now);
    match verdict
    case Claimed =>
      c.(row := row, deliveryOwner := w,
         workers := c.workers[w := k.(at := Posting, claimedAt := c.now, attempts := row.attempts, payload := row.payload)])
    case AlreadyDelivered => SetWorker(c, w, Discarding)
    case _ => SetWorker(c.(row := row), w, Idle)
  }

  function Posts(c: Cell, w: nat, reached: bool, acknowledged: bool): Cell
    requires w < |c.workers|
  {
    var k := c.workers[w];
    if !reached then SetWorker(c, w, Recovering)
    else
      var (d, reply) := Adapter.Receive(c.delivery, Adapter.Request(c.invoice, k.payload, Some(c.event)), c.now);
      c.(delivery := Some(d), posts := c.posts + 1,
         accepts := c.accepts + (if reply.Delivered? && !reply.deduplicated then 1 else 0),
         conflicts := c.conflicts + (if reply.Conflict? then 1 else 0),
         workers := c.workers[w := k.(posted := true,
                                      at := if acknowledged && reply.Delivered? then Confirming else Recovering)])
  }

  function Next(c: Cell, s: Step): Cell {
    if !Enabled(c, s) then c
    else match s
      case Tick(seconds) => c.(now := c.now + seconds)
      case ClaimEvent => Claims(c)
      case Send(p, copies, acknowledged) => Sends(c, p, copies, acknowledged)
      case Publish(p, returned) =>
        SetPublisher(c.(row := MarkPublished(c.row)), p, if returned then Stopped else Failing)
      case PublishError(p) => SetPublisher(c, p, Failing)
      case Unpublish(p) =>
        SetPublisher(c.(row := MarkPublishFailed(c.row, c.publishers[p].attempt, c.now)), p, Stopped)
      case PublisherCrash(p) => SetPublisher(c, p, Stopped)
      case Receive(m) => Receives(c, m)
      case Redrive(m) => SetMessage(c, m, InDlq)
      case ClaimDelivery(w) => Judges(c, w)
      case Discard(w) => SetWorker(SetMessage(c, c.workers[w].msg, Deleted), w, Idle)
      case Post(w, reached, acknowledged) => Posts(c, w, reached, acknowledged)
      case Confirm(w, returned) =>
        SetWorker(c.(row := MarkDelivered(c.row)), w, if returned then Deleting else Recovering)
      case ConfirmError(w) => SetWorker(c, w, Recovering)
      case Delete(w) => SetWorker(SetMessage(c, c.workers[w].msg, Deleted), w, Idle)
      case DeleteError(w, gone) =>
        SetWorker(if gone then SetMessage(c, c.workers[w].msg, Deleted) else c, w, Recovering)
      case Fail(w) => SetWorker(c.(row := MarkFailed(c.row, c.workers[w].attempts)), w, Idle)
      case WorkerCrash(w) => SetWorker(c, w, Idle)
      case CfoRetry => c.(row := Outbox.Retry(c.row, c.now), retries := c.retries + 1)
  }

  function Cells(c: Cell, steps: seq<Step>): Cell {
    if steps == [] then c else Next(Cells(c, steps[..|steps| - 1]), steps[|steps| - 1])
  }

  /** The statement a step runs on the row, if any. */
  function UpdateOf(c: Cell, s: Step): Option<Update>
    requires Enabled(c, s)
  {
    match s
    case ClaimEvent => Some(DoClaim)
    case Publish(_, _) => Some(DoPublished)
    case Unpublish(p) => Some(DoPublishFailed(c.publishers[p].attempt))
    case ClaimDelivery(w) => Some(DoJudge(c.workers[w].received))
    case Confirm(_, _) => Some(DoDelivered)
    case Fail(w) => Some(DoFailed(c.workers[w].attempts))
    case CfoRetry => Some(DoRetry)
    case _ => None
  }

  /** A step changes the row by one of the table's own statements, or not at all. */
  lemma EveryStepIsAStatement(c: Cell, s: Step)
    requires Enabled(c, s)
    ensures Next(c, s).row == if UpdateOf(c, s).Some? then Apply(c.row, UpdateOf(c, s).value, c.now) else c.row
  {
    hide Power;
  }

  // ---- Exactly-once effect, whatever the timing ----

  ghost predicate SafeWorker(c: Cell, k: Worker) {
    && k.msg < |c.msgs|
    && (k.at.Posting? || k.at.Confirming? ==> k.payload == c.row.payload)
    && (k.at.Confirming? || k.at.Deleting? || k.at.Discarding? ==> c.delivery.Some?)
  }

  ghost predicate SafePublisher(c: Cell, q: Publisher) {
    q.at.Marking? ==> c.msgs != []
  }

  ghost predicate AcceptedOnce(c: Cell) {
    && c.conflicts == 0
    && match c.delivery
       case None => c.accepts == 0 && c.posts == 0
       case Some(d) =>
         && c.accepts == d.accepted == 1 && c.posts == d.accepted + d.duplicates
         && d.payload == c.row.payload && d.invoice == c.invoice
  }

  ghost predicate SafeRow(c: Cell) {
    && Checked(c.row)
    && (c.row.status.Delivered? ==> c.delivery.Some?)
    && (c.row.status.Published? || c.row.status.Delivering? ==> c.msgs != [])
    && (c.row.status.Processing? || c.row.status.Delivering? ==> c.row.lockedAt.Some?)
  }

  ghost predicate Safe(c: Cell) {
    && AcceptedOnce(c) && SafeRow(c)
    && (forall w :: 0 <= w < |c.workers| ==> SafeWorker(c, c.workers[w]))
    && (forall p :: 0 <= p < |c.publishers| ==> SafePublisher(c, c.publishers[p]))
  }

  lemma NextAccepts(c: Cell, s: Step)
    requires Safe(c)
    ensures AcceptedOnce(Next(c, s))
    ensures c.delivery.Some? ==> Next(c, s).delivery.Some?
  {
    hide Power, SafeRow;
  }

  lemma NextRow(c: Cell, s: Step)
    requires Safe(c)
    ensures SafeRow(Next(c, s))
  {
    hide Power, AcceptedOnce;
  }

  lemma NextPublisher(c: Cell, s: Step, p: nat)
    requires Safe(c) && p < |Next(c, s).publishers|
    ensures SafePublisher(Next(c, s), Next(c, s).publishers[p])
  {
    hide Power, AcceptedOnce, SafeRow, Checked;
    assert p < |c.publishers| ==> SafePublisher(c, c.publishers[p]);
  }

  lemma NextWorker(c: Cell, s: Step, w: nat)
    requires Safe(c) && w < |Next(c, s).workers|
    ensures SafeWorker(Next(c, s), Next(c, s).workers[w])
  {
    hide Power, AcceptedOnce;
    assert w < |c.workers| ==> SafeWorker(c, c.workers[w]);
  }

  lemma NextIsSafe(c: Cell, s: Step)
    requires Safe(c)
    ensures Safe(Next(c, s))
  {
    NextAccepts(c, s);
    NextRow(c, s);
    hide Next, AcceptedOnce, SafeRow;
    forall p: nat | p < |Next(c, s).publishers| { NextPublisher(c, s, p); }
    forall w: nat | w < |Next(c, s).workers| { NextWorker(c, s, w); }
  }

  /** What no step can undo. */
  ghost predicate Onward(c: Cell, c': Cell) {
    && c'.event == c.event && c'.invoice == c.invoice && c.now <= c'.now
    && c'.row.payload == c.row.payload && c'.row.maxPublish == c.row.maxPublish && c'.row.maxAttempts == c.row.maxAttempts
    && (c.delivery.Some? ==> c'.delivery.Some? && c'.delivery.value.deliveredAt == c.delivery.value.deliveredAt)
    && (c.row.status.Delivered? ==> c'.row == c.row)
    && c.accepts <= c'.accepts && c.retries <= c'.retries
  }

  lemma NextIsOnward(c: Cell, s: Step)
    ensures Onward(c, Next(c, s))
    ensures Outbox.MayBecome(c.row.status, Next(c, s).row.status)
  {
    hide Power;
  }

  /** For any number of duplicate messages, expired leases, stale workers, crashes and retries: the
      adapter accepts the event at most once and never refuses it, DELIVERED implies it was accepted,
      and DELIVERED is final. */
  lemma {:induction false} ExactlyOnceEffect(c: Cell, steps: seq<Step>)
    requires Safe(c)
    ensures Safe(Cells(c, steps)) && Onward(c, Cells(c, steps))
  {
    hide Safe, Next;
    if steps != [] {
      var before := Cells(c, steps[..|steps| - 1]);
      ExactlyOnceEffect(c, steps[..|steps| - 1]);
      NextIsSafe(before, steps[|steps| - 1]);
      NextIsOnward(before, steps[|steps| - 1]);
    }
  }

  lemma NewIsSafe(event: nat, invoice: nat, payload: nat, maxAttempts: nat, maxPublish: nat, now: nat)
    requires maxAttempts > 0 && maxPublish > 0
    ensures Safe(NewCell(event, invoice, payload, maxAttempts, maxPublish, now))
  {}
}
