/** One delivery_outbox row and every guarded UPDATE made on it.  The guards test the status only:
    no statement checks that the caller still owns the claim. */
module Outbox {
  import opened Money

  const LEASE := 30

  datatype EventStatus = Pending | Processing | Published | Delivering | Delivered | Dead

  datatype Row = Row(
    status: EventStatus, payload: nat, attempts: nat, maxAttempts: nat,
    publishAttempts: nat, maxPublish: nat, nextAttemptAt: nat, lockedAt: Option<nat>)
  {
    /** Locked so recently that nobody may take the row over. */
    predicate Fresh(now: nat) { lockedAt.Some? && now <= lockedAt.value + LEASE }
  }

  /** The CHECK constraints on the attempt counters. */
  predicate Checked(r: Row) {
    0 < r.maxAttempts && r.attempts <= r.maxAttempts && 0 < r.maxPublish && r.publishAttempts <= r.maxPublish
  }

  function NewEvent(payload: nat, maxAttempts: nat, maxPublish: nat, now: nat): Row {
    Row(Pending, payload, 0, maxAttempts, 0, maxPublish, now, None)
  }

  // ---- The publisher ----

  /** The WHERE clause of claim_event. */
  predicate Due(r: Row, now: nat) {
    && r.publishAttempts < r.maxPublish
    && (|| (r.status.Pending? && r.nextAttemptAt <= now)
        || (r.status.Processing? && r.lockedAt.Some? && !r.Fresh(now)))
  }

  function Claim(r: Row, now: nat): Row {
    r.(status := Processing, publishAttempts := r.publishAttempts + 1, lockedAt := Some(now))
  }

  function MarkPublished(r: Row): Row {
    if r.status.Processing? then r.(status := Published, lockedAt := None) else r
  }

  function Power(n: nat): nat { if n == 0 then 1 else 2 * Power(n - 1) }

  /** `attempt` is the count the publisher saw when it claimed. */
  function MarkPublishFailed(r: Row, attempt: nat, now: nat): Row {
    if r.status.Processing?
    then r.(status := if attempt >= r.maxPublish then Dead else Pending,
            nextAttemptAt := now + Min(Power(attempt), 60), lockedAt := None)
    else r
  }

  // ---- The consumer ----

  datatype Verdict =
    | Claimed | AlreadyDelivered | AlreadyDead | Busy
    | LimitReached  // the event is declared DEAD
    | Aborted       // a CHECK constraint rolled the claim back

  function Judge(r: Row, received: nat, now: nat): (Row, Verdict) {
    if r.status.Delivered? then (r, AlreadyDelivered)
    else if r.status.Dead? then (r, AlreadyDead)
    else if r.status.Delivering? && r.Fresh(now) then (r, Busy)
    else
      var counted := r.(attempts := Max(r.attempts, received));
      if counted.attempts > counted.maxAttempts then
        var dead := counted.(status := Dead, lockedAt := None);
        if Checked(dead) then (dead, LimitReached) else (r, Aborted)
      else (counted.(status := Delivering, lockedAt := Some(now)), Claimed)
  }

  function MarkDelivered(r: Row): Row {
    if r.status.Delivering? then r.(status := Delivered, lockedAt := None) else r
  }

  /** `attempts` is the count the consumer saw when it claimed. */
  function MarkFailed(r: Row, attempts: nat): Row {
    if r.status.Delivering?
    then r.(status := if attempts >= r.maxAttempts then Dead else Published, lockedAt := None) else r
  }

  // ---- The CFO ----

  /** A delivered event is refused; an active one is left alone. */
  function Retry(r: Row, now: nat): Row {
    if r.status.Dead?
    then r.(status := Pending, attempts := 0, publishAttempts := 0, nextAttemptAt := now, lockedAt := None) else r
  }

  // ---- What the guards give whoever calls them, and when ----

  /** The receive-limit branch of claim_delivery cannot take effect: the count that triggers it is
      the count the table refuses.  The event is never declared DEAD that way. */
  lemma ReceiveLimitAborts(r: Row, received: nat, now: nat)
    ensures Judge(r, received, now).1 != LimitReached
    ensures Judge(r, received, now).1 == Aborted <==>
              && !r.status.Delivered? && !r.status.Dead? && !(r.status.Delivering? && r.Fresh(now))
              && Max(r.attempts, received) > r.maxAttempts
    ensures Judge(r, received, now).1 != Claimed ==> Judge(r, received, now).0 == r
  {}

  /** The moves the guards admit, whoever makes them. */
  predicate MayBecome(s: EventStatus, s': EventStatus) {
    s == s' ||
    match s
    case Pending => s'.Processing? || s'.Delivering?
    case Processing => !s'.Delivered?
    case Published => s'.Delivering?
    case Delivering => s'.Delivered? || s'.Published? || s'.Dead?
    case Dead => s'.Pending?
    case Delivered => false
  }

  datatype Update =
    | DoClaim | DoPublished | DoPublishFailed(attempt: nat)
    | DoJudge(received: nat) | DoDelivered | DoFailed(attempts: nat) | DoRetry

  function Apply(r: Row, u: Update, now: nat): Row {
    match u
    case DoClaim => if Due(r, now) then Claim(r, now) else r
    case DoPublished => MarkPublished(r)
    case DoPublishFailed(attempt) => MarkPublishFailed(r, attempt, now)
    case DoJudge(received) => Judge(r, received, now).0
    case DoDelivered => MarkDelivered(r)
    case DoFailed(attempts) => MarkFailed(r, attempts)
    case DoRetry => Retry(r, now)
  }

  /** Any statement at all, from any worker however stale: DELIVERED is final, a publisher's mark
      never touches an event past PROCESSING, a consumer's failure mark never touches one past
      DELIVERING, the counters stay within their limits and the payload never changes. */
  lemma EveryUpdateIsGuarded(r: Row, u: Update, now: nat)
    requires Checked(r)
    ensures var r' := Apply(r, u, now);
            && Checked(r') && MayBecome(r.status, r'.status)
            && r'.payload == r.payload && r'.maxAttempts == r.maxAttempts && r'.maxPublish == r.maxPublish
            && (r.status.Delivered? ==> r' == r)
            && ((u.DoPublished? || u.DoPublishFailed?) && !r.status.Processing? ==> r' == r)
            && ((u.DoDelivered? || u.DoFailed?) && !r.status.Delivering? ==> r' == r)
            && (u.DoRetry? && !r.status.Dead? ==> r' == r)
            && (r'.status.Delivered? && !r.status.Delivered? ==> u.DoDelivered? && r.status.Delivering?)
  {
    hide Power;
  }

  // ---- The table ----

  /** delivery_outbox, in created_at order; an event's id is its position. */
  class Table {
    var rows: seq<Row>

    ghost predicate Valid()
      reads this
    {
      forall id :: 0 <= id < |rows| ==> Checked(rows[id])
    }

    constructor ()
      ensures rows == [] && Valid()
    {
      rows := [];
    }

    /** Oldest first, skipping the rows other transactions hold. */
    ghost predicate Oldest(id: nat, now: nat, locked: set<nat>)
      requires id < |rows|
      reads this
    {
      && id !in locked && Due(rows[id], now)
      && forall other :: 0 <= other < id && other !in locked ==> !Due(rows[other], now)
    }

    method ClaimEvent(now: nat, locked: set<nat>) returns (claim: Option<(nat, nat)>)
      requires Valid()
      modifies this
      ensures Valid()
      ensures claim.None? ==> rows == old(rows) && forall id :: 0 <= id < |rows| && id !in locked ==> !Due(rows[id], now)
      ensures claim.Some? ==>
                var (id, attempt) := claim.value;
                && id < |old(rows)| && old(Oldest(id, now, locked))
                && rows == old(rows)[id := Claim(old(rows)[id], now)]
                && attempt == rows[id].publishAttempts <= rows[id].maxPublish
      ensures claim.Some? ==>
                var (id, _) := claim.value;
                var was := old(rows)[id];
                && was.publishAttempts < was.maxPublish
                && (|| (was.status.Pending? && was.nextAttemptAt <= now)
                    || (was.status.Processing? && was.lockedAt.Some? && was.lockedAt.value + 30 < now))
                && rows[id] == was.(status := Processing, publishAttempts := was.publishAttempts + 1, lockedAt := Some(now))
    {
      var id := 0;
      while id < |rows| && (id in locked || !Due(rows[id], now))
        invariant id <= |rows|
        invariant forall other :: 0 <= other < id && other !in locked ==> !Due(rows[other], now)
      {
        id := id + 1;
      }
      if id == |rows| { return None; }
      rows := rows[id := Claim(rows[id], now)];
      return Some((id, rows[id].publishAttempts));
    }

    method MarkPublished(id: nat)
      requires Valid() && id < |rows|
      modifies this
      ensures Valid() && rows == old(rows)[id := Apply(old(rows)[id], DoPublished, 0)]
    {
      if rows[id].status.Processing? {
        rows := rows[id := rows[id].(status := Published, lockedAt := None)];
      }
    }

    method MarkPublishFailed(id: nat, attempt: nat, now: nat)
      requires Valid() && id < |rows|
      modifies this
      ensures Valid() && rows == old(rows)[id := Apply(old(rows)[id], DoPublishFailed(attempt), now)]
    {
      var terminal := attempt >= rows[id].maxPublish;
      var backoff := Min(Power(attempt), 60);
      if rows[id].status.Processing? {
        rows := rows[id := rows[id].(status := if terminal then Dead else Pending,
                                     nextAttemptAt := now + backoff, lockedAt := None)];
      }
    }

    method ClaimDelivery(id: nat, received: nat, now: nat) returns (verdict: Verdict, attempts: nat)
      requires Valid() && id < |rows|
      modifies this
      ensures Valid() && rows == old(rows)[id := Apply(old(rows)[id], DoJudge(received), now)]
      ensures verdict == Judge(old(rows)[id], received, now).1
      ensures verdict == Claimed ==> attempts == rows[id].attempts
    {
      attempts := 0;
      var event := rows[id];
      if event.status.Delivered? { return AlreadyDelivered, 0; }
      if event.status.Dead? { return AlreadyDead, 0; }
      if event.status.Delivering? && event.Fresh(now) { return Busy, 0; }
      event := event.(attempts := Max(event.attempts, received));
      if event.attempts > event.maxAttempts {
        // the DEAD row written here fails delivery_outbox_attempts_valid at commit
        assert !Checked(event.(status := Dead, lockedAt := None));
        return Aborted, 0;
      }
      rows := rows[id := event.(status := Delivering, lockedAt := Some(now))];
      return Claimed, event.attempts;
    }

    /** The row count tells the caller whether the invoice is to be marked sent. */
    method MarkDelivered(id: nat) returns (rowcount: nat)
      requires Valid() && id < |rows|
      modifies this
      ensures Valid() && rows == old(rows)[id := Apply(old(rows)[id], DoDelivered, 0)]
      ensures rowcount == if old(rows)[id].status.Delivering? then 1 else 0
    {
      if !rows[id].status.Delivering? { return 0; }
      rows := rows[id := rows[id].(status := Delivered, lockedAt := None)];
      return 1;
    }

    method MarkFailed(id: nat, attempts: nat)
      requires Valid() && id < |rows|
      modifies this
      ensures Valid() && rows == old(rows)[id := Apply(old(rows)[id], DoFailed(attempts), 0)]
    {
      var terminal := attempts >= rows[id].maxAttempts;
      if rows[id].status.Delivering? {
        rows := rows[id := rows[id].(status := if terminal then Dead else Published, lockedAt := None)];
      }
    }

    method RetryDeliveryEvent(id: nat, now: nat) returns (accepted: bool)
      requires Valid()
      modifies this
      ensures Valid() && (accepted <==> id < |old(rows)| && !old(rows)[id].status.Delivered?)
      ensures rows == if id < |old(rows)| then old(rows)[id := Apply(old(rows)[id], DoRetry, now)] else old(rows)
    {
      if id >= |rows| || rows[id].status.Delivered? { return false; }
      if rows[id].status.Dead? {
        rows := rows[id := rows[id].(status := Pending, attempts := 0, publishAttempts := 0,
                                     nextAttemptAt := now, lockedAt := None)];
      }
      return true;
    }
  }
}
