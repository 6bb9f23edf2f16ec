/** When an event may be claimed: how long a backoff and a lease hold over whole runs, and no longer. */
module Timing {
  import opened Money
  import opened Outbox
  import opened Protocol

  /** Seconds a failed publish attempt is held back. */
  function Backoff(attempt: nat): nat { if attempt < 6 then [1, 2, 4, 8, 16, 32][attempt] else 60 }

  lemma BackoffIs(attempt: nat)
    ensures Min(Power(attempt), 60) == Backoff(attempt)
  {
    if attempt >= 6 { PowerGrows(attempt); } else { SmallPowers(); }
  }

  lemma SmallPowers()
    ensures Power(0) == 1 && Power(1) == 2 && Power(2) == 4 && Power(3) == 8 && Power(4) == 16 && Power(5) == 32
  {
    assert Power(2) == 2 * Power(1);
    assert Power(3) == 2 * Power(2);
    assert Power(4) == 2 * Power(3);
    assert Power(5) == 2 * Power(4);
  }

  lemma {:induction false} PowerGrows(n: nat)
    requires n >= 6
    ensures Power(n) >= 64
  {
    if n > 6 { PowerGrows(n - 1); } else { SmallPowers(); }
  }

  // ---- Waiting, in general ----

  datatype Claimer = APublisher | AConsumer

  predicate IsClaim(s: Step, who: Claimer) { if who.APublisher? then s.ClaimEvent? else s.ClaimDelivery? }

  predicate Takes(c: Cell, s: Step) { Next(c, s).row != c.row }

  /** Something other than such a claim changed the row on the way. */
  ghost predicate Disturbed(c: Cell, steps: seq<Step>, who: Claimer) {
    exists m :: 0 <= m < |steps| && !IsClaim(steps[m], who) && Takes(Cells(c, steps[..m]), steps[m])
  }

  /** No such claim takes a row like this one before `t`. */
  ghost predicate Waits(row: Row, who: Claimer, t: nat) {
    forall c: Cell, s :: c.row == row && c.now < t && IsClaim(s, who) ==> !Takes(c, s)
  }

  lemma {:induction false} WaitsOut(c: Cell, steps: seq<Step>, who: Claimer, t: nat)
    requires Waits(c.row, who, t)
    ensures Disturbed(c, steps, who) || Cells(c, steps).row == c.row || Cells(c, steps).now >= t
  {
    hide Next, Takes;
    if steps != [] {
      var n := |steps| - 1;
      var before := Cells(c, steps[..n]);
      WaitsOut(c, steps[..n], who, t);
      if Disturbed(c, steps[..n], who) {
        var m :| 0 <= m < n && !IsClaim(steps[..n][m], who) && Takes(Cells(c, steps[..n][..m]), steps[..n][m]);
        assert steps[..n][..m] == steps[..m] && steps[..n][m] == steps[m];
      } else {
        NextIsOnward(before, steps[n]);
        TakesOrNot(before, steps[n]);
      }
    }
  }

  lemma TakesOrNot(c: Cell, s: Step)
    ensures Takes(c, s) <==> Next(c, s).row != c.row
  {}

  lemma ClaimsLate(c: Cell, steps: seq<Step>, who: Claimer, t: nat, s: Step)
    requires Waits(c.row, who, t) && IsClaim(s, who) && Takes(Cells(c, steps), s)
    ensures Disturbed(c, steps, who) || Cells(c, steps).now >= t
  {
    hide Next, Takes, Cells, Disturbed;
    WaitsOut(c, steps, who, t);
  }

  // ---- Publishers ----

  /** A publish attempt that fails at `c.now` and leaves its event PENDING holds it back for the backoff of
      its attempt: no publisher claims it earlier, unless something else has changed the row; and left alone
      it can be claimed from then on, if it has an attempt left. */
  lemma BackoffHolds(c: Cell, p: nat, steps: seq<Step>)
    requires Enabled(c, Unpublish(p)) && c.row.status.Processing? && Next(c, Unpublish(p)).row.status.Pending?
    ensures var failed := Next(c, Unpublish(p));
            var later, t := Cells(failed, steps), c.now + Backoff(c.publishers[p].attempt);
            && (Takes(later, ClaimEvent) ==> later.now >= t || Disturbed(failed, steps, APublisher))
            && (later.row == failed.row ==>
                  (Takes(later, ClaimEvent) <==> later.now >= t && later.row.publishAttempts < later.row.maxPublish))
  {
    var failed := Next(c, Unpublish(p));
    var t := c.now + Backoff(c.publishers[p].attempt);
    BackoffIs(c.publishers[p].attempt);
    hide Power;
    PendingWaits(failed.row);
    var later := Cells(failed, steps);
    ClaimTakesIff(later);
    hide Next, Cells, Takes, Disturbed, Waits;
    if Takes(later, ClaimEvent) { ClaimsLate(failed, steps, APublisher, t, ClaimEvent); }
  }

  lemma PendingWaits(row: Row)
    requires row.status.Pending?
    ensures Waits(row, APublisher, row.nextAttemptAt)
  {}

  /** What a poll finds: a PENDING row whose time has come, or one PROCESSING for more than 30 seconds. */
  lemma ClaimTakesIff(c: Cell)
    ensures Takes(c, ClaimEvent) <==>
              && c.row.publishAttempts < c.row.maxPublish
              && (|| (c.row.status.Pending? && c.now >= c.row.nextAttemptAt)
                  || (c.row.status.Processing? && c.row.lockedAt.Some? && c.now > c.row.lockedAt.value + 30))
  {}

  /** A publisher's claim holds for 30 seconds against other publishers, and no longer. */
  lemma PublishLeaseHolds(c: Cell, steps: seq<Step>)
    requires Takes(c, ClaimEvent)
    ensures var claimed := Next(c, ClaimEvent);
            var later := Cells(claimed, steps);
            && claimed.row == c.row.(status := Processing, publishAttempts := c.row.publishAttempts + 1, lockedAt := Some(c.now))
            && (Takes(later, ClaimEvent) ==> later.now > c.now + 30 || Disturbed(claimed, steps, APublisher))
            && (later.row == claimed.row ==>
                  (Takes(later, ClaimEvent) <==>
                     later.now > c.now + 30 && later.row.publishAttempts < later.row.maxPublish))
  {
    var claimed := Next(c, ClaimEvent);
    assert Waits(claimed.row, APublisher, c.now + 31);
    var later := Cells(claimed, steps);
    ClaimTakesIff(later);
    hide Cells, Takes, Disturbed, Waits;
    if Takes(later, ClaimEvent) { ClaimsLate(claimed, steps, APublisher, c.now + 31, ClaimEvent); }
  }

  // ---- Consumers ----

  /** A consumer's claim holds for 30 seconds against every other message of the event, and no longer. */
  lemma DeliveryLeaseHolds(c: Cell, w: nat, steps: seq<Step>, x: nat)
    requires Takes(c, ClaimDelivery(w))
    ensures w < |c.workers|
    ensures var claimed := Next(c, ClaimDelivery(w));
            var later := Cells(claimed, steps);
            && claimed.row.status.Delivering? && claimed.row.attempts == Max(c.row.attempts, c.workers[w].received)
            && (Takes(later, ClaimDelivery(x)) ==> later.now > c.now + 30 || Disturbed(claimed, steps, AConsumer))
            && (later.row == claimed.row && Enabled(later, ClaimDelivery(x)) ==>
                  (Takes(later, ClaimDelivery(x)) <==>
                     later.now > c.now + 30 && later.workers[x].received <= later.row.maxAttempts))
  {
    var claimed := Next(c, ClaimDelivery(w));
    assert Waits(claimed.row, AConsumer, c.now + 31);
    var later := Cells(claimed, steps);
    hide Cells, Disturbed, Waits;
    if Takes(later, ClaimDelivery(x)) { ClaimsLate(claimed, steps, AConsumer, c.now + 31, ClaimDelivery(x)); }
  }

  // ---- Giving up ----

  /** Exactly the failures that make an event DEAD: a publisher's at its last attempt, or a consumer's at
      its last; any other puts it back where it was claimed. */
  lemma DiesIff(c: Cell, s: Step)
    requires !c.row.status.Dead?
    ensures Next(c, s).row.status.Dead? <==>
              || (s.Unpublish? && Enabled(c, s) && c.row.status.Processing? && c.publishers[s.p].attempt >= c.row.maxPublish)
              || (s.Fail? && Enabled(c, s) && c.row.status.Delivering? && c.workers[s.w].attempts >= c.row.maxAttempts)
    ensures s.Unpublish? && Takes(c, s) && !Next(c, s).row.status.Dead? ==> Next(c, s).row.status.Pending?
    ensures s.Fail? && Takes(c, s) && !Next(c, s).row.status.Dead? ==> Next(c, s).row.status.Published?
  {
    hide Power;
  }

  // ---- The CFO ----

  /** A retried event can be claimed at once, and has its whole budget again. */
  lemma RetryIsImmediate(c: Cell)
    requires c.row.status.Dead?
    ensures var r := Next(c, CfoRetry);
            && r.row.publishAttempts == 0 && r.row.attempts == 0 && (r.row.maxPublish > 0 ==> Takes(r, ClaimEvent))
  {}
}
