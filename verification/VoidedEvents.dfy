/** What a void leaves behind: the invoice is closed, its outbox event is as it was, and delivery
    goes on without asking for the invoice's status. */
module VoidedEvents {
  import opened Money
  import opened Books
  import opened Commands
  import opened Steps
  import opened Lifecycle
  import opened SharedRow
  import Interleaving
  import Outbox
  import Protocol
  import Findings
  import Incidents

  /** No ledger command, a void included, changes an event there is. */
  lemma LedgerLeavesEvents(s: System, c: Command, payload: nat, now: nat, i: nat)
    requires i in s.events
    ensures var s' := Act(s, Ledger(c, payload, now)); i in s'.events && s'.events[i] == s.events[i]
  {
    hide Step;
  }

  /** mark_delivered finds the event of `i` being delivered. */
  predicate Confirms(s: System, a: Action, i: nat) {
    && a.Delivery? && a.i == i && i in s.events
    && a.step.Confirm? && Protocol.Enabled(s.events[i], a.step) && s.events[i].row.status.Delivering?
  }

  lemma OnlyConfirmsDeliver(c: Protocol.Cell, step: Protocol.Step)
    requires !c.row.status.Delivered?
    ensures Protocol.Next(c, step).row.status.Delivered? <==>
              step.Confirm? && Protocol.Enabled(c, step) && c.row.status.Delivering?
  {
    hide Outbox.Power;
  }

  lemma ActDeliversIff(s: System, a: Action, i: nat)
    requires i in s.events
    ensures i in Act(s, a).events
    ensures Act(s, a).events[i].row.status.Delivered? <==> s.events[i].row.status.Delivered? || Confirms(s, a, i)
  {
    match a
    case Ledger(c, payload, now) => LedgerLeavesEvents(s, c, payload, now, i);
    case Delivery(n, step) =>
      if n == i {
        hide Step;
        Protocol.NextIsOnward(s.events[i], step);
        if !s.events[i].row.status.Delivered? { OnlyConfirmsDeliver(s.events[i], step); }
        hide Protocol.Next;
      }
  }

  /** Whatever else the ledger and the other events do meanwhile, an event becomes DELIVERED exactly
      when some mark_delivered finds it being delivered: no status of the invoice prevents it. */
  lemma {:induction false} DeliveredIff(s: System, actions: seq<Action>, i: nat)
    requires i in s.events && !s.events[i].row.status.Delivered?
    ensures i in Acts(s, actions).events
    ensures Acts(s, actions).events[i].row.status.Delivered? <==>
              exists n :: 0 <= n < |actions| && Confirms(Acts(s, actions[..n]), actions[n], i)
  {
    hide Act, Confirms;
    if actions != [] {
      var last := |actions| - 1;
      var earlier := actions[..last];
      DeliveredIff(s, earlier, i);
      ActDeliversIff(Acts(s, earlier), actions[last], i);
      hide Acts;
      assert forall n :: 0 <= n < last ==> earlier[..n] == actions[..n] && earlier[n] == actions[n];
    }
  }

  lemma ActKeepsVoid(s: System, a: Action, i: nat)
    requires Shared(s) && i < |s.books.invoices| && s.books.invoices[i].status.Void?
    ensures i < |Act(s, a).books.invoices| && Act(s, a).books.invoices[i].status.Void?
    ensures Act(s, a).books.invoices[i].balance <= s.books.invoices[i].balance
  {
    hide Step, Protocol.Next;
    match a
    case Ledger(c, _, _) => if Step(s.books, c).Ok? { StepMoves(s.books, c, Step(s.books, c).value, i); }
    case Delivery(n, step) => DeliveryIsFree(s, n, step);
  }

  lemma {:induction false} RunKeepsVoid(s: System, actions: seq<Action>, i: nat)
    requires Shared(s) && i < |s.books.invoices| && s.books.invoices[i].status.Void?
    ensures i < |Acts(s, actions).books.invoices| && Acts(s, actions).books.invoices[i].status.Void?
    ensures Acts(s, actions).books.invoices[i].balance <= s.books.invoices[i].balance
  {
    hide Act, Shared;
    if actions != [] {
      var earlier := actions[..|actions| - 1];
      RunKeepsVoid(s, earlier, i);
      RunsShare(s, earlier);
      ActKeepsVoid(Acts(s, earlier), actions[|actions| - 1], i);
    }
  }

  /** So over any joint run that goes on after a void: the invoice stays VOID, and it is posted to the
      customer's system and stamped with a sent_at all the same exactly when a mark_delivered finds its
      event being delivered. */
  lemma VoidIsDeliveredIff(s: System, actions: seq<Action>, i: nat)
    requires Shared(s) && i in s.events && !s.events[i].row.status.Delivered?
    requires i < |s.books.invoices| && s.books.invoices[i].status.Void?
    ensures var s' := Acts(s, actions);
            && i in s'.events && i < |s'.books.invoices| && s'.books.invoices[i].status.Void?
            && var delivered := exists n :: 0 <= n < |actions| && Confirms(Acts(s, actions[..n]), actions[n], i);
               && (s'.books.invoices[i].sentAt.Some? <==> delivered)
               && (s'.events[i].row.status.Delivered? <==> delivered)
               && (delivered ==> s'.events[i].accepts == 1)
  {
    RunKeepsVoid(s, actions, i);
    DeliveredIff(s, actions, i);
    RunsShare(s, actions);
    hide Acts, Confirms, Steps.Sound;
    assert EventMatches(Acts(s, actions).books, i, Acts(s, actions).events[i]);
  }

  // ---- It does happen ----

  function Deliveries(i: nat, steps: seq<Protocol.Step>): seq<Action> {
    seq(|steps|, n requires 0 <= n < |steps| => Delivery(i, steps[n]))
  }

  lemma {:induction false} DeliveriesRun(s: System, i: nat, steps: seq<Protocol.Step>)
    requires i in s.events
    ensures var s' := Acts(s, Deliveries(i, steps));
            i in s'.events && s'.events[i] == Protocol.Cells(s.events[i], steps)
  {
    hide Protocol.Next, Step;
    if steps != [] {
      var earlier := steps[..|steps| - 1];
      DeliveriesRun(s, i, earlier);
      assert Deliveries(i, steps)[..|steps| - 1] == Deliveries(i, earlier);
    }
  }

  /** Nothing has happened to any event yet. */
  ghost predicate AllNew(events: map<nat, Protocol.Cell>, payload: nat, now: nat) {
    forall i :: i in events ==>
      events[i] == Protocol.NewCell(i, i, payload, MAX_ATTEMPTS, MAX_PUBLISH_ATTEMPTS, now)
  }

  function Ledgered(commands: seq<Command>, payload: nat, now: nat): seq<Action> {
    seq(|commands|, n requires 0 <= n < |commands| => Ledger(commands[n], payload, now))
  }

  lemma {:induction false} LedgeredRuns(s: System, commands: seq<Command>, payload: nat, now: nat)
    requires AllNew(s.events, payload, now) && forall n :: 0 <= n < |commands| ==> !commands[n].Deliver?
    ensures var s' := Acts(s, Ledgered(commands, payload, now));
            s'.books == Run(s.books, commands) && AllNew(s'.events, payload, now)
  {
    hide Step;
    if commands != [] {
      var earlier := commands[..|commands| - 1];
      LedgeredRuns(s, earlier, payload, now);
      assert Ledgered(commands, payload, now)[..|commands| - 1] == Ledgered(earlier, payload, now);
    }
  }

  lemma {:induction false} ThenActs(s: System, first: seq<Action>, second: seq<Action>)
    ensures Acts(s, first + second) == Acts(Acts(s, first), second)
  {
    hide Act;
    if second == [] {
      assert first + second == first;
    } else {
      ThenActs(s, first, second[..|second| - 1]);
      assert (first + second)[..|first + second| - 1] == first + second[..|second| - 1];
    }
  }

  lemma VoidsLarge(start: Books, opening: seq<Command>)
    requires Run(start, opening).invoices == [Findings.LARGE] && Run(start, opening).outbox == [0]
    ensures var b := Run(start, opening + [VoidInvoice(0)]);
            |b.invoices| == 1 && b.invoices[0].status.Void? && b.outbox == [0]
  {
    var b := Run(start, opening);
    assert AllPostable(VoidEntry(0, Findings.LARGE).lines);
    hide AllPostable, VoidEntry, Run;
    Findings.RunSnoc(start, opening, VoidInvoice(0), Step(b, VoidInvoice(0)).value);
  }

  /** Create, approve, void. */
  lemma VoidedUnsent() returns (commands: seq<Command>)
    ensures forall n :: 0 <= n < |commands| ==> !commands[n].Deliver?
    ensures var b := Run(Empty("INR", Findings.ONE_CUSTOMER), commands);
            |b.invoices| == 1 && b.invoices[0].status.Void? && b.outbox == [0]
  {
    var start, opening := Empty("INR", Findings.ONE_CUSTOMER), Findings.Opening("USD", RATE_ONE, LineTotals(1000, 0));
    commands := opening + [VoidInvoice(0)];
    hide *;
    Findings.LargeOpened();
    VoidsLarge(start, opening);
  }

  ghost predicate Waiting(s: System) {
    && Shared(s) && 0 < |s.books.invoices| && s.books.invoices[0].status.Void?
    && 0 in s.events && s.events[0] == Protocol.NewCell(0, 0, 7, MAX_ATTEMPTS, MAX_PUBLISH_ATTEMPTS, 0)
  }

  lemma VoidedWaits() returns (actions: seq<Action>)
    ensures Waiting(Acts(System(Empty("INR", Findings.ONE_CUSTOMER), map[]), actions))
  {
    var start := System(Empty("INR", Findings.ONE_CUSTOMER), map[]);
    var commands := VoidedUnsent();
    actions := Ledgered(commands, 7, 0);
    EmptyIsSound("INR", Findings.ONE_CUSTOMER);
    hide Acts, Run, Steps.Sound, EventMatches, Ledgered;
    LedgeredRuns(start, commands, 7, 0);
    RunsShare(start, actions);
    assert 0 in Acts(start, actions).books.outbox;
  }

  /** An invoice is voided before anything was sent, and is then posted, accepted and stamped as sent. */
  lemma VoidThenDelivered() returns (actions: seq<Action>)
    ensures var s := Acts(System(Empty("INR", Findings.ONE_CUSTOMER), map[]), actions);
            && 0 < |s.books.invoices| && s.books.invoices[0].status.Void? && s.books.invoices[0].sentAt.Some?
            && 0 in s.events && s.events[0].row.status.Delivered? && s.events[0].accepts == 1
  {
    var start := System(Empty("INR", Findings.ONE_CUSTOMER), map[]);
    var first := VoidedWaits();
    var steps := Incidents.Delivers(0, 0, 7, MAX_ATTEMPTS, MAX_PUBLISH_ATTEMPTS, 0);
    var second := Deliveries(0, steps);
    hide *;
    WaitingIsDelivered(Acts(start, first), steps);
    ThenActs(start, first, second);
    actions := first + second;
  }

  lemma WaitingIsDelivered(s: System, steps: seq<Protocol.Step>)
    requires Waiting(s)
    requires Protocol.Cells(Protocol.NewCell(0, 0, 7, MAX_ATTEMPTS, MAX_PUBLISH_ATTEMPTS, 0), steps).row.status.Delivered?
    ensures var s' := Acts(s, Deliveries(0, steps));
            && 0 < |s'.books.invoices| && s'.books.invoices[0].status.Void? && s'.books.invoices[0].sentAt.Some?
            && 0 in s'.events && s'.events[0].row.status.Delivered? && s'.events[0].accepts == 1
  {
    hide Acts, Confirms, Shared, Protocol.Cells;
    DeliveriesRun(s, 0, steps);
    VoidIsDeliveredIff(s, Deliveries(0, steps), 0);
  }
}
