/** The two machines together: ledger commands and delivery steps interleave on the invoice row. */
module SharedRow {
  import opened Money
  import opened Books
  import opened Commands
  import opened Rows
  import opened Steps
  import opened Lifecycle
  import opened Interleaving
  import Outbox
  import Protocol

  const MAX_ATTEMPTS := 3
  const MAX_PUBLISH_ATTEMPTS := 10

  /** The books, and the delivery machine of every outbox event, by invoice. */
  datatype System = System(books: Books, events: map<nat, Protocol.Cell>)

  datatype Action =
    | Ledger(command: Command, payload: nat, now: nat)  // an approval writes `payload` into its event
    | Delivery(i: nat, step: Protocol.Step)

  function NewEvents(b: Books, events: map<nat, Protocol.Cell>, payload: nat, now: nat): map<nat, Protocol.Cell> {
    map i | i in (set n | n in b.outbox) + events.Keys ::
      if i in events then events[i]
      else Protocol.NewCell(i, i, payload, MAX_ATTEMPTS, MAX_PUBLISH_ATTEMPTS, now)
  }

  function Act(s: System, a: Action): System {
    match a
    case Ledger(c, payload, now) =>
      if c.Deliver? then s  // only a consumer's mark delivers
      else
        var b := After(Step(s.books, c), s.books);
        System(b, NewEvents(b, s.events, payload, now))
    case Delivery(i, step) =>
      if i !in s.events then s
      else
        var before, after := s.events[i], Protocol.Next(s.events[i], step);
        // mark_delivered updates the invoice in the same transaction, if it matched the event
        System(if after.row.status.Delivered? && !before.row.status.Delivered?
               then After(Step(s.books, Deliver(i, before.now)), s.books) else s.books,
               s.events[i := after])
  }

  function Acts(s: System, actions: seq<Action>): System {
    if actions == [] then s else Act(Acts(s, actions[..|actions| - 1]), actions[|actions| - 1])
  }

  ghost predicate EventMatches(b: Books, i: nat, c: Protocol.Cell) {
    && i < |b.invoices| && Protocol.Safe(c)
    && (c.row.status.Delivered? <==> b.invoices[i].sentAt.Some?)
  }

  ghost predicate Shared(s: System) {
    && Sound(s.books)
    && (forall i: nat :: i in s.events <==> i in s.books.outbox)
    && (forall i: nat :: i in s.events ==> EventMatches(s.books, i, s.events[i]))
    && (forall i: nat :: i < |s.books.invoices| && i !in s.events ==> s.books.invoices[i].sentAt.None?)
  }

  lemma OutboxGrows(b: Books, c: Command, b': Books, i: nat)
    requires Sound(b) && !c.Deliver? && Step(b, c) == Ok(b')
    ensures i in b.outbox ==> i in b'.outbox
    ensures i in b'.outbox && i !in b.outbox ==> c.Approve? && c.i == i < |b.invoices|
    ensures |b.invoices| <= i < |b'.invoices| ==> b'.invoices[i].sentAt.None?
  {
    hide ToBase, ToBaseEven, AllPostable, ApprovalEntry, VoidEntry, WriteOffEntry, PaymentLines,
      MemoLines, TaxSplit.SplitCredit, Tally, RowOk, CheckItems, AutoItems, SettleAll;
  }

  /** One invoice, across a ledger command. */
  lemma LedgerKeepsEvent(s: System, c: Command, b': Books, payload: nat, now: nat, i: nat)
    requires Shared(s) && !c.Deliver? && Step(s.books, c) == Ok(b')
    ensures var events := NewEvents(b', s.events, payload, now);
            && (i in events <==> i in b'.outbox)
            && (i in events ==> EventMatches(b', i, events[i]))
            && (i < |b'.invoices| && i !in events ==> b'.invoices[i].sentAt.None?)
  {
    hide Step, Sound, Protocol.Safe;
    OutboxGrows(s.books, c, b', i);
    Protocol.NewIsSafe(i, i, payload, MAX_ATTEMPTS, MAX_PUBLISH_ATTEMPTS, now);
    if i < |s.books.invoices| { OnlyDeliveryMarksSent(s.books, c, b', i); }
    NewEventsAt(b', s.events, payload, now, i);
    hide NewEvents;
  }

  lemma NewEventsAt(b: Books, events: map<nat, Protocol.Cell>, payload: nat, now: nat, i: nat)
    ensures var more := NewEvents(b, events, payload, now);
            && (i in more <==> i in b.outbox || i in events)
            && (i in more ==> more[i] == if i in events then events[i]
                                         else Protocol.NewCell(i, i, payload, MAX_ATTEMPTS, MAX_PUBLISH_ATTEMPTS, now))
  {}

  lemma LedgerKeepsShared(s: System, c: Command, b': Books, payload: nat, now: nat)
    requires Shared(s) && !c.Deliver? && Step(s.books, c) == Ok(b')
    ensures Shared(System(b', NewEvents(b', s.events, payload, now)))
  {
    assert Sound(s.books);
    StepKeeps(s.books, c, b');
    forall i: nat { LedgerKeepsEvent(s, c, b', payload, now, i); }
    hide Step, Sound, NewEvents, EventMatches;
  }

  /** mark_delivered on an event the books know. */
  lemma DeliveryMarks(b: Books, i: nat, now: nat)
    requires Sound(b) && i in b.outbox && i < |b.invoices| && b.invoices[i].sentAt.None?
    ensures var r := Step(b, Deliver(i, now));
            && r.Ok? && Sound(r.value) && r.value.outbox == b.outbox && |r.value.invoices| == |b.invoices|
            && r.value.invoices[i].sentAt.Some?
            && forall n :: 0 <= n < |b.invoices| && n != i ==> r.value.invoices[n] == b.invoices[n]
  {
    StepKeeps(b, Deliver(i, now), Step(b, Deliver(i, now)).value);
    hide Sound;
  }

  /** One event, one step: it becomes DELIVERED at most, and stays safe. */
  lemma StepOfEvent(b: Books, i: nat, before: Protocol.Cell, step: Protocol.Step)
    requires EventMatches(b, i, before)
    ensures var after := Protocol.Next(before, step);
            && Protocol.Safe(after)
            && (before.row.status.Delivered? ==> after.row.status.Delivered?)
  {
    Protocol.NextIsSafe(before, step);
    Protocol.NextIsOnward(before, step);
    hide Protocol.Next, Protocol.Safe;
  }

  lemma DeliveryKeepsShared(s: System, i: nat, step: Protocol.Step)
    requires Shared(s)
    ensures Shared(Act(s, Delivery(i, step)))
  {
    hide Protocol.Safe, Protocol.Next, Step, Sound;
    if i in s.events {
      var before, after := s.events[i], Protocol.Next(s.events[i], step);
      assert EventMatches(s.books, i, before);
      StepOfEvent(s.books, i, before, step);
      if after.row.status.Delivered? && !before.row.status.Delivered? {
        DeliveryMarks(s.books, i, before.now);
      }
    }
  }

  lemma {:induction false} RunsShare(s: System, actions: seq<Action>)
    requires Shared(s)
    ensures Shared(Acts(s, actions))
  {
    hide Shared, Step, NewEvents;
    if actions != [] {
      var before, a := Acts(s, actions[..|actions| - 1]), actions[|actions| - 1];
      RunsShare(s, actions[..|actions| - 1]);
      match a
      case Delivery(i, step) => DeliveryKeepsShared(before, i, step);
      case Ledger(c, payload, now) =>
        if !c.Deliver? {
          if Step(before.books, c).Ok? { LedgerKeepsShared(before, c, Step(before.books, c).value, payload, now); }
          else { NothingNew(before, payload, now); }
        }
    }
  }

  lemma NothingNew(s: System, payload: nat, now: nat)
    requires Shared(s)
    ensures System(s.books, NewEvents(s.books, s.events, payload, now)) == s
  {
    hide Sound, EventMatches;
    assert NewEvents(s.books, s.events, payload, now) == s.events;
  }

  /** In every state the two machines can reach together: an event is DELIVERED exactly when its
      invoice carries a sent_at; a delivered invoice is neither DRAFT nor APPROVED, a SENT one is
      delivered, and every posted invoice has one event and no other invoice has any. */
  lemma MachinesAgree(baseCurrency: string, customers: map<nat, Customer>, actions: seq<Action>, i: nat)
    ensures var s := Acts(System(Empty(baseCurrency, customers), map[]), actions);
            && (i in s.events <==> Tally(s.books.journal, Approvals(i)) == 1)
            && (i in s.events ==> i < |s.books.invoices|)
            && (i < |s.books.invoices| ==>
                  var inv := s.books.invoices[i];
                  && (inv.sentAt.Some? <==> i in s.events && s.events[i].row.status.Delivered?)
                  && (i in s.events && s.events[i].row.status.Delivered? ==>
                        && !inv.status.Draft? && !inv.status.Approved? && s.events[i].accepts == 1)
                  && (inv.status.Sent? ==> i in s.events && s.events[i].row.status.Delivered?))
  {
    var start := System(Empty(baseCurrency, customers), map[]);
    EmptyIsSound(baseCurrency, customers);
    RunsShare(start, actions);
    hide Acts, Tally, ToBase, Drift, Conserved, Untouched, Voided;
    var s := Acts(start, actions);
    assert RowAt(s.books, i);
  }

  /** A delivery step moves no money: no journal entry, no balance, no other row. */
  lemma DeliveryIsFree(s: System, i: nat, step: Protocol.Step)
    requires Shared(s)
    ensures var s' := Act(s, Delivery(i, step));
            && s'.books.journal == s.books.journal && s'.books.outbox == s.books.outbox
            && |s'.books.invoices| == |s.books.invoices|
            && forall n :: 0 <= n < |s.books.invoices| ==>
                 && s'.books.invoices[n].balance == s.books.invoices[n].balance
                 && s'.books.invoices[n].baseBalance == s.books.invoices[n].baseBalance
                 && Lifecycle.MayBecome(s.books.invoices[n].status, s'.books.invoices[n].status)
                 && (n != i ==> s'.books.invoices[n] == s.books.invoices[n])
  {
    hide Protocol.Next, Sound;
    var s' := Act(s, Delivery(i, step));
    if s'.books != s.books {
      var c := Deliver(i, s.events[i].now);
      hide Step;
      DeliveryMovesNoMoney(s.books, c, s'.books);
      forall n: nat | n < |s.books.invoices| { StepMoves(s.books, c, s'.books, n); }
    }
  }
}
