/** How an invoice row may move, whatever the command. */
module Lifecycle {
  import opened Money
  import opened Books
  import opened Commands
  import opened Steps

  /** DRAFT -> APPROVED -> SENT -> PARTIALLY_PAID -> PAID, with VOID and WRITTEN_OFF on the side;
      PAID, VOID and WRITTEN_OFF are final. */
  predicate MayBecome(s: Status, s': Status) {
    s == s' ||
    match s
    case Draft => s'.Approved? || s'.Void?
    case Approved => !s'.Draft?
    case Sent => !s'.Draft? && !s'.Approved?
    case PartiallyPaid => s'.Paid? || s'.WrittenOff?
    case Paid => false
    case Void => false
    case WrittenOff => false
  }

  /** Everything a document fixes when it leaves DRAFT. */
  predicate SameTerms(inv: Invoice, inv': Invoice) {
    && inv'.currency == inv.currency && inv'.rate == inv.rate && inv'.dueDate == inv.dueDate
    && inv'.subtotal == inv.subtotal && inv'.tax == inv.tax && inv'.total == inv.total
    && inv'.baseSubtotal == inv.baseSubtotal && inv'.baseTax == inv.baseTax && inv'.baseTotal == inv.baseTotal
  }

  /** A posted invoice keeps its terms, and its balances only fall. */
  predicate Ordered(inv: Invoice, inv': Invoice) {
    && inv'.creator == inv.creator && inv'.customer == inv.customer
    && (inv' == inv || inv'.version > inv.version)
    && (inv.sentAt.Some? ==> inv'.sentAt == inv.sentAt)
    && (!inv.status.Draft? ==>
          && !inv'.status.Draft? && SameTerms(inv, inv')
          && inv'.balance <= inv.balance && inv'.baseBalance <= inv.baseBalance)
  }

  predicate Moves(inv: Invoice, inv': Invoice) {
    MayBecome(inv.status, inv'.status) && Ordered(inv, inv')
  }

  /** The statuses reachable from `s` in any number of moves. */
  predicate MayReach(s: Status, s': Status) { s.Draft? || MayBecome(s, s') }

  lemma SettledMoves(inv: Invoice, amount: nat)
    requires inv.Open() && 0 < amount <= inv.balance
    ensures Moves(inv, Settled(inv, amount)) && Settled(inv, amount).baseBalance <= inv.baseBalance
  {
    hide ToBase;
  }

  lemma PayMoves(b: Books, c: Command, b': Books, i: nat)
    requires c.Pay? && Step(b, c) == Ok(b') && i < |b.invoices|
    ensures Moves(b.invoices[i], b'.invoices[i]) && b'.invoices[i].baseBalance <= b.invoices[i].baseBalance
  {
    hide Step, CarryingPart, PaymentLines, BaseParts, Settled, Moves;
    var rate, items := PaymentItems(b, c, b');
    if n :| 0 <= n < |items| && items[n].invoice == i {
      SettledAt(b, items, n);
      SettledMoves(b.invoices[i], items[n].amount);
    } else {
      SettledElsewhere(b, items, i);
      assert Moves(b.invoices[i], b.invoices[i]) by { Unmoved(b.invoices[i]); }
    }
  }

  lemma Unmoved(inv: Invoice)
    ensures Moves(inv, inv)
  {}

  /** One step never reopens a closed invoice, never edits the terms of a posted one, never
      takes a balance back up, and bumps the version of every row it changes. */
  lemma StepMoves(b: Books, c: Command, b': Books, i: nat)
    requires Step(b, c) == Ok(b') && i < |b.invoices|
    ensures |b.invoices| <= |b'.invoices| && Moves(b.invoices[i], b'.invoices[i])
    ensures !c.Patch? ==> b'.invoices[i].baseBalance <= b.invoices[i].baseBalance
  {
    hide ToBase, ToBaseEven, AllPostable, ApprovalEntry, VoidEntry, WriteOffEntry, MemoLines, TaxSplit.SplitCredit, Tally;
    if c.Pay? { PayMoves(b, c, b', i); }
  }

  /** ... and so for whole runs: what is closed stays closed. */
  lemma {:induction false} RunMoves(start: Books, commands: seq<Command>, i: nat)
    requires i < |start.invoices|
    ensures |start.invoices| <= |Run(start, commands).invoices|
    ensures var inv, inv' := start.invoices[i], Run(start, commands).invoices[i];
            MayReach(inv.status, inv'.status) && Ordered(inv, inv')
  {
    hide Step;
    if commands != [] {
      var earlier, c := commands[..|commands| - 1], commands[|commands| - 1];
      var before := Run(start, earlier);
      RunMoves(start, earlier, i);
      var r := Step(before, c);
      if r.Ok? { StepMoves(before, c, r.value, i); }
    }
  }

  // ---- Which commands move the delivery half of a row ----

  /** Only mark_delivered writes sent_at, and only it makes an invoice SENT. */
  lemma OnlyDeliveryMarksSent(b: Books, c: Command, b': Books, i: nat)
    requires Step(b, c) == Ok(b') && i < |b.invoices|
    requires !(c.Deliver? && c.i == i)
    ensures |b.invoices| <= |b'.invoices| && b'.invoices[i].sentAt == b.invoices[i].sentAt
    ensures b'.invoices[i].status.Sent? ==> b.invoices[i].status.Sent?
  {
    match c
    case Pay(_, _, _, _, _) => PayMarksNothingSent(b, c, b', i);
    case Create(_, _, _, _, _, _, _) => hide ToBase;
    case Credit(_, _, _, _) => CreditMarksNothingSent(b, c, b', i);
    case Deliver(_, _) =>
    case _ => ClaimMarksNothingSent(b, c, b', i);
  }

  lemma PayMarksNothingSent(b: Books, c: Command, b': Books, i: nat)
    requires c.Pay? && Step(b, c) == Ok(b') && i < |b.invoices|
    ensures |b'.invoices| == |b.invoices| && b'.invoices[i].sentAt == b.invoices[i].sentAt
    ensures b'.invoices[i].status.Sent? ==> b.invoices[i].status.Sent?
  {
    hide Step, CarryingPart, PaymentLines, BaseParts;
    var rate, items := PaymentItems(b, c, b');
    if n :| 0 <= n < |items| && items[n].invoice == i {
      SettledAt(b, items, n);
    } else {
      SettledElsewhere(b, items, i);
    }
  }

  lemma CreditMarksNothingSent(b: Books, c: Command, b': Books, i: nat)
    requires c.Credit? && Step(b, c) == Ok(b') && i < |b.invoices|
    ensures |b'.invoices| == |b.invoices| && b'.invoices[i].sentAt == b.invoices[i].sentAt
    ensures b'.invoices[i].status.Sent? ==> b.invoices[i].status.Sent?
  {
    hide ToBaseEven, AllPostable, MemoLines, TaxSplit.SplitCredit, Tally;
  }

  lemma ClaimMarksNothingSent(b: Books, c: Command, b': Books, i: nat)
    requires ReadsFirst(c) && Step(b, c) == Ok(b') && i < |b.invoices|
    ensures |b'.invoices| == |b.invoices| && b'.invoices[i].sentAt == b.invoices[i].sentAt
    ensures b'.invoices[i].status.Sent? ==> b.invoices[i].status.Sent?
  {
    hide ToBase, AllPostable, ApprovalEntry, VoidEntry, WriteOffEntry, SubtotalOf, TaxOf;
  }

  /** mark_delivered changes no balance, no journal and no other row. */
  lemma DeliveryMovesNoMoney(b: Books, c: Command, b': Books)
    requires c.Deliver? && Step(b, c) == Ok(b')
    ensures b'.journal == b.journal && b'.outbox == b.outbox && |b'.invoices| == |b.invoices|
    ensures forall i :: 0 <= i < |b.invoices| ==>
              && b'.invoices[i].balance == b.invoices[i].balance
              && b'.invoices[i].baseBalance == b.invoices[i].baseBalance
              && SameTerms(b.invoices[i], b'.invoices[i])
              && (i != c.i ==> b'.invoices[i] == b.invoices[i])
  {}
}
