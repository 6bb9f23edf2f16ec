/** Double entry: which journal entries balance, and by how little the others miss. */
module Balancing {
  import opened Money
  import opened Sums
  import opened Books
  import opened Commands
  import opened Postings
  import opened Rows
  import opened Steps
  import opened Lifecycle
  import Reconciliation

  // ---- Payments ----

  /** Separately rounded conversions drift from the exact total by at most half a quantum each. */
  lemma {:induction false} ConvertedError(items: seq<Item>, rate: nat)
    ensures 2 * Abs(Sum(Converted(items, rate)) * SCALE - ItemTotal(items) * rate) <= |items| * SCALE
  {
    hide ToBase;
    if items == [] {
      ZeroTimes(rate);
    } else {
      var n := |items| - 1;
      ConvertedError(items[..n], rate);
      ToBaseError(items[n].amount, rate);
      assert Converted(items, rate)[..n] == Converted(items[..n], rate);
      OneMoreError(Sum(Converted(items[..n], rate)), ItemTotal(items[..n]),
                   ToBase(items[n].amount, rate), items[n].amount, rate, n);
    }
  }

  lemma ZeroTimes(rate: nat)
    ensures 0 * rate == 0
  {}

  lemma OneMoreError(sum: int, total: nat, part: nat, amount: nat, rate: nat, n: nat)
    requires 2 * Abs(sum * SCALE - total * rate) <= n * SCALE
    requires 2 * Abs(part * SCALE - amount * rate) <= SCALE
    ensures 2 * Abs((sum + part) * SCALE - (total + amount) * rate) <= (n + 1) * SCALE
  {
    assert (total + amount) * rate == total * rate + amount * rate;
  }

  lemma {:induction false} FxIsPartsLessCarrying(b: Books, items: seq<Item>, parts: seq<int>)
    requires WithinBalances(b, items) && |parts| == |items|
    ensures FxGain(AllocationsFor(b, items, parts)) == Sum(parts) - Reconciliation.CarryingTotal(b, items)
  {
    hide CarryingPart;
    if items != [] {
      var n := |items| - 1;
      FxIsPartsLessCarrying(b, items[..n], parts[..n]);
      assert AllocationsFor(b, items, parts)[..n] == AllocationsFor(b, items[..n], parts[..n]);
    }
  }

  lemma PartsReachTarget(items: seq<Item>, rate: nat, target: int)
    requires items != []
    ensures Sum(BaseParts(items, rate, target)) == target
  {
    hide Sum, Converted;
    var others := Converted(items[..|items| - 1], rate);
    SumSnoc(others, target - Sum(others));
  }

  /** The last part takes every rounding residual and is still within (n + 1) / 2 quanta. */
  lemma ResidualBound(items: seq<Item>, rate: nat, amount: nat)
    requires items != [] && ItemTotal(items) <= amount
    ensures var over, n := amount - ItemTotal(items), |items|;
            var parts := BaseParts(items, rate, ToBase(amount, rate) - ToBase(over, rate));
            && 2 * Abs(parts[n - 1] * SCALE - items[n - 1].amount * rate) <= (n + 1) * SCALE
            && forall m :: 0 <= m < n - 1 ==> 2 * Abs(parts[m] * SCALE - items[m].amount * rate) <= SCALE
  {
    hide ToBase, Sum, Converted, BaseParts, ItemTotal, Abs;
    var n := |items|;
    var before, over := items[..n - 1], amount - ItemTotal(items);
    LastPart(items, rate, ToBase(amount, rate) - ToBase(over, rate));
    OthersError(items, rate, ToBase(amount, rate) - ToBase(over, rate));
    ToBaseError(amount, rate);
    ToBaseError(over, rate);
    ConvertedError(before, rate);
    SplitProduct(amount, ItemTotal(before), items[n - 1].amount, over, rate);
    LastResidual(ToBase(amount, rate), ToBase(over, rate), Sum(Converted(before, rate)),
                 ItemTotal(before) * rate, items[n - 1].amount * rate, over * rate, n);
  }

  lemma LastPart(items: seq<Item>, rate: nat, target: int)
    requires items != []
    ensures var n := |items| - 1;
            && BaseParts(items, rate, target)[n] == target - Sum(Converted(items[..n], rate))
            && ItemTotal(items) == ItemTotal(items[..n]) + items[n].amount
  {
    hide Sum, Converted;
  }

  lemma OthersError(items: seq<Item>, rate: nat, target: int)
    ensures forall m :: 0 <= m < |items| - 1 ==>
              2 * Abs(BaseParts(items, rate, target)[m] * SCALE - items[m].amount * rate) <= SCALE
  {
    hide Sum, ToBase;
    forall m | 0 <= m < |items| - 1
      ensures 2 * Abs(BaseParts(items, rate, target)[m] * SCALE - items[m].amount * rate) <= SCALE
    {
      ToBaseError(items[m].amount, rate);
      assert BaseParts(items, rate, target)[m] == ToBase(items[m].amount, rate);
    }
  }

  lemma LastResidual(cash: int, over: int, others: int, px: int, py: int, po: int, n: nat)
    requires n > 0
    requires 2 * Abs(cash * SCALE - (px + py + po)) <= SCALE
    requires 2 * Abs(over * SCALE - po) <= SCALE
    requires 2 * Abs(others * SCALE - px) <= (n - 1) * SCALE
    ensures 2 * Abs((cash - over - others) * SCALE - py) <= (n + 1) * SCALE
  {}

  lemma SplitProduct(total: int, x: int, y: int, z: int, rate: int)
    requires total == x + y + z
    ensures total * rate == x * rate + y * rate + z * rate
  {}

  /** A payment entry credits AR with its allocations, each of which clears something. */
  ghost predicate PaymentShape(e: Entry) {
    e.document.ForPayment? ==>
      && (forall n :: 0 <= n < |e.document.payment.allocations| ==> e.document.payment.allocations[n].Valid())
      && (forall k :: e.Ar(k) == -Cleared(e.document.payment.allocations, k))
  }

  /** What a payment entry is made of, in both currencies. */
  ghost predicate PaymentAddsUp(p: Payment) {
    && p.amount == Cleared(p.allocations, Transaction) + p.unallocated
    && p.baseAmount == Cleared(p.allocations, Base) + p.baseUnallocated + FxGain(p.allocations)
    && var n := |p.allocations|;
       && n > 0
       && 2 * Abs(p.allocations[n - 1].basePayment * SCALE - p.allocations[n - 1].amount * p.rate) <= (n + 1) * SCALE
       && forall m :: 0 <= m < n - 1 ==>
            2 * Abs(p.allocations[m].basePayment * SCALE - p.allocations[m].amount * p.rate) <= SCALE
  }

  /** Cash received is AR cleared plus customer credit; in base currency plus the realized FX
      result; and no allocation's share of the cash strays from its own conversion by more than
      the residual allows. */
  lemma PaymentConserves(b: Books, c: Command, b': Books) returns (p: Payment)
    requires c.Pay? && Step(b, c) == Ok(b')
    ensures b'.journal == b.journal + [Entry(ForPayment(p), PaymentLines(p))]
    ensures p.amount == c.amount && PaymentAddsUp(p)
    ensures forall k :: Entry(ForPayment(p), PaymentLines(p)).Imbalance(k) == 0
    ensures PaymentShape(Entry(ForPayment(p), PaymentLines(p)))
  {
    var rate, items := PaymentItems(b, c, b');
    hide Step, CarryingPart, PaymentLines, BaseParts, AllPostable, SettleAll, PaymentAddsUp, PaymentShape;
    p := PaymentFor(b, c, rate, items);
    PaymentFigures(b, c, rate, items);
    ZeroConverts(rate);
    hide ToBase;
    PaymentPosts(p);
  }

  lemma PaymentPosts(p: Payment)
    requires PaymentAddsUp(p) && forall n :: 0 <= n < |p.allocations| ==> p.allocations[n].Valid()
    requires p.unallocated == 0 ==> p.baseUnallocated == 0
    ensures forall k :: Entry(ForPayment(p), PaymentLines(p)).Imbalance(k) == 0
    ensures PaymentShape(Entry(ForPayment(p), PaymentLines(p)))
  {
    ClearedPositive(p.allocations);
    hide Cleared, FxGain, PaymentLines, LineSum;
    PaymentPosting(p, Transaction);
    PaymentPosting(p, Base);
  }

  lemma PaymentFigures(b: Books, c: Command, rate: nat, items: seq<Item>)
    requires c.Pay? && WithinBalances(b, items) && ItemTotal(items) <= c.amount && items != []
    ensures PaymentAddsUp(PaymentFor(b, c, rate, items))
  {
    hide CarryingPart, Sum, ToBase, BaseParts, Reconciliation.CarryingTotal, ItemTotal, Cleared, FxGain, Abs;
    var p := PaymentFor(b, c, rate, items);
    ResidualBound(items, rate, c.amount);
    var target := p.baseAmount - p.baseUnallocated;
    var parts := BaseParts(items, rate, target);
    PartsReachTarget(items, rate, target);
    FxIsPartsLessCarrying(b, items, parts);
    Reconciliation.ClearedIsCarryingTotal(b, items, parts);
  }

  // ---- Credit memos ----

  /** Debits of a memo are converted from its amount, its AR credit from the invoice's carrying
      value: they can miss each other by the drift plus one more rounding. */
  lemma MemoMiss(base: nat, balance: nat, rate: nat, amount: nat, converted: nat, reductions: nat)
    requires 0 < amount <= balance
    requires 2 * Abs(base * SCALE - balance * rate) <= (reductions + 2) * SCALE
    requires 2 * Abs(converted * SCALE - amount * rate) <= SCALE
    ensures var cleared := if amount == balance then base else Min(converted, base);
            2 * Abs(converted - cleared) <= reductions + 3
  {
    assert balance * rate - amount * rate == (balance - amount) * rate;
    Product(balance - amount, rate);
  }

  lemma MemoEntryMiss(j: seq<Entry>, i: nat, inv: Invoice, left: TaxSplit.Remaining, amount: nat, f: Figures, m: Memo)
    requires amount > 0 && FiguresOf(inv, left, amount, f)
    requires DriftBounded(j, i, inv) && Tally(j, Reductions(i)) >= 0
    requires inv.balance == 0 ==> inv.baseBalance == 0
    ensures var e := Entry(ForCreditMemo(m), MemoLines(f));
            && e.Imbalance(Transaction) == 0
            && (f.customerCredit > 0 || inv.rate == RATE_ONE ==> e.Imbalance(Base) == 0)
            && 2 * Abs(e.Imbalance(Base)) <= Tally(j, Reductions(i)) + 3
  {
    MemoPosting(m, f);
    ToBaseEvenError(amount, inv.rate);
    if inv.rate == RATE_ONE { UnitRate(amount); }
    hide ToBaseEven, LineSum, MemoLines, Tally;
    if f.customerCredit == 0 {
      MemoMiss(inv.baseBalance, inv.balance, inv.rate, amount, f.baseCredit, Tally(j, Reductions(i)));
    }
  }

  /** Exactly what a memo's entry misses by, and so exactly when it balances: with a customer-credit
      line always; paying off the balance, if the conversion of the amount is the carrying value;
      otherwise, if that conversion fits the carrying value. */
  lemma MemoBalancesIff(b: Books, c: Command, b': Books)
    requires Sound(b) && c.Credit? && Step(b, c) == Ok(b')
    ensures c.i < |b.invoices| && |b'.journal| == |b.journal| + 1
    ensures var inv, e := b.invoices[c.i], b'.journal[|b.journal|];
            var converted := ToBaseEven(c.amount, inv.rate);
            && e.Imbalance(Transaction) == 0
            && e.Imbalance(Base) == (if c.amount > inv.balance then 0
                                     else if c.amount == inv.balance then converted - inv.baseBalance
                                     else Max(converted - inv.baseBalance, 0))
            && (e.Imbalance(Base) == 0 <==>
                  || c.amount > inv.balance
                  || (c.amount == inv.balance && converted == inv.baseBalance)
                  || (c.amount < inv.balance && converted <= inv.baseBalance))
  {
    var f := CreditShape(b, c, b');
    BalanceZero(b, c.i);
    hide Step, Sound, ToBaseEven, MemoLines, LineSum, AllPostable, CreditApplied, RemainingOn;
    MemoPosting(Memo(c.i, c.amount, f.baseCredit), f);
  }

  lemma BalanceZero(b: Books, i: nat)
    requires Sound(b) && i < |b.invoices|
    ensures b.invoices[i].balance == 0 && !b.invoices[i].status.Draft? ==> b.invoices[i].baseBalance == 0
  {
    hide Tally, ToBase, Drift;
    assert RowAt(b, i);
  }

  // ---- The whole journal ----

  /** Transaction columns always balance.  Base columns balance too, except that a memo without
      a customer-credit line may miss by half a quantum per reduction of its invoice made `before`
      it, plus one and a half. */
  ghost predicate EntryOk(b: Books, before: seq<Entry>, e: Entry) {
    && e.Imbalance(Transaction) == 0
    && match e.document
       case ForCreditMemo(m) =>
         && m.invoice < |b.invoices| && !b.invoices[m.invoice].status.Draft?
         && 2 * Abs(e.Imbalance(Base)) <= Tally(before, Reductions(m.invoice)) + 3
         && (|| LineSum(e.lines, On(CustomerCredit), Net(Transaction)) != 0
             || b.invoices[m.invoice].rate == RATE_ONE
             ==> e.Imbalance(Base) == 0)
       case _ => e.Imbalance(Base) == 0
  }

  ghost predicate JournalOk(b: Books) {
    forall n :: 0 <= n < |b.journal| ==> EntryOk(b, b.journal[..n], b.journal[n])
  }

  lemma OldEntryStaysOk(b: Books, c: Command, b': Books, before: seq<Entry>, e: Entry)
    requires Step(b, c) == Ok(b') && EntryOk(b, before, e)
    ensures EntryOk(b', before, e)
  {
    hide Step, LineSum, Tally;
    if e.document.ForCreditMemo? { StepMoves(b, c, b', e.document.memo.invoice); }
  }

  lemma MemoLinesCredit(f: Figures)
    ensures LineSum(MemoLines(f), On(CustomerCredit), Net(Transaction)) != 0 ==> f.customerCredit > 0
  {
    hide LineSum;
    var a := Slot(true, Dr(Revenue, f.subtotalCredit, f.baseCredit - f.baseTaxCredit));
    var b := Slot(f.taxCredit > 0, Dr(TaxPayable, f.taxCredit, f.baseTaxCredit));
    var c := Slot(f.arCredit > 0, Cr(Receivable, f.arCredit, f.baseArCredit));
    var d := Slot(f.customerCredit > 0, Cr(CustomerCredit, f.customerCredit, f.BaseCustomerCredit()));
    assert MemoLines(f) == a.Lines() + b.Lines() + c.Lines() + d.Lines();
    FourParts(a, b, c, d, On(CustomerCredit), Net(Transaction));
  }

  lemma CreditEntryOk(b: Books, c: Command, b': Books)
    requires Sound(b) && c.Credit? && Step(b, c) == Ok(b')
    ensures exists e :: b'.journal == b.journal + [e] && EntryOk(b', b.journal, e)
  {
    hide ToBase, ToBaseEven, HalfEven, Tally, LineSum, Drift, MemoLines;
    assert RowAt(b, c.i);
    var inv, left := b.invoices[c.i], RemainingOn(b, c.i);
    AcceptedFigures(inv, left, c.amount, c.includeTax);
    var f := FiguresFor(inv, TaxSplit.SplitCredit(left, c.amount, c.includeTax), c.amount);
    assert FiguresOf(inv, left, c.amount, f);
    var m := Memo(c.i, c.amount, f.baseCredit);
    var e := Entry(ForCreditMemo(m), MemoLines(f));
    ReductionsCount(b.journal, c.i);
    MemoEntryMiss(b.journal, c.i, inv, left, c.amount, f, m);
    CreditTallies(b.journal, c.i, inv, left, c.amount, f, e);
    MemoLinesCredit(f);
    assert b'.journal == b.journal + [e];
  }

  lemma PlainEntryOk(b: Books, c: Command, b': Books)
    requires Sound(b) && !c.Credit? && Step(b, c) == Ok(b') && b'.journal != b.journal
    ensures exists e :: b'.journal == b.journal + [e] && EntryOk(b', b.journal, e)
  {
    if c.Pay? {
      hide Step;
      var p := PaymentConserves(b, c, b');
      assert EntryOk(b', b.journal, Entry(ForPayment(p), PaymentLines(p)));
    } else {
      var i, e := PlainEntry(b, c, b');
      hide Step, Sound, EntryOk, ApprovalEntry, VoidEntry, WriteOffEntry;
      PlainDocuments(b', b.journal, i, b.invoices[i]);
    }
  }

  /** The entry of any other handler is one of three documents of one priced invoice. */
  lemma PlainEntry(b: Books, c: Command, b': Books) returns (i: nat, e: Entry)
    requires Sound(b) && !c.Credit? && !c.Pay? && Step(b, c) == Ok(b') && b'.journal != b.journal
    ensures i < |b.invoices| && Postings.Priced(b.invoices[i]) && b'.journal == b.journal + [e]
    ensures e == ApprovalEntry(i, b.invoices[i]) || e == VoidEntry(i, b.invoices[i]) || e == WriteOffEntry(i, b.invoices[i])
  {
    hide ToBase, Tally, AllPostable, ApprovalEntry, VoidEntry, WriteOffEntry, RowOk;
    i, e := c.i, b'.journal[|b.journal|];
    PricedRow(b, i);
  }

  lemma PricedRow(b: Books, i: nat)
    requires Sound(b) && i < |b.invoices|
    ensures Postings.Priced(b.invoices[i])
  {
    hide Tally, Drift, ToBase;
    assert RowAt(b, i);
  }

  lemma PlainDocuments(b: Books, before: seq<Entry>, i: nat, inv: Invoice)
    requires Postings.Priced(inv)
    ensures EntryOk(b, before, ApprovalEntry(i, inv))
    ensures EntryOk(b, before, VoidEntry(i, inv)) && EntryOk(b, before, WriteOffEntry(i, inv))
  {
    hide ToBase, LineSum;
    ApprovalPosting(i, inv, Transaction);
    ApprovalPosting(i, inv, Base);
    VoidPosting(i, inv, Transaction);
    VoidPosting(i, inv, Base);
    WriteOffPosting(i, inv, Transaction);
    WriteOffPosting(i, inv, Base);
  }

  lemma StepKeepsJournal(b: Books, c: Command, b': Books)
    requires Sound(b) && JournalOk(b) && Step(b, c) == Ok(b')
    ensures JournalOk(b')
  {
    hide Step, Sound, EntryOk;
    if c.Credit? { CreditEntryOk(b, c, b'); }
    else if b'.journal != b.journal { PlainEntryOk(b, c, b'); }
    assert b.journal <= b'.journal;
    forall n | 0 <= n < |b.journal| ensures EntryOk(b', b'.journal[..n], b'.journal[n]) {
      assert b'.journal[..n] == b.journal[..n] && b'.journal[n] == b.journal[n];
      OldEntryStaysOk(b, c, b', b.journal[..n], b.journal[n]);
    }
    if b'.journal != b.journal { assert b'.journal[..|b.journal|] == b.journal; }
  }

  /** Every entry of every run. */
  lemma {:induction false} RunsBalance(start: Books, commands: seq<Command>)
    requires Sound(start) && JournalOk(start)
    ensures JournalOk(Run(start, commands))
  {
    hide Sound, Step, JournalOk;
    if commands != [] {
      var earlier, c := commands[..|commands| - 1], commands[|commands| - 1];
      var before := Run(start, earlier);
      RunsBalance(start, earlier);
      RunKeeps(start, earlier);
      var r := Step(before, c);
      if r.Ok? { StepKeepsJournal(before, c, r.value); }
    }
  }

  // ---- The INVOICE entries ----

  /** Every INVOICE entry is, line by line, what its invoice's row still says. */
  ghost predicate PostedAsHeld(b: Books) {
    forall n :: 0 <= n < |b.journal| && b.journal[n].document.ForInvoice? ==>
      var i := b.journal[n].document.invoice;
      && i < |b.invoices| && !b.invoices[i].status.Draft?
      && b.journal[n] == ApprovalEntry(i, b.invoices[i])
  }

  lemma SameApproval(i: nat, inv: Invoice, inv': Invoice)
    requires SameTerms(inv, inv')
    ensures ApprovalEntry(i, inv') == ApprovalEntry(i, inv)
  {}

  lemma StepKeepsPosted(b: Books, c: Command, b': Books)
    requires Sound(b) && PostedAsHeld(b) && Step(b, c) == Ok(b')
    ensures PostedAsHeld(b')
  {
    hide Step, Sound, ApprovalEntry;
    NewInvoiceEntry(b, c, b');
    forall n | 0 <= n < |b.journal| && b.journal[n].document.ForInvoice?
      ensures var i := b.journal[n].document.invoice;
              && i < |b'.invoices| && !b'.invoices[i].status.Draft?
              && b'.journal[n] == ApprovalEntry(i, b'.invoices[i])
    {
      var i := b.journal[n].document.invoice;
      StepMoves(b, c, b', i);
      SameApproval(i, b.invoices[i], b'.invoices[i]);
    }
  }

  lemma NewInvoiceEntry(b: Books, c: Command, b': Books)
    requires Sound(b) && Step(b, c) == Ok(b')
    ensures b.journal <= b'.journal && |b'.journal| <= |b.journal| + 1
    ensures |b'.journal| > |b.journal| && b'.journal[|b.journal|].document.ForInvoice? ==>
              var i := b'.journal[|b.journal|].document.invoice;
              && i < |b'.invoices| && !b'.invoices[i].status.Draft?
              && b'.journal[|b.journal|] == ApprovalEntry(i, b'.invoices[i])
  {
    if c.Approve? {
      ApproveShape(b, c, b');
      SameApproval(c.i, b.invoices[c.i], b'.invoices[c.i]);
      assert ApprovalEntry(c.i, b.invoices[c.i]).document == ForInvoice(c.i);
      hide Step, ApprovalEntry;
    } else {
      hide Sound, ToBase, ToBaseEven, Tally, AllPostable, PaymentLines, MemoLines, TaxSplit.SplitCredit, SettleAll,
        CheckItems, AutoItems, RemainingOn, ApprovalEntry;
    }
  }

  /** So whatever a run does, an invoice's revenue, tax and AR lines keep agreeing with its row. */
  lemma {:induction false} RunsKeepPosted(start: Books, commands: seq<Command>)
    requires Sound(start) && PostedAsHeld(start)
    ensures PostedAsHeld(Run(start, commands))
  {
    hide Sound, Step, PostedAsHeld;
    if commands != [] {
      var earlier, c := commands[..|commands| - 1], commands[|commands| - 1];
      var before := Run(start, earlier);
      RunsKeepPosted(start, earlier);
      RunKeeps(start, earlier);
      var r := Step(before, c);
      if r.Ok? { StepKeepsPosted(before, c, r.value); }
    }
  }
}
