/** What holds of every invoice and entry of every run, and concrete runs for what does not. */
module Findings {
  import opened Money
  import opened Sums
  import opened Books
  import opened Commands
  import opened Postings
  import opened Rows
  import opened Steps
  import opened Reconciliation
  import opened Balancing
  import opened Reporting
  import CreditLimit
  import Effects
  import Fifo
  import Lifecycle
  import TaxSplit

  /** Every posted invoice of every run that was not voided: both columns are explained by its
      documents, the base balance follows the balance at the locked rate to within (k + 2) / 2
      quanta after k reductions, and the two reach zero together on payment in full. */
  lemma EveryInvoiceAccounted(baseCurrency: string, customers: map<nat, Customer>, commands: seq<Command>, i: nat)
    requires var b := Run(Empty(baseCurrency, customers), commands);
             i < |b.invoices| && !b.invoices[i].status.Draft? && !b.invoices[i].status.Void?
    ensures var b := Run(Empty(baseCurrency, customers), commands);
            var inv := b.invoices[i];
            && Conserved(b.journal, i, inv, Transaction) && Conserved(b.journal, i, inv, Base)
            && Drift(inv) <= (Tally(b.journal, Reductions(i)) + 2) * SCALE
            && (inv.balance == 0 ==> inv.baseBalance == 0)
            && (inv.balance == 0 <==> inv.status.Paid? || inv.status.WrittenOff?)
  {
    EmptyIsSound(baseCurrency, customers);
    RunKeeps(Empty(baseCurrency, customers), commands);
    hide Run, Tally, ToBase, Drift;
    assert RowAt(Run(Empty(baseCurrency, customers), commands), i);
  }

  /** The `max(..., 0)` guards on what is still creditable never bind: the journal's reversals of
      an invoice are exactly its memo amounts and never exceed its subtotal or its tax. */
  lemma CreditableIsExact(baseCurrency: string, customers: map<nat, Customer>, commands: seq<Command>, i: nat)
    requires i < |Run(Empty(baseCurrency, customers), commands).invoices|
    ensures var b := Run(Empty(baseCurrency, customers), commands);
            var left, inv := RemainingOn(b, i), b.invoices[i];
            && left.subtotal == inv.subtotal - Tally(b.journal, Reversed(i, Revenue))
            && left.tax == inv.tax - Tally(b.journal, Reversed(i, TaxPayable))
            && left.Creditable() == inv.total - Tally(b.journal, MemoTotal(i))
  {
    EmptyIsSound(baseCurrency, customers);
    RunKeeps(Empty(baseCurrency, customers), commands);
    hide Run, Tally, Sound;
    NeverBinds(Run(Empty(baseCurrency, customers), commands), i);
  }

  /** The `balanced` flag of GET /journal-entries. */
  predicate FlaggedBalanced(e: Entry) {
    Abs(e.Imbalance(Transaction)) < TOLERANCE && Abs(e.Imbalance(Base)) < TOLERANCE
  }

  /** No entry of an invoice with fewer than 197 reductions before it is ever reported unbalanced. */
  lemma EntriesFlaggedBalanced(baseCurrency: string, customers: map<nat, Customer>, commands: seq<Command>, n: nat)
    requires n < |Run(Empty(baseCurrency, customers), commands).journal|
    requires var b := Run(Empty(baseCurrency, customers), commands);
             b.journal[n].document.ForCreditMemo? ==>
               Tally(b.journal[..n], Reductions(b.journal[n].document.memo.invoice)) < 197
    ensures FlaggedBalanced(Run(Empty(baseCurrency, customers), commands).journal[n])
  {
    EmptyIsSound(baseCurrency, customers);
    RunsBalance(Empty(baseCurrency, customers), commands);
    hide Run, Tally, LineSum;
    var b := Run(Empty(baseCurrency, customers), commands);
    assert EntryOk(b, b.journal[..n], b.journal[n]);
  }

  // ---- Who may do what, exactly ----

  /** An invoice can be approved exactly by someone other than its creator, at the version they saw,
      while it is a draft whose revenue, and tax if any, do not round to zero in base currency. */
  lemma ApprovePossibleIff(b: Books, i: nat, ifMatch: nat, user: nat)
    requires Sound(b) && i < |b.invoices|
    ensures var inv := b.invoices[i];
            Step(b, Approve(i, ifMatch, user)).Ok? <==>
              && inv.status.Draft? && inv.version == ifMatch && inv.creator != user
              && inv.baseSubtotal > 0 && (inv.tax > 0 ==> inv.baseTax > 0)
  {
    assert RowAt(b, i);
    PostableApprovalIff(i, b.invoices[i]);
    hide Tally, ToBase, Drift, AllPostable, ApprovalEntry;
  }

  lemma PostableApprovalIff(i: nat, inv: Invoice)
    requires inv.baseTotal == inv.baseSubtotal + inv.baseTax
    ensures AllPostable(ApprovalEntry(i, inv).lines) <==> inv.baseSubtotal > 0 && (inv.tax > 0 ==> inv.baseTax > 0)
  {
    var lines := ApprovalEntry(i, inv).lines;
    assert lines[1] == Cr(Revenue, inv.subtotal, inv.baseSubtotal);
    assert lines[1].Postable() <==> inv.baseSubtotal > 0;
    if inv.tax > 0 {
      assert lines[2] == Cr(TaxPayable, inv.tax, inv.baseTax);
      assert lines[2].Postable() <==> inv.baseTax > 0;
    }
  }

  /** A draft can be rejected exactly by someone other than its creator, at the version they saw. */
  lemma RejectPossibleIff(b: Books, i: nat, ifMatch: nat, user: nat)
    requires i < |b.invoices|
    ensures var inv := b.invoices[i];
            Step(b, Reject(i, ifMatch, user)).Ok? <==>
              inv.status.Draft? && inv.version == ifMatch && inv.creator != user
  {}

  /** An invoice in any books can be voided exactly while it is a draft, or approved or sent with a reversal
      that can be posted. */
  lemma VoidPostableIff(b: Books, i: nat)
    requires i < |b.invoices| && Sound(b)
    ensures var inv := b.invoices[i];
            Step(b, VoidInvoice(i)).Ok? <==>
              || inv.status.Draft?
              || ((inv.status.Approved? || inv.status.Sent?) && inv.baseSubtotal > 0 && (inv.tax > 0 ==> inv.baseTax > 0))
  {
    assert RowAt(b, i);
    PostableVoidIff(i, b.invoices[i]);
    hide Tally, ToBase, Drift, AllPostable, VoidEntry;
  }

  /** What was posted was postable: no base amount of it is zero unless the amount is. */
  ghost predicate Worthy(b: Books) {
    forall i :: 0 <= i < |b.invoices| && !b.invoices[i].status.Draft? && !b.invoices[i].status.Void? ==>
      b.invoices[i].baseSubtotal > 0 && (b.invoices[i].tax > 0 ==> b.invoices[i].baseTax > 0)
  }

  lemma OnlyApprovalPosts(b: Books, c: Command, b': Books, i: nat)
    requires Sound(b) && Step(b, c) == Ok(b') && i < |b.invoices| && b.invoices[i].status.Draft?
    ensures i < |b'.invoices|
    ensures !b'.invoices[i].status.Draft? && !b'.invoices[i].status.Void? ==> c.Approve? && c.i == i
  {
    if c.Pay? {
      Effects.PayCuts(b, c, b', i);
    } else if c.Deliver? && c.i == i {
      Effects.DeliverWrites(b, c, b');
    } else if c.Credit? {
      var left, tax, base, baseTax, baseAr := Effects.CreditWrites(b, c, b');
      hide Step;
    } else {
      hide ToBase, AllPostable, ApprovalEntry, VoidEntry, WriteOffEntry;
    }
  }

  lemma StepKeepsWorthy(b: Books, c: Command, b': Books)
    requires Sound(b) && Worthy(b) && Step(b, c) == Ok(b')
    ensures Worthy(b')
  {
    hide Step, Sound;
    SameOrMore(b, c, b');
    forall i: nat | i < |b.invoices| && !b'.invoices[i].status.Draft? && !b'.invoices[i].status.Void?
      ensures b'.invoices[i].baseSubtotal > 0 && (b'.invoices[i].tax > 0 ==> b'.invoices[i].baseTax > 0)
    {
      Lifecycle.StepMoves(b, c, b', i);
      if b.invoices[i].status.Draft? {
        OnlyApprovalPosts(b, c, b', i);
        ApprovePossibleIff(b, i, c.ifMatch, c.user);
        Effects.ApproveWrites(b, c, b');
      }
    }
  }

  lemma SameOrMore(b: Books, c: Command, b': Books)
    requires Step(b, c) == Ok(b')
    ensures |b.invoices| <= |b'.invoices|
    ensures forall i :: |b.invoices| <= i < |b'.invoices| ==> b'.invoices[i].status.Draft?
  {
    hide ToBase, AllPostable, PaymentLines, Tally, CheckItems, AutoItems, TaxSplit.SplitCredit;
  }

  lemma {:induction false} RunsKeepWorthy(start: Books, commands: seq<Command>)
    requires Sound(start) && Worthy(start)
    ensures Worthy(Run(start, commands))
  {
    hide Sound, Step, Worthy;
    if commands != [] {
      var earlier, c := commands[..|commands| - 1], commands[|commands| - 1];
      var before := Run(start, earlier);
      RunsKeepWorthy(start, earlier);
      RunKeeps(start, earlier);
      if Step(before, c).Ok? { StepKeepsWorthy(before, c, Step(before, c).value); }
    }
  }

  /** So in every reachable state an invoice can be voided exactly while it is a draft, approved or sent:
      its approval was posted, hence its reversal can be. */
  lemma VoidPossibleIff(baseCurrency: string, customers: map<nat, Customer>, commands: seq<Command>, i: nat)
    requires i < |Run(Empty(baseCurrency, customers), commands).invoices|
    ensures var b := Run(Empty(baseCurrency, customers), commands);
            var inv := b.invoices[i];
            Step(b, VoidInvoice(i)).Ok? <==> inv.status.Draft? || inv.status.Approved? || inv.status.Sent?
  {
    EmptyIsSound(baseCurrency, customers);
    RunKeeps(Empty(baseCurrency, customers), commands);
    RunsKeepWorthy(Empty(baseCurrency, customers), commands);
    hide Run, Step, Sound;
    VoidPostableIff(Run(Empty(baseCurrency, customers), commands), i);
  }

  lemma PostableVoidIff(i: nat, inv: Invoice)
    requires inv.baseTotal == inv.baseSubtotal + inv.baseTax
    ensures AllPostable(VoidEntry(i, inv).lines) <==> inv.baseSubtotal > 0 && (inv.tax > 0 ==> inv.baseTax > 0)
  {
    var revenue, ar := Dr(Revenue, inv.subtotal, inv.baseSubtotal), Cr(Receivable, inv.total, inv.baseTotal);
    var tax := Dr(TaxPayable, inv.tax, inv.baseTax);
    PostableOnly(true, revenue);
    PostableOnly(inv.tax > 0, tax);
    PostableOnly(true, ar);
    PostableOnly(false, ar);
    PostableParts([revenue], Only(inv.tax > 0, tax));
    PostableParts([revenue] + Only(inv.tax > 0, tax), [ar]);
    PostableParts([revenue] + Only(inv.tax > 0, tax) + [ar], []);
    hide AllPostable;
    assert VoidEntry(i, inv).lines == [revenue] + Only(inv.tax > 0, tax) + [ar] + [];
  }

  /** A create is accepted exactly with some lines, for an active customer, at a known rate, and if what it
      writes fits the limit with the exposure it was shown. */
  lemma CreatePossibleIff(b: Books, c: Command)
    requires c.Create?
    ensures Step(b, c).Ok? <==>
              && c.items != [] && c.customer in b.customers && b.customers[c.customer].active
              && (c.currency == b.baseCurrency || (c.quote.Some? && c.quote.value > 0))
              && (b.customers[c.customer].creditLimit == 0
                  || c.outstanding + CreditLimit.DraftTotal(b, c) <= b.customers[c.customer].creditLimit)
  {
    hide ToBase, SubtotalOf, TaxOf;
  }

  /** A patch is accepted exactly on a draft, at the version seen, with no empty list of lines, at a known
      rate, and if what it writes fits the limit. */
  lemma PatchPossibleIff(b: Books, c: Command)
    requires c.Patch? && c.i < |b.invoices|
    ensures var inv := b.invoices[c.i];
            var currency := if c.newCurrency.Some? then c.newCurrency.value else inv.currency;
            Step(b, c).Ok? <==>
              && inv.status.Draft? && inv.version == c.ifMatch && c.newItems != Some([]) && inv.customer in b.customers
              && (currency == b.baseCurrency || (c.quote.Some? && c.quote.value > 0))
              && (b.customers[inv.customer].creditLimit == 0
                  || c.outstanding + CreditLimit.DraftTotal(b, c) <= b.customers[inv.customer].creditLimit)
  {
    hide ToBase, SubtotalOf, TaxOf;
  }

  /** What a credit memo's own rows would be refused for: a revenue reversal, a tax reversal, an AR
      credit or a customer credit that is not positive in base currency. */
  predicate RowsAccepted(f: Figures) {
    && f.baseTaxCredit < f.baseCredit
    && (f.taxCredit > 0 ==> f.baseTaxCredit > 0)
    && (f.arCredit > 0 ==> f.baseArCredit > 0)
    && (f.customerCredit > 0 ==> f.baseArCredit < f.baseCredit)
  }

  lemma PostableMemoIff(f: Figures)
    requires f.subtotalCredit >= 0 && f.taxCredit >= 0
    ensures AllPostable(MemoLines(f)) <==> RowsAccepted(f)
  {
    var revenue := Dr(Revenue, f.subtotalCredit, f.baseCredit - f.baseTaxCredit);
    var tax := Dr(TaxPayable, f.taxCredit, f.baseTaxCredit);
    var ar := Cr(Receivable, f.arCredit, f.baseArCredit);
    var customer := Cr(CustomerCredit, f.customerCredit, f.BaseCustomerCredit());
    PostableOnly(f.taxCredit > 0, tax);
    PostableOnly(f.arCredit > 0, ar);
    PostableOnly(f.customerCredit > 0, customer);
    PostableOnly(true, revenue);
    PostableParts([revenue], Only(f.taxCredit > 0, tax));
    PostableParts([revenue] + Only(f.taxCredit > 0, tax), Only(f.arCredit > 0, ar));
    PostableParts([revenue] + Only(f.taxCredit > 0, tax) + Only(f.arCredit > 0, ar), Only(f.customerCredit > 0, customer));
    hide AllPostable;
  }

  lemma PostableOnly(posted: bool, line: Line)
    ensures AllPostable(Only(posted, line)) <==> (posted ==> line.Postable())
  {
    if posted { assert Only(posted, line)[0] == line; }
  }

  lemma PostableParts(x: seq<Line>, y: seq<Line>)
    ensures AllPostable(x + y) <==> AllPostable(x) && AllPostable(y)
  {
    if AllPostable(x + y) {
      assert forall n :: 0 <= n < |x| ==> x[n] == (x + y)[n];
      assert forall n :: 0 <= n < |y| ==> y[n] == (x + y)[|x| + n];
    }
  }

  /** A credit memo is accepted exactly when someone other than the creator credits a posted, unvoided
      invoice by a positive amount that is still creditable - in revenue alone if tax is left out -
      and none of its rows rounds to nothing in base currency. */
  lemma CreditPossibleIff(b: Books, i: nat, user: nat, amount: nat, includeTax: bool)
    requires Sound(b) && i < |b.invoices|
    ensures TaxSplit.SplitCredit(RemainingOn(b, i), amount, includeTax).tax >= 0
    ensures var inv, left := b.invoices[i], RemainingOn(b, i);
            Step(b, Credit(i, user, amount, includeTax)).Ok? <==>
              && 0 < amount <= inv.total - Tally(b.journal, MemoTotal(i))
              && (inv.Open() || inv.status.Paid?) && inv.creator != user
              && (includeTax || amount <= inv.subtotal - Tally(b.journal, Reversed(i, Revenue)))
              && RowsAccepted(FiguresFor(inv, TaxSplit.SplitCredit(left, amount, includeTax), amount))
  {
    NeverBinds(b, i);
    var inv, left := b.invoices[i], RemainingOn(b, i);
    SplitParts(left, amount, includeTax);
    hide Sound, ToBaseEven, Tally, RemainingOn, HalfEven, TaxSplit.SplitCredit;
    var split := TaxSplit.SplitCredit(left, amount, includeTax);
    var f := FiguresFor(inv, split, amount);
    if amount <= left.Creditable() && !TaxSplit.ComponentExceeded(left, split) { PostableMemoIff(f); }
    hide AllPostable, MemoLines, RowsAccepted;
  }

  lemma SplitParts(left: TaxSplit.Remaining, amount: nat, includeTax: bool)
    ensures var s := TaxSplit.SplitCredit(left, amount, includeTax);
            && s.tax >= 0
            && (amount <= left.Creditable() ==> s.subtotal >= 0)
            && (amount <= left.Creditable() ==>
                  (TaxSplit.ComponentExceeded(left, s) <==> !includeTax && amount > left.subtotal))
  {
    if amount <= left.Creditable() { TaxSplit.InclusiveCreditFits(left, amount); }
    hide HalfEven;
  }

  // ---- What a payment needs ----

  /** The items a payment settles: those it names, or those FIFO gives it. */
  function ChosenItems(b: Books, c: Command): seq<Item>
    requires c.Pay?
  {
    match c.mode
    case Auto(order) =>
      var r := AutoItems(b, c.customer, c.currency, c.amount, order);
      if r.Ok? then r.value else []
    case Manual(items) => items
  }

  /** What the items give to one invoice. */
  function AmountOn(items: seq<Item>, i: nat): nat {
    if items == [] then 0
    else
      var it := items[|items| - 1];
      AmountOn(items[..|items| - 1], i) + if it.invoice == i then it.amount else 0
  }

  lemma {:induction false} AmountNowhere(items: seq<Item>, i: nat)
    requires forall n :: 0 <= n < |items| ==> items[n].invoice != i
    ensures AmountOn(items, i) == 0
  {
    if items != [] { AmountNowhere(items[..|items| - 1], i); }
  }

  lemma {:induction false} AmountOnce(items: seq<Item>, n: nat)
    requires Distinct(items) && n < |items|
    ensures AmountOn(items, items[n].invoice) == items[n].amount
  {
    var last := |items| - 1;
    if n < last { AmountOnce(items[..last], n); } else { AmountNowhere(items[..last], items[n].invoice); }
  }

  /** Rows to settle: the oldest-first query found some, or every named one is payable and open to
      its amount. */
  predicate ItemsFound(b: Books, c: Command)
    requires c.Pay?
  {
    match c.mode
    case Auto(order) => FifoOrder(b, c.customer, c.currency, order) && order != []
    case Manual(items) =>
      && ValidManual(c.amount, items)
      && forall n | 0 <= n < |items| ::
           Payable(b, items[n].invoice, c.customer, c.currency) && items[n].amount <= b.invoices[items[n].invoice].balance
  }

  /** The base cash each item gets: the rest of the payment is customer credit. */
  function CashParts(amount: nat, rate: nat, items: seq<Item>): (parts: seq<int>)
    requires ItemTotal(items) <= amount
    ensures |parts| == |items|
  {
    BaseParts(items, rate, ToBase(amount, rate) - ToBase(amount - ItemTotal(items), rate))
  }

  predicate AllPositive(parts: seq<int>) { forall n | 0 <= n < |parts| :: parts[n] > 0 }

  /** What the payment's own rows are accepted for: one allocation per invoice, each worth something
      at the payment's rate and at its invoice's, and a customer credit that does not round away. */
  predicate PaymentAccepted(b: Books, amount: nat, rate: nat, items: seq<Item>) {
    && Distinct(items) && WithinBalances(b, items) && ItemTotal(items) <= amount
    && (amount > ItemTotal(items) ==> ToBase(amount - ItemTotal(items), rate) > 0)
    && AllPositive(CashParts(amount, rate, items))
    && forall n | 0 <= n < |items| :: CarryingPart(b.invoices[items[n].invoice], items[n].amount) > 0
  }

  /** A payment is accepted exactly when an active customer pays something at a known rate, there is
      something to settle, and its rows are accepted. */
  lemma PayPossibleIff(b: Books, c: Command)
    requires c.Pay?
    ensures Step(b, c).Ok? <==>
              && c.amount > 0 && c.customer in b.customers && b.customers[c.customer].active
              && ItemsFound(b, c)
              && var locked := LockedRate(b, c.currency, c.quote);
                 locked.Ok? && PaymentAccepted(b, c.amount, locked.value, ChosenItems(b, c))
  {
    var locked := LockedRate(b, c.currency, c.quote);
    var items := ChosenItems(b, c);
    ItemsFoundIff(b, c);
    hide ItemsFound, AutoItems, CheckItems, SettlePayment, PaymentAccepted, ValidManual;
    if c.amount > 0 && ItemsFound(b, c) && locked.Ok? {
      ItemsFit(b, c, items);
      SettlesIff(b, c, locked.value, items);
    }
  }

  lemma ItemsFoundIff(b: Books, c: Command)
    requires c.Pay?
    ensures ItemsFound(b, c) <==>
              match c.mode
              case Auto(order) => AutoItems(b, c.customer, c.currency, c.amount, order) == Ok(ChosenItems(b, c))
              case Manual(items) =>
                ValidManual(c.amount, items) && ManualItems(b, c.customer, c.currency, items) == Ok(items)
  {
    hide Fifo.Pour;
    if c.mode.Manual? { CheckedIff(b, c.customer, c.currency, c.mode.items); }
  }

  lemma {:induction false} CheckedIff(b: Books, customer: nat, currency: string, items: seq<Item>)
    ensures CheckItems(b, customer, currency, items) == None <==>
              forall n :: 0 <= n < |items| ==>
                && Payable(b, items[n].invoice, customer, currency)
                && items[n].amount <= b.invoices[items[n].invoice].balance
  {
    hide Payable;
    if items != [] {
      var last := |items| - 1;
      CheckedIff(b, customer, currency, items[..last]);
      assert forall n :: 0 <= n < last ==> items[..last][n] == items[n];
      assert Payable(b, items[last].invoice, customer, currency) ==> items[last].invoice < |b.invoices| by {
        PayableExists(b, items[last].invoice, customer, currency);
      }
    }
  }

  lemma PayableExists(b: Books, i: nat, customer: nat, currency: string)
    ensures Payable(b, i, customer, currency) ==> i < |b.invoices|
  {}

  /** Every allocation's own CHECK. */
  lemma SharesValidIff(b: Books, items: seq<Item>, parts: seq<int>)
    requires |parts| == |items| && WithinBalances(b, items) && Worth(items)
    ensures (forall n :: 0 <= n < |items| ==> AllocationsFor(b, items, parts)[n].Valid()) <==>
              && AllPositive(parts)
              && forall n :: 0 <= n < |items| ==> CarryingPart(b.invoices[items[n].invoice], items[n].amount) > 0
  {
    hide CarryingPart;
    var shares := AllocationsFor(b, items, parts);
    assert forall n :: 0 <= n < |items| ==>
             (shares[n].Valid() <==>
                parts[n] > 0 && CarryingPart(b.invoices[items[n].invoice], items[n].amount) > 0);
  }

  predicate Worth(items: seq<Item>) { forall n | 0 <= n < |items| :: items[n].amount > 0 }

  lemma SettlesIff(b: Books, c: Command, rate: nat, items: seq<Item>)
    requires c.Pay? && c.amount > 0 && items != [] && WithinBalances(b, items) && ItemTotal(items) <= c.amount
    requires Worth(items)
    ensures SettlePayment(b, c, rate, items).Ok? <==> PaymentAccepted(b, c.amount, rate, items)
  {
    hide WithinBalances, Worth, ItemTotal, Distinct, AllPositive, CarryingPart, ToBase, BaseParts,
      PaymentLines, SettleAll, AllPostable, Cleared, FxGain;
    var p := PaymentFor(b, c, rate, items);
    SharesValidIff(b, items, CashParts(c.amount, rate, items));
    if forall n :: 0 <= n < |items| ==> p.allocations[n].Valid() {
      PaymentFigures(b, c, rate, items);
      ValidIsPositive(p.allocations);
      PostableReceiptIff(p);
    }
  }

  lemma {:induction false} ValidIsPositive(allocations: seq<Allocation>)
    requires allocations != [] && forall n :: 0 <= n < |allocations| ==> allocations[n].Valid()
    ensures Cleared(allocations, Transaction) > 0 && Cleared(allocations, Base) > 0
    ensures Cleared(allocations, Base) + FxGain(allocations) > 0
  {
    var last := |allocations| - 1;
    assert Cleared([], Transaction) == 0 && Cleared([], Base) == 0 && FxGain([]) == 0;
    if last > 0 { ValidIsPositive(allocations[..last]); } else { assert allocations[..last] == []; }
    assert allocations[last].Valid();
  }

  lemma PostableReceiptIff(p: Payment)
    requires p.amount > 0 && p.baseAmount > 0
    requires Cleared(p.allocations, Transaction) > 0 && Cleared(p.allocations, Base) > 0
    ensures AllPostable(PaymentLines(p)) <==> (p.unallocated > 0 ==> p.baseUnallocated > 0)
  {
    hide Cleared, FxGain;
    var cleared, fx := Cleared(p.allocations, Transaction), FxGain(p.allocations);
    var cash := Dr(Cash, p.amount, p.baseAmount);
    var ar := Cr(Receivable, cleared, Cleared(p.allocations, Base));
    var customer := Cr(CustomerCredit, p.unallocated, p.baseUnallocated);
    var gain := Line(FxGainLoss, 0, 0, Max(-fx, 0), Max(fx, 0));
    PostableOnly(true, cash);
    PostableOnly(cleared > 0, ar);
    PostableOnly(p.unallocated > 0, customer);
    PostableOnly(fx != 0, gain);
    PostableParts([cash], Only(cleared > 0, ar));
    PostableParts([cash] + Only(cleared > 0, ar), Only(p.unallocated > 0, customer));
    PostableParts([cash] + Only(cleared > 0, ar) + Only(p.unallocated > 0, customer), Only(fx != 0, gain));
    hide AllPostable;
  }

  /** A payment that names one invoice twice is refused as a whole, although each item passed its
      own check against the unreduced balance. */
  lemma RepeatedItemsAreRefused(b: Books, c: Command)
    requires c.Pay? && c.mode.Manual? && !Distinct(c.mode.items)
    ensures Step(b, c).Err?
  {
    hide Step;
    if Step(b, c).Ok? { var rate, items := PaymentItems(b, c, Step(b, c).value); }
  }

  // ---- Stranded invoices ----

  /** An open invoice can be written off exactly while it still carries base value: otherwise the
      entry would need a line that is zero in base currency, which the journal refuses. */
  lemma WriteOffPossibleIff(b: Books, i: nat)
    requires Sound(b) && i < |b.invoices|
    ensures Step(b, WriteOff(i)).Ok? <==> b.invoices[i].Open() && b.invoices[i].baseBalance > 0
  {
    hide Tally, ToBase, Drift;
    assert RowAt(b, i);
    var inv := b.invoices[i];
    var lines := WriteOffEntry(i, inv).lines;
    assert lines == [Dr(BadDebt, inv.balance, inv.baseBalance), Cr(Receivable, inv.balance, inv.baseBalance)];
    assert lines[0].Postable() <==> inv.baseBalance > 0;
    assert lines[1].Postable() <==> inv.baseBalance > 0;
  }

  lemma StrandedCredit(b: Books, c: Command)
    requires Sound(b) && c.Credit? && c.i < |b.invoices|
    requires b.invoices[c.i].Open() && b.invoices[c.i].baseBalance == 0
    ensures Step(b, c).Err?
  {
    hide Tally, ToBase, ToBaseEven, Drift, HalfEven;
    assert RowAt(b, c.i);
    var inv, left := b.invoices[c.i], RemainingOn(b, c.i);
    if Step(b, c).Ok? {
      TaxSplit.InclusiveCreditFits(left, c.amount);
      var f := FiguresFor(inv, TaxSplit.SplitCredit(left, c.amount, c.includeTax), c.amount);
      NotPostable(f);
    }
  }

  lemma NotPostable(f: Figures)
    requires f.arCredit > 0 && f.baseArCredit == 0
    ensures !AllPostable(MemoLines(f))
  {
    var n := if f.taxCredit > 0 then 2 else 1;
    assert MemoLines(f)[n] == Cr(Receivable, f.arCredit, 0);
    assert !MemoLines(f)[n].Postable();
  }

  /** Rounding can eat the carrying value before the balance is paid.  From then on no payment,
      credit memo or write-off can touch the invoice; only a void changes its balance. */
  lemma StrandedInvoice(b: Books, c: Command, b': Books, i: nat)
    requires Sound(b) && Step(b, c) == Ok(b') && i < |b.invoices|
    requires b.invoices[i].Open() && b.invoices[i].baseBalance == 0
    ensures |b.invoices| <= |b'.invoices|
    ensures b'.invoices[i].balance == b.invoices[i].balance || c == VoidInvoice(i)
  {
    if c.WriteOff? && c.i == i {
      WriteOffPossibleIff(b, i);
    } else if c.Credit? && c.i == i {
      StrandedCredit(b, c);
    } else if c.Pay? {
      hide Step, CarryingPart, PaymentLines, BaseParts, Sound;
      var rate, items := PaymentItems(b, c, b');
      forall n | 0 <= n < |items| ensures items[n].invoice != i {
        assert PaymentFor(b, c, rate, items).allocations[n].Valid();
        assert CarryingPart(b.invoices[items[n].invoice], items[n].amount) > 0;
      }
      SettledElsewhere(b, items, i);
    } else {
      hide ToBase, AllPostable, ApprovalEntry, VoidEntry, WriteOffEntry, Tally, Sound;
      hide ToBaseEven, MemoLines, TaxSplit.SplitCredit;
    }
  }

  /** Open, with nothing left to carry it. */
  predicate Stranded(inv: Invoice) { inv.Open() && inv.baseBalance == 0 }

  lemma SettlingStrandsIff(inv: Invoice, amount: nat)
    requires inv.Open() && inv.baseBalance > 0 && 0 < amount <= inv.balance
    ensures Stranded(Settled(inv, amount)) <==> amount < inv.balance && ToBase(amount, inv.rate) >= inv.baseBalance
  {
    hide ToBase;
  }

  lemma CreditingStrandsIff(inv: Invoice, left: TaxSplit.Remaining, amount: nat, f: Figures)
    requires (inv.Open() || inv.status.Paid?) && !Stranded(inv) && amount > 0
    requires inv.balance == 0 ==> inv.baseBalance == 0
    requires FiguresOf(inv, left, amount, f) && f.arCredit <= inv.balance && f.baseArCredit <= inv.baseBalance
    requires inv.status.Paid? ==> inv.balance == 0
    ensures Stranded(CreditApplied(inv, f)) <==>
              inv.Open() && amount < inv.balance && ToBaseEven(amount, inv.rate) >= inv.baseBalance
  {
    hide ToBaseEven;
  }

  /** What a command takes off the balance of an invoice, or would if there is as much. */
  function ArReduction(b: Books, c: Command, i: nat): nat {
    match c
    case Pay(_, _, _, _, _) => AmountOn(ChosenItems(b, c), i)
    case Credit(j, _, amount, _) => if i == j then amount else 0
    case _ => 0
  }

  /** Exactly the commands that strand an invoice: a partial payment, or a partial credit, whose
      converted amount reaches the carrying value. */
  lemma BecomesStrandedIff(b: Books, c: Command, b': Books, i: nat)
    requires Sound(b) && Step(b, c) == Ok(b') && i < |b.invoices| && !Stranded(b.invoices[i])
    ensures i < |b'.invoices|
    ensures var inv, cut := b.invoices[i], ArReduction(b, c, i);
            Stranded(b'.invoices[i]) <==>
              && inv.Open() && 0 < cut < inv.balance
              && (if c.Pay? then ToBase(cut, inv.rate) else ToBaseEven(cut, inv.rate)) >= inv.baseBalance
  {
    match c
    case Pay(_, _, _, _, _) => PayStrandsIff(b, c, b', i);
    case Credit(_, _, _, _) => CreditStrandsIff(b, c, b', i);
    case _ => OthersStrandNothing(b, c, b', i);
  }

  lemma PayStrandsIff(b: Books, c: Command, b': Books, i: nat)
    requires Sound(b) && c.Pay? && Step(b, c) == Ok(b') && i < |b.invoices| && !Stranded(b.invoices[i])
    ensures |b'.invoices| == |b.invoices|
    ensures var inv, cut := b.invoices[i], AmountOn(ChosenItems(b, c), i);
            Stranded(b'.invoices[i]) <==>
              inv.Open() && 0 < cut < inv.balance && ToBase(cut, inv.rate) >= inv.baseBalance
  {
    hide Step, Sound, PaymentLines, BaseParts, Settled, AutoItems;
    var rate, items := PaymentItems(b, c, b');
    assert items == ChosenItems(b, c);
    if n :| 0 <= n < |items| && items[n].invoice == i {
      SettledAt(b, items, n);
      SettlingStrandsIff(b.invoices[i], items[n].amount);
      AmountOnce(items, n);
    } else {
      SettledElsewhere(b, items, i);
      AmountNowhere(items, i);
    }
  }

  lemma CreditStrandsIff(b: Books, c: Command, b': Books, i: nat)
    requires Sound(b) && c.Credit? && Step(b, c) == Ok(b') && i < |b.invoices| && !Stranded(b.invoices[i])
    ensures |b'.invoices| == |b.invoices|
    ensures var inv, cut := b.invoices[i], ArReduction(b, c, i);
            Stranded(b'.invoices[i]) <==>
              inv.Open() && 0 < cut < inv.balance && ToBaseEven(cut, inv.rate) >= inv.baseBalance
  {
    var f := CreditShape(b, c, b');
    PaidIsZero(b, c.i);
    hide Step, Sound, MemoLines, RemainingOn, ToBaseEven;
    if c.i == i { CreditingStrandsIff(b.invoices[i], RemainingOn(b, i), c.amount, f); }
  }

  lemma PaidIsZero(b: Books, i: nat)
    requires Sound(b) && i < |b.invoices|
    ensures var inv := b.invoices[i];
            && (inv.status.Paid? ==> inv.balance == 0)
            && (inv.balance == 0 && !inv.status.Draft? ==> inv.baseBalance == 0)
  {
    hide Tally, ToBase, Drift;
    assert RowAt(b, i);
  }

  lemma OthersStrandNothing(b: Books, c: Command, b': Books, i: nat)
    requires Sound(b) && !c.Pay? && !c.Credit? && Step(b, c) == Ok(b') && i < |b.invoices| && !Stranded(b.invoices[i])
    ensures i < |b'.invoices| && !Stranded(b'.invoices[i])
  {
    if c.Approve? {
      ApproveShape(b, c, b');
      DraftCarries(b, c.i);
      hide Step, Sound, ApprovalEntry;
    } else {
      hide Sound, ToBase, AllPostable, VoidEntry, WriteOffEntry, SubtotalOf, TaxOf;
    }
  }

  lemma DraftCarries(b: Books, i: nat)
    requires Sound(b) && i < |b.invoices|
    ensures b.invoices[i].status.Draft? ==> b.invoices[i].baseBalance == b.invoices[i].baseTotal
  {
    hide Tally, ToBase, Drift;
    assert RowAt(b, i);
  }

  // ---- Concrete runs ----

  const ONE_CUSTOMER: map<nat, Customer> := map[0 := Customer(true, 0)]

  lemma RunSnoc(start: Books, commands: seq<Command>, c: Command, b: Books)
    requires Step(Run(start, commands), c) == Ok(b)
    ensures Run(start, commands + [c]) == b
  {
    hide Step;
    assert (commands + [c])[..|commands|] == commands;
  }

  /** One invoice of one line, created by user 1 and approved by user 2. */
  function Opening(currency: string, rate: nat, line: LineTotals): seq<Command> {
    [Create(1, 0, currency, Some(rate), [line], 0, 0), Approve(0, 1, 2)]
  }

  function DraftOf(currency: string, rate: nat, line: LineTotals): Invoice {
    Commands.Priced(NewInvoice(1, 0), currency, rate, line.subtotal, line.tax, 0)
  }

  function Opened(currency: string, rate: nat, line: LineTotals): Books {
    var draft := DraftOf(currency, rate, line);
    Books("INR", ONE_CUSTOMER, [draft.(status := Approved, version := 2)], [ApprovalEntry(0, draft)], [0])
  }

  lemma OneLine(line: LineTotals)
    ensures SubtotalOf([line]) == line.subtotal && TaxOf([line]) == line.tax
  {
    var lines := [line];
    assert lines[..0] == [];
    assert SubtotalOf(lines) == SubtotalOf(lines[..0]) + line.subtotal;
    assert TaxOf(lines) == TaxOf(lines[..0]) + line.tax;
  }

  lemma OpeningRuns(currency: string, rate: nat, line: LineTotals)
    requires currency != "INR" && rate > 0
    requires AllPostable(ApprovalEntry(0, DraftOf(currency, rate, line)).lines)
    ensures Run(Empty("INR", ONE_CUSTOMER), Opening(currency, rate, line)) == Opened(currency, rate, line)
  {
    hide ToBase, AllPostable, ApprovalEntry;
    var start, draft := Empty("INR", ONE_CUSTOMER), DraftOf(currency, rate, line);
    var c1, c2 := Opening(currency, rate, line)[0], Opening(currency, rate, line)[1];
    OneLine(line);
    hide SubtotalOf, TaxOf;
    var b1 := start.(invoices := [draft]);
    assert start.invoices + [draft] == [draft];
    assert Step(start, c1) == Ok(b1);
    RunSnoc(start, [], c1, b1);
    assert [] + [c1] == [c1];
    assert b1.invoices[0 := draft.(status := Approved, version := 2)] == [draft.(status := Approved, version := 2)];
    assert b1.journal + [ApprovalEntry(0, draft)] == [ApprovalEntry(0, draft)];
    assert b1.outbox + [0] == [0];
    assert Step(b1, c2) == Ok(Opened(currency, rate, line));
    RunSnoc(start, [c1], c2, Opened(currency, rate, line));
    assert [c1] + [c2] == Opening(currency, rate, line);
  }

  lemma NothingReversedYet(e: Entry, a: Account)
    requires e.document.ForInvoice?
    ensures Tally([e], Reversed(0, a)) == 0
  {
    assert [e][..0] == [];
  }

  /** Subtotal and tax of one quantum each, at 1.5: base 2 and 2. */
  const SMALL := Invoice(Approved, 2, 1, 0, "USD", 150_000_000, 1, 1, 2, 2, 2, 2, 4, 4, 0, None)
  const SMALL_MEMO := Figures(1, 1, 2, 0, 3, 2, 4)

  lemma CreditInFull(b: Books)
    requires b.invoices == [SMALL] && RemainingOn(b, 0) == TaxSplit.Remaining(1, 1)
    ensures Step(b, Credit(0, 2, 2, true))
         == Commit(b, 0, CreditApplied(SMALL, SMALL_MEMO), Entry(ForCreditMemo(Memo(0, 2, 3)), MemoLines(SMALL_MEMO)))
  {
    OneAndAHalf();
    hide ToBaseEven, Tally, Commit, RemainingOn;
    assert FiguresFor(SMALL, TaxSplit.Split(1, 1), 2) == SMALL_MEMO;
  }

  lemma SmallOpened()
    ensures var b := Opened("USD", 150_000_000, LineTotals(1, 1));
            && b == Run(Empty("INR", ONE_CUSTOMER), Opening("USD", 150_000_000, LineTotals(1, 1)))
            && b.invoices == [SMALL] && RemainingOn(b, 0) == TaxSplit.Remaining(1, 1)
  {
    OneAndAHalf();
    hide ToBase, Tally, Run;
    var b := Opened("USD", 150_000_000, LineTotals(1, 1));
    ApprovalAccepted("USD", 150_000_000, LineTotals(1, 1));
    OpeningRuns("USD", 150_000_000, LineTotals(1, 1));
    hide AllPostable, ApprovalEntry;
    NothingReversedYet(b.journal[0], Revenue);
    NothingReversedYet(b.journal[0], TaxPayable);
  }

  /** A fully credited foreign invoice whose memo entry does not balance in base currency:
      revenue and tax were converted apart, the memo converts their sum. */
  lemma UnbalancedMemo() returns (commands: seq<Command>)
    ensures exists e :: e in Run(Empty("INR", ONE_CUSTOMER), commands).journal && e.Imbalance(Base) == -1
  {
    var opening, c := Opening("USD", 150_000_000, LineTotals(1, 1)), Credit(0, 2, 2, true);
    var b := Opened("USD", 150_000_000, LineTotals(1, 1));
    SmallOpened();
    CreditInFull(b);
    var e := Entry(ForCreditMemo(Memo(0, 2, 3)), MemoLines(SMALL_MEMO));
    MemoAccepted(SMALL_MEMO);
    MemoPosting(Memo(0, 2, 3), SMALL_MEMO);
    hide LineSum, MemoLines, Step, Run, Opened, RemainingOn;
    var b' := Step(b, c).value;
    commands := opening + [c];
    RunSnoc(Empty("INR", ONE_CUSTOMER), opening, c, b');
    assert b'.journal == b.journal + [e];
    assert e in b'.journal;
  }

  lemma OneAndAHalf()
    ensures ToBase(1, 150_000_000) == 2 && ToBaseEven(2, 150_000_000) == 3 && ToBaseEven(1, 150_000_000) == 2
  {}

  lemma ApprovalAccepted(currency: string, rate: nat, line: LineTotals)
    requires line.subtotal > 0 && ToBase(line.subtotal, rate) > 0
    requires line.tax > 0 ==> ToBase(line.tax, rate) > 0
    ensures AllPostable(ApprovalEntry(0, DraftOf(currency, rate, line)).lines)
  {
    hide ToBase;
  }

  lemma MemoAccepted(f: Figures)
    requires f == Figures(1, 1, 2, 0, 3, 2, 4)
    ensures AllPostable(MemoLines(f))
  {}

  /** A thousand quanta at rate one, of which four hundred are credited before the void. */
  const LARGE := Invoice(Approved, 2, 1, 0, "USD", RATE_ONE, 1000, 0, 1000, 1000, 1000, 0, 1000, 1000, 0, None)
  const LARGE_MEMO := Figures(400, 0, 400, 0, 400, 0, 400)
  const CREDITED_LARGE := LARGE.(balance := 600, baseBalance := 600, version := 3)
  const LARGE_ENTRY := Entry(ForCreditMemo(Memo(0, 400, 400)), MemoLines(LARGE_MEMO))

  lemma LargeOpened()
    ensures var b := Opened("USD", RATE_ONE, LineTotals(1000, 0));
            && b == Run(Empty("INR", ONE_CUSTOMER), Opening("USD", RATE_ONE, LineTotals(1000, 0)))
            && b.invoices == [LARGE] && b.outbox == [0] && RemainingOn(b, 0) == TaxSplit.Remaining(1000, 0)
  {
    hide ToBase, Tally, Run;
    UnitRate(1000);
    UnitRate(0);
    var b := Opened("USD", RATE_ONE, LineTotals(1000, 0));
    ApprovalAccepted("USD", RATE_ONE, LineTotals(1000, 0));
    OpeningRuns("USD", RATE_ONE, LineTotals(1000, 0));
    hide AllPostable, ApprovalEntry;
    NothingReversedYet(b.journal[0], Revenue);
    NothingReversedYet(b.journal[0], TaxPayable);
  }

  lemma CreditFour(b: Books)
    requires b.invoices == [LARGE] && RemainingOn(b, 0) == TaxSplit.Remaining(1000, 0)
    ensures Step(b, Credit(0, 2, 400, false))
         == Ok(b.(invoices := [CREDITED_LARGE], journal := b.journal + [LARGE_ENTRY]))
  {
    hide ToBaseEven, Tally, RemainingOn;
    UnitRate(400);
    UnitRate(0);
    assert FiguresFor(LARGE, TaxSplit.Split(400, 0), 400) == LARGE_MEMO;
    LargeMemoAccepted();
    hide AllPostable, MemoLines;
    assert b.invoices[0 := CREDITED_LARGE] == [CREDITED_LARGE];
  }

  lemma LargeMemoAccepted()
    ensures AllPostable(MemoLines(LARGE_MEMO)) && AllPostable(VoidEntry(0, CREDITED_LARGE).lines)
  {}

  lemma VoidLarge(b: Books)
    requires b.invoices == [CREDITED_LARGE] && Sound(b)
    ensures var r := Step(b, VoidInvoice(0)); r.Ok? && VoidedCredits(r.value) == 400
  {
    LargeMemoAccepted();
    hide AllPostable, VoidEntry, Sound;
    var r := Step(b, VoidInvoice(0));
    assert r.Ok?;
    VoidStep(b, VoidInvoice(0), r.value);
    hide Step, Tally;
    assert VoidedCreditsColumn(b) == [0];
    SumOfZeros([0]);
  }

  /** /health does raise the alarm: create, approve, credit four tenths, void. */
  lemma VoidAfterCreditMismatches() returns (commands: seq<Command>)
    ensures !Matched(Run(Empty("INR", ONE_CUSTOMER), commands))
  {
    hide Step, Run, Opened, RemainingOn, MemoLines, Opening, Matched, VoidedCredits, Sound;
    var opening, start := Opening("USD", RATE_ONE, LineTotals(1000, 0)), Empty("INR", ONE_CUSTOMER);
    var b := Opened("USD", RATE_ONE, LineTotals(1000, 0));
    var c1, c2 := Credit(0, 2, 400, false), VoidInvoice(0);
    LargeOpened();
    CreditFour(b);
    var b1 := b.(invoices := [CREDITED_LARGE], journal := b.journal + [LARGE_ENTRY]);
    RunSnoc(start, opening, c1, b1);
    EmptyIsSound("INR", ONE_CUSTOMER);
    RunKeeps(start, opening + [c1]);
    VoidLarge(b1);
    RunSnoc(start, opening + [c1], c2, Step(b1, c2).value);
    commands := opening + [c1] + [c2];
    HealthIsExact("INR", ONE_CUSTOMER, commands);
  }

  // ---- A run that strands an invoice ----

  const HALF := 50_000_000  // a rate of 0.5

  /** Three quanta at 0.5, carried at 1.5 rounded up. */
  const ODD := Invoice(Approved, 2, 1, 0, "USD", HALF, 3, 0, 3, 3, 2, 0, 2, 2, 0, None)

  const UNIT := Pay(0, "USD", Some(HALF), 1, Manual([Item(0, 1)]))
  const UNIT_PAYMENT := Payment(0, "USD", HALF, 1, 1, 0, 0, [Allocation(0, 1, 1, 1)])
  const UNIT_ENTRY := Entry(ForPayment(UNIT_PAYMENT), PaymentLines(UNIT_PAYMENT))

  lemma HalfUnit()
    ensures ToBase(1, HALF) == 1 && ToBase(3, HALF) == 2 && ToBase(0, HALF) == 0
  {}

  lemma OddOpened()
    ensures var b := Opened("USD", HALF, LineTotals(3, 0));
            b == Run(Empty("INR", ONE_CUSTOMER), Opening("USD", HALF, LineTotals(3, 0))) && b.invoices == [ODD]
  {
    HalfUnit();
    hide ToBase, Run;
    ApprovalAccepted("USD", HALF, LineTotals(3, 0));
    OpeningRuns("USD", HALF, LineTotals(3, 0));
  }

  /** A payment of one quantum takes one quantum of carrying value, as 0.5 rounds up. */
  lemma PaysOneUnit(b: Books, inv: Invoice)
    requires b.invoices == [inv] && b.customers == ONE_CUSTOMER && b.baseCurrency == "INR"
    requires inv.Open() && inv.customer == 0 && inv.currency == "USD" && inv.rate == HALF
    requires 1 < inv.balance <= inv.total && 0 < inv.baseBalance
    ensures var row := inv.(status := PartiallyPaid, balance := inv.balance - 1,
                            baseBalance := inv.baseBalance - 1, version := inv.version + 1);
            Step(b, UNIT) == Ok(b.(invoices := [row], journal := b.journal + [UNIT_ENTRY]))
  {
    var items := [Item(0, 1)];
    UnitItem(b, items);
    assert ManualItems(b, 0, "USD", items) == Ok(items);
    UnitPaymentIs(b, items);
    UnitSettles(b, inv, items);
    UnitAccepted();
    hide ToBase, PaymentLines, SettleAll, PaymentFor, AllPostable, CheckItems, ItemTotal;
    assert Distinct(items);
  }

  lemma UnitItem(b: Books, items: seq<Item>)
    requires items == [Item(0, 1)] && |b.invoices| == 1
    requires Payable(b, 0, 0, "USD") && b.invoices[0].balance > 1
    ensures CheckItems(b, 0, "USD", items) == None && ItemTotal(items) == 1 && ValidManual(1, items)
    ensures WithinBalances(b, items)
  {
    assert items[..0] == [];
    assert CheckItems(b, 0, "USD", items[..0]) == None && ItemTotal(items[..0]) == 0;
  }

  lemma UnitPaymentIs(b: Books, items: seq<Item>)
    requires items == [Item(0, 1)] && |b.invoices| == 1 && ItemTotal(items) == 1 && WithinBalances(b, items)
    requires b.invoices[0].rate == HALF && b.invoices[0].balance > 1 && b.invoices[0].baseBalance > 0
    ensures PaymentFor(b, UNIT, HALF, items) == UNIT_PAYMENT
  {
    HalfUnit();
    hide ToBase;
    var none: seq<Item> := items[..0];
    assert Converted(none, HALF) == [] && Sum([]) == 0;
    assert BaseParts(items, HALF, 1) == [1];
    assert AllocationsFor(b, items, [1]) == [Allocation(0, 1, 1, 1)];
  }

  lemma UnitSettles(b: Books, inv: Invoice, items: seq<Item>)
    requires items == [Item(0, 1)] && b.invoices == [inv] && WithinBalances(b, items)
    requires inv.rate == HALF && 1 < inv.balance <= inv.total && 0 < inv.baseBalance
    ensures SettleAll(b, items) == [inv.(status := PartiallyPaid, balance := inv.balance - 1,
                                         baseBalance := inv.baseBalance - 1, version := inv.version + 1)]
  {
    HalfUnit();
    hide ToBase;
    assert items[..0] == [];
    assert SettleAll(b, items[..0]) == b.invoices;
  }

  lemma UnitAccepted()
    ensures AllPostable(PaymentLines(UNIT_PAYMENT)) && UNIT_PAYMENT.allocations[0].Valid()
  {
    var a := UNIT_PAYMENT.allocations;
    assert a[..0] == [];
    assert Cleared(a, Transaction) == 1 && Cleared(a, Base) == 1 && FxGain(a) == 0;
  }

  /** It happens: three quanta at 0.5, two of them paid one at a time.  One quantum stays open with
      nothing left to carry it, and from here on only a void can move it. */
  lemma StrandingHappens() returns (commands: seq<Command>)
    ensures var b := Run(Empty("INR", ONE_CUSTOMER), commands);
            && |b.invoices| == 1 && b.invoices[0].Open() && b.invoices[0].balance == 1 && b.invoices[0].baseBalance == 0
            && Step(b, WriteOff(0)).Err?
  {
    var opening, start := Opening("USD", HALF, LineTotals(3, 0)), Empty("INR", ONE_CUSTOMER);
    var b := Opened("USD", HALF, LineTotals(3, 0));
    OddOpened();
    var once := ODD.(status := PartiallyPaid, balance := 2, baseBalance := 1, version := 3);
    var twice := ODD.(status := PartiallyPaid, balance := 1, baseBalance := 0, version := 4);
    PaysOneUnit(b, ODD);
    var b1 := b.(invoices := [once], journal := b.journal + [UNIT_ENTRY]);
    PaysOneUnit(b1, once);
    var b2 := b1.(invoices := [twice], journal := b1.journal + [UNIT_ENTRY]);
    hide Run, Step, Opened, Opening, Sound;
    RunSnoc(start, opening, UNIT, b1);
    RunSnoc(start, opening + [UNIT], UNIT, b2);
    commands := opening + [UNIT] + [UNIT];
    EmptyIsSound("INR", ONE_CUSTOMER);
    RunKeeps(start, commands);
    WriteOffPossibleIff(b2, 0);
  }
}
