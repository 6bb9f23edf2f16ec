/** The handlers as they run: statement by statement on the tables, rolling back when a check
    fails or the database refuses a row.  Each is proved to do what Commands specifies. */
module Ledgers {
  import opened Money
  import opened Sums
  import opened Books
  import opened Commands
  import opened Steps
  import opened Reconciliation
  import opened Balancing
  import Fifo
  import TaxSplit

  /** How a handler ends: its result is committed, or nothing is and the error is reported. */
  predicate Ends(result: Result<Books>, before: Books, after: Books, refused: Option<Error>) {
    match result
    case Ok(b) => after == b && refused == None
    case Err(e) => after == before && refused == Some(e)
  }

  class Ledger {
    const baseCurrency: string
    const customers: map<nat, Customer>
    var invoices: seq<Invoice>
    var journal: seq<Entry>
    var outbox: seq<nat>

    function State(): Books
      reads this
    {
      Books(baseCurrency, customers, invoices, journal, outbox)
    }

    /** What every handler keeps: rows explained by the journal, the two ledgers reconciled up to
        voided credits, every entry balanced within its bound. */
    ghost predicate Valid()
      reads this
    {
      Sound(State()) && Reconciled(State()) && JournalOk(State())
    }

    constructor (baseCurrency: string, customers: map<nat, Customer>)
      ensures State() == Empty(baseCurrency, customers) && Valid()
    {
      this.baseCurrency, this.customers := baseCurrency, customers;
      invoices, journal, outbox := [], [], [];
      new;
      EmptyIsSound(baseCurrency, customers);
      EmptyReconciles(baseCurrency, customers);
    }

    /** Flush one changed row with its journal entry. */
    method Post(i: nat, row: Invoice, entry: Entry) returns (refused: Option<Error>)
      requires i < |invoices|
      modifies this
      ensures Ends(Commit(old(State()), i, row, entry), old(State()), State(), refused)
    {
      var before := invoices;
      invoices := invoices[i := row];
      if !AllPostable(entry.lines) {
        invoices := before;
        return Some(ConstraintViolation);
      }
      journal := journal + [entry];
      return None;
    }

    // ---- Drafts ----

    method TotalLines(items: seq<LineTotals>) returns (subtotal: nat, tax: nat)
      ensures subtotal == SubtotalOf(items) && tax == TaxOf(items)
    {
      subtotal, tax := 0, 0;
      for n := 0 to |items|
        invariant subtotal == SubtotalOf(items[..n]) && tax == TaxOf(items[..n])
      {
        assert items[..n + 1][..n] == items[..n];
        subtotal := subtotal + items[n].subtotal;
        tax := tax + items[n].tax;
      }
      assert items[..|items|] == items;
    }

    method CreateInvoice(creator: nat, customer: nat, currency: string, quote: Option<nat>,
                         items: seq<LineTotals>, dueDate: int, outstanding: int)
      returns (refused: Option<Error>)
      modifies this
      ensures Ends(Step(old(State()), Create(creator, customer, currency, quote, items, dueDate, outstanding)),
                   old(State()), State(), refused)
    {
      hide ToBase;
      if items == [] { return Some(InvalidRequest); }
      if customer !in customers || !customers[customer].active { return Some(NotFound); }
      var subtotal, tax := TotalLines(items);
      var locked := LockedRate(State(), currency, quote);
      if locked.Err? { return Some(locked.error); }
      var row := Commands.Priced(NewInvoice(creator, customer), currency, locked.value, subtotal, tax, dueDate);
      if OverLimit(State(), customer, outstanding, row.baseTotal) { return Some(CreditLimitExceeded); }
      invoices := invoices + [row];
      return None;
    }

    method UpdateInvoice(i: nat, ifMatch: nat, newCurrency: Option<string>, quote: Option<nat>,
                         newItems: Option<seq<LineTotals>>, dueDate: int, outstanding: int, read: Invoice)
      returns (refused: Option<Error>)
      requires i < |invoices|
      modifies this
      ensures Ends(CommitFrom(old(State()), Patch(i, ifMatch, newCurrency, quote, newItems, dueDate, outstanding), read),
                   old(State()), State(), refused)
    {
      hide ToBase;
      if read.version != ifMatch { return Some(VersionConflict); }
      if !read.status.Draft? { return Some(InvalidStatus); }
      var currency := if newCurrency.Some? then newCurrency.value else read.currency;
      var subtotal, tax := read.subtotal, read.tax;
      if newItems.Some? { subtotal, tax := TotalLines(newItems.value); }
      var locked := LockedRate(State(), currency, quote);
      if locked.Err? { return Some(locked.error); }
      var row := Commands.Priced(invoices[i], currency, locked.value, subtotal, tax, dueDate);
      if read.customer !in customers { return Some(NotFound); }
      if OverLimit(State(), read.customer, outstanding, row.baseTotal) { return Some(CreditLimitExceeded); }
      if invoices[i].version != read.version || !invoices[i].status.Draft? { return Some(VersionConflict); }
      invoices := invoices[i := row.(version := row.version + 1)];
      return None;
    }

    method ApproveInvoice(i: nat, ifMatch: nat, user: nat, read: Invoice) returns (refused: Option<Error>)
      requires i < |invoices|
      modifies this
      ensures Ends(CommitFrom(old(State()), Approve(i, ifMatch, user), read), old(State()), State(), refused)
    {
      if read.version != ifMatch { return Some(VersionConflict); }
      if !read.status.Draft? { return Some(InvalidStatus); }
      if read.creator == user { return Some(SoxViolation); }
      if invoices[i].version != read.version || !invoices[i].status.Draft? { return Some(VersionConflict); }
      if i in outbox { return Some(ConstraintViolation); }
      var lines := [Dr(Receivable, read.total, read.baseTotal), Cr(Revenue, read.subtotal, read.baseSubtotal)];
      if read.tax > 0 { lines := lines + [Cr(TaxPayable, read.tax, read.baseTax)]; }
      var cur := invoices[i];
      assert lines == ApprovalEntry(i, read).lines;
      refused := Post(i, cur.(status := Approved, version := cur.version + 1), Entry(ForInvoice(i), lines));
      if refused == None { outbox := outbox + [i]; }
    }

    method RejectInvoice(i: nat, ifMatch: nat, user: nat, read: Invoice) returns (refused: Option<Error>)
      requires i < |invoices|
      modifies this
      ensures Ends(CommitFrom(old(State()), Reject(i, ifMatch, user), read), old(State()), State(), refused)
    {
      if read.version != ifMatch { return Some(VersionConflict); }
      if !read.status.Draft? { return Some(InvalidStatus); }
      if read.creator == user { return Some(SoxViolation); }
      if invoices[i].version != read.version || !invoices[i].status.Draft? { return Some(VersionConflict); }
      invoices := invoices[i := invoices[i].(version := invoices[i].version + 1)];
      return None;
    }

    // ---- Payments ----

    method AutoAllocate(customer: nat, currency: string, amount: nat, order: seq<nat>)
      returns (chosen: Result<seq<Item>>, remaining: int)
      ensures chosen == AutoItems(State(), customer, currency, amount, order)
      ensures chosen.Ok? ==> remaining == amount - ItemTotal(chosen.value)
    {
      remaining := amount;
      if !FifoOrder(State(), customer, currency, order) { return Err(NotTheQueryResult), remaining; }
      if order == [] { return Err(NoOpenInvoices), remaining; }
      hide Fifo.Pour, Fifo.OldestFirst, Sum;
      var amounts;
      amounts, remaining := Fifo.AutoAllocate(BalancesOf(State(), order), amount);
      Fifo.PourShape(BalancesOf(State(), order), amount);
      PouredArePositive(BalancesOf(State(), order), amount, amounts);
      ItemTotalIsSum(order, amounts);
      chosen := Ok(ItemsOf(order, amounts));
    }

    method ManualAllocate(customer: nat, currency: string, amount: nat, items: seq<Item>)
      returns (chosen: Result<seq<Item>>, remaining: int)
      ensures chosen == ManualItems(State(), customer, currency, items)
      ensures chosen.Ok? ==> remaining == amount - ItemTotal(items)
    {
      remaining := amount;
      for n := 0 to |items|
        invariant CheckItems(State(), customer, currency, items[..n]) == None
        invariant remaining == amount - ItemTotal(items[..n])
      {
        var it := items[n];
        assert items[..n + 1][..n] == items[..n];
        if !Payable(State(), it.invoice, customer, currency) {
          FirstBadItem(State(), customer, currency, items, n + 1);
          return Err(InvoiceNotPayable), remaining;
        }
        if it.amount > invoices[it.invoice].balance {
          FirstBadItem(State(), customer, currency, items, n + 1);
          return Err(AllocationExceedsBalance), remaining;
        }
        remaining := remaining - it.amount;
      }
      assert items[..|items|] == items;
      chosen := Ok(items);
    }

    /** Convert each allocation, then patch the last one with the rounding residual. */
    method ConvertParts(items: seq<Item>, rate: nat, target: int) returns (parts: seq<int>)
      requires items != []
      ensures parts == BaseParts(items, rate, target)
    {
      hide ToBase, Sum;
      parts := [];
      for n := 0 to |items|
        invariant parts == Converted(items[..n], rate)
      {
        parts := parts + [ToBase(items[n].amount, rate)];
      }
      var last := |parts| - 1;
      assert parts == Converted(items[..last], rate) + [parts[last]];
      SumSnoc(Converted(items[..last], rate), parts[last]);
      parts := parts[last := parts[last] + (target - Sum(parts))];
    }

    /** One pass of the settling loop: the carrying value cleared, and the row after it. */
    method Allocate(inv: Invoice, amount: nat) returns (row: Invoice, baseAr: nat)
      requires amount <= inv.balance
      ensures row == Settled(inv, amount) && baseAr == CarryingPart(inv, amount)
    {
      hide ToBase;
      var balanceAfter := inv.balance - amount;
      if amount == inv.balance {
        baseAr := inv.baseBalance;
      } else {
        baseAr := Min(ToBase(amount, inv.rate), inv.baseBalance);
      }
      row := inv.(balance := balanceAfter, baseBalance := inv.baseBalance - baseAr);
      if balanceAfter == 0 {
        row := row.(status := Paid);
      } else if balanceAfter < inv.total {
        row := row.(status := PartiallyPaid);
      }
      row := row.(version := row.version + 1);
    }

    /** Clear the invoices one allocation at a time; a second allocation to the same invoice is
        refused by the unique index. */
    method Settle(items: seq<Item>, parts: seq<int>) returns (refused: Option<Error>, allocations: seq<Allocation>)
      requires WithinBalances(State(), items) && |parts| == |items|
      modifies this`invoices
      ensures refused == None ==>
                && Distinct(items) && invoices == SettleAll(old(State()), items)
                && allocations == AllocationsFor(old(State()), items, parts)
      ensures refused != None ==> !Distinct(items) && refused == Some(ConstraintViolation)
    {
      hide CarryingPart, Settled;
      ghost var b := State();
      allocations := [];
      for n := 0 to |items|
        invariant Distinct(items[..n]) && WithinBalances(b, items[..n])
        invariant invoices == SettleAll(b, items[..n])
        invariant allocations == AllocationsFor(b, items[..n], parts[..n])
      {
        var it := items[n];
        if exists m | 0 <= m < n :: items[m].invoice == it.invoice {
          return Some(ConstraintViolation), [];
        }
        assert items[..n + 1][..n] == items[..n];
        SettledElsewhere(b, items[..n], it.invoice);
        var inv := invoices[it.invoice];
        var row, baseAr := Allocate(inv, it.amount);
        allocations := allocations + [Allocation(it.invoice, it.amount, parts[n], baseAr)];
        invoices := invoices[it.invoice := row];
      }
      assert items[..|items|] == items && parts[..|parts|] == parts;
      refused := None;
    }

    method CreatePayment(customer: nat, currency: string, quote: Option<nat>, amount: nat, mode: Mode)
      returns (refused: Option<Error>)
      modifies this
      ensures Ends(Step(old(State()), Pay(customer, currency, quote, amount, mode)), old(State()), State(), refused)
    {
      hide ToBase, CarryingPart, AllPostable, AutoItems, CheckItems, ItemTotal, SettleAll, BaseParts, Distinct, PaymentLines;
      if amount == 0 || (mode.Manual? && !ValidManual(amount, mode.items)) { return Some(InvalidRequest); }
      if customer !in customers || !customers[customer].active { return Some(NotFound); }
      var locked := LockedRate(State(), currency, quote);
      if locked.Err? { return Some(locked.error); }
      var rate := locked.value;
      var chosen, remaining;
      match mode {
        case Auto(order) => chosen, remaining := AutoAllocate(customer, currency, amount, order);
        case Manual(requested) => chosen, remaining := ManualAllocate(customer, currency, amount, requested);
      }
      if chosen.Err? { return Some(chosen.error); }
      var items := chosen.value;
      ItemsFit(State(), Pay(customer, currency, quote, amount, mode), items);
      refused := Receive(customer, currency, rate, amount, remaining, items, Pay(customer, currency, quote, amount, mode));
    }

    /** The second half of create_payment: everything after the allocations are known. */
    method Receive(customer: nat, currency: string, rate: nat, amount: nat, remaining: int, items: seq<Item>,
                   ghost c: Command)
      returns (refused: Option<Error>)
      requires c.Pay? && c.customer == customer && c.currency == currency && c.amount == amount
      requires WithinBalances(State(), items) && items != []
      requires ItemTotal(items) <= amount && remaining == amount - ItemTotal(items)
      modifies this
      ensures Ends(SettlePayment(old(State()), c, rate, items), old(State()), State(), refused)
    {
      hide ToBase, CarryingPart, AllPostable, ItemTotal, SettleAll, BaseParts, Distinct, Cleared, FxGain;
      var over := Max(remaining, 0);
      var baseAmount: int, baseOver: int := ToBase(amount, rate), ToBase(over, rate);
      var parts := ConvertParts(items, rate, baseAmount - baseOver);
      var before := invoices;
      var bad, allocations := Settle(items, parts);
      if bad != None {
        invoices := before;
        return bad;
      }
      var payment := Payment(customer, currency, rate, amount, baseAmount, over, baseOver, allocations);
      assert payment == PaymentFor(old(State()), c, rate, items);
      var lines := PostReceipt(payment);
      if (exists n | 0 <= n < |allocations| :: !allocations[n].Valid()) || !AllPostable(lines) {
        invoices := before;
        return Some(ConstraintViolation);
      }
      journal := journal + [Entry(ForPayment(payment), lines)];
      return None;
    }

    /** Cash, receivables, customer credit and the FX result of one receipt. */
    method PostReceipt(p: Payment) returns (lines: seq<Line>)
      ensures lines == PaymentLines(p)
    {
      hide Cleared, FxGain;
      var cleared, fx := Cleared(p.allocations, Transaction), FxGain(p.allocations);
      lines := [Dr(Cash, p.amount, p.baseAmount)];
      if cleared > 0 { lines := lines + [Cr(Receivable, cleared, Cleared(p.allocations, Base))]; }
      if p.unallocated > 0 { lines := lines + [Cr(CustomerCredit, p.unallocated, p.baseUnallocated)]; }
      if fx != 0 { lines := lines + [Line(FxGainLoss, 0, 0, Max(-fx, 0), Max(fx, 0))]; }
    }

    // ---- Credit memos, write-offs, voids ----

    method CreateCreditMemo(i: nat, user: nat, amount: nat, includeTax: bool) returns (refused: Option<Error>)
      modifies this
      ensures Ends(Step(old(State()), Credit(i, user, amount, includeTax)), old(State()), State(), refused)
    {
      hide HalfEven, ToBaseEven, Tally, AllPostable, FiguresFor, TaxSplit.SplitCredit, MemoLines, CreditApplied,
        RemainingOn, FiguresOf;
      if amount == 0 { return Some(InvalidAmount); }
      if i >= |invoices| { return Some(NotFound); }
      var inv := invoices[i];
      if !inv.Open() && !inv.status.Paid? { return Some(InvalidStatus); }
      if inv.creator == user { return Some(SoxViolation); }
      var left := RemainingOn(State(), i);
      if amount > left.Creditable() { return Some(AmountExceedsCreditable); }
      var split := TaxSplit.SplitCredit(left, amount, includeTax);
      AcceptedFigures(inv, left, amount, includeTax);
      if TaxSplit.ComponentExceeded(left, split) { return Some(CreditComponentExceeded); }
      var f := FiguresFor(inv, split, amount);
      FiguresWithin(inv, split, amount);
      var lines := PostMemo(f);
      var row := ApplyCredit(inv, f);
      refused := Post(i, row, Entry(ForCreditMemo(Memo(i, amount, f.baseCredit)), lines));
    }

    /** Revenue and tax reversed, against the receivable first and the customer's account second. */
    method PostMemo(f: Figures) returns (lines: seq<Line>)
      ensures lines == MemoLines(f)
    {
      lines := [Dr(Revenue, f.subtotalCredit, f.baseCredit - f.baseTaxCredit)];
      if f.taxCredit > 0 { lines := lines + [Dr(TaxPayable, f.taxCredit, f.baseTaxCredit)]; }
      if f.arCredit > 0 { lines := lines + [Cr(Receivable, f.arCredit, f.baseArCredit)]; }
      if f.customerCredit > 0 { lines := lines + [Cr(CustomerCredit, f.customerCredit, f.BaseCustomerCredit())]; }
    }

    method ApplyCredit(inv: Invoice, f: Figures) returns (row: Invoice)
      requires f.arCredit <= inv.balance && f.baseArCredit <= inv.baseBalance
      ensures row == CreditApplied(inv, f)
    {
      row := inv.(balance := inv.balance - f.arCredit, baseBalance := inv.baseBalance - f.baseArCredit,
                  version := inv.version + 1);
      if row.balance == 0 && !row.status.Paid? { row := row.(status := Paid); }
    }

    method WriteOffInvoice(i: nat, read: Invoice) returns (refused: Option<Error>)
      requires i < |invoices|
      modifies this
      ensures Ends(CommitFrom(old(State()), WriteOff(i), read), old(State()), State(), refused)
    {
      if !read.Open() { return Some(InvalidStatus); }
      if read.balance == 0 { return Some(NoOutstandingBalance); }
      var lines := [Dr(BadDebt, read.balance, read.baseBalance), Cr(Receivable, read.balance, read.baseBalance)];
      assert lines == WriteOffEntry(i, read).lines;
      var row := invoices[i].(status := WrittenOff, balance := 0, baseBalance := 0, version := read.version + 1);
      refused := Post(i, row, Entry(ForWriteOff(i), lines));
    }

    method VoidInvoice(i: nat, read: Invoice) returns (refused: Option<Error>)
      requires i < |invoices|
      modifies this
      ensures Ends(CommitFrom(old(State()), Command.VoidInvoice(i), read), old(State()), State(), refused)
    {
      if !read.status.Draft? && !read.status.Approved? && !read.status.Sent? { return Some(InvalidStatus); }
      if invoices[i].version != read.version { return Some(VersionConflict); }
      var row := invoices[i].(status := Void, balance := 0, baseBalance := 0, version := read.version + 1);
      if read.status.Draft? {
        invoices := invoices[i := row];
        return None;
      }
      var lines := [Dr(Revenue, read.subtotal, read.baseSubtotal)];
      if read.tax > 0 { lines := lines + [Dr(TaxPayable, read.tax, read.baseTax)]; }
      lines := lines + [Cr(Receivable, read.total, read.baseTotal)];
      assert lines == VoidEntry(i, read).lines;
      refused := Post(i, row, Entry(ForVoid(i), lines));
    }

    method MarkDelivered(i: nat, now: nat) returns (refused: Option<Error>)
      modifies this
      ensures Ends(Step(old(State()), Deliver(i, now)), old(State()), State(), refused)
    {
      if i < |invoices| && i in outbox && invoices[i].sentAt == None {
        var inv := invoices[i];
        if inv.status.Approved? { inv := inv.(status := Sent); }
        invoices := invoices[i := inv.(sentAt := Some(now), version := inv.version + 1)];
      }
      return None;
    }

    // ---- Every request ----

    /** Whatever is asked, in one transaction: the books take exactly the specified step, and
        everything proved of runs keeps holding. */
    method Handle(c: Command) returns (refused: Option<Error>)
      requires Valid()
      modifies this
      ensures Ends(Step(old(State()), c), old(State()), State(), refused)
      ensures Valid()
    {
      ghost var b := State();
      refused := Dispatch(c);
      hide Step, Sound, Reconciled, JournalOk;
      if refused == None {
        StepKeeps(b, c, State());
        StepsInStep(b, c, State());
        KeepsReconciled(b, State());
        StepKeepsJournal(b, c, State());
      }
    }

    method Dispatch(c: Command) returns (refused: Option<Error>)
      modifies this
      ensures Ends(Step(old(State()), c), old(State()), State(), refused)
    {
      match c {
        case Create(creator, customer, currency, quote, items, dueDate, outstanding) =>
          refused := CreateInvoice(creator, customer, currency, quote, items, dueDate, outstanding);
        case Pay(customer, currency, quote, amount, mode) =>
          refused := CreatePayment(customer, currency, quote, amount, mode);
        case Credit(i, user, amount, includeTax) => refused := CreateCreditMemo(i, user, amount, includeTax);
        case Deliver(i, now) => refused := MarkDelivered(i, now);
        case Patch(i, ifMatch, newCurrency, quote, newItems, dueDate, outstanding) =>
          if newItems == Some([]) { return Some(InvalidRequest); }
          if i >= |invoices| { return Some(NotFound); }
          refused := UpdateInvoice(i, ifMatch, newCurrency, quote, newItems, dueDate, outstanding, invoices[i]);
        case Approve(i, ifMatch, user) =>
          if i >= |invoices| { return Some(NotFound); }
          refused := ApproveInvoice(i, ifMatch, user, invoices[i]);
        case Reject(i, ifMatch, user) =>
          if i >= |invoices| { return Some(NotFound); }
          refused := RejectInvoice(i, ifMatch, user, invoices[i]);
        case WriteOff(i) =>
          if i >= |invoices| { return Some(NotFound); }
          refused := WriteOffInvoice(i, invoices[i]);
        case VoidInvoice(i) =>
          if i >= |invoices| { return Some(NotFound); }
          refused := VoidInvoice(i, invoices[i]);
      }
    }
  }

  lemma KeepsReconciled(b: Books, b': Books)
    requires Reconciled(b) && InStep(b, b')
    ensures Reconciled(b')
  {}

  lemma FiguresWithin(inv: Invoice, split: TaxSplit.Split, amount: nat)
    requires split.tax >= 0
    ensures var f := FiguresFor(inv, split, amount); f.arCredit <= inv.balance && f.baseArCredit <= inv.baseBalance
  {
    hide ToBaseEven;
  }

  lemma PouredArePositive(balances: seq<int>, payment: int, amounts: seq<int>)
    requires Fifo.OldestFirst(balances, payment, amounts)
    ensures |amounts| <= |balances| && forall n :: 0 <= n < |amounts| ==> amounts[n] >= 0
  {}

  /** The request is refused for its first bad item, whatever follows. */
  lemma {:induction false} FirstBadItem(b: Books, customer: nat, currency: string, items: seq<Item>, n: nat)
    requires n <= |items| && CheckItems(b, customer, currency, items[..n]).Some?
    ensures CheckItems(b, customer, currency, items) == CheckItems(b, customer, currency, items[..n])
  {
    if n == |items| {
      assert items[..n] == items;
    } else {
      assert items[..|items| - 1][..n] == items[..n];
      FirstBadItem(b, customer, currency, items[..|items| - 1], n);
    }
  }
}
