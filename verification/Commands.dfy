/** What each handler does to the books when it runs as one transaction. */
module Commands {
  import opened Money
  import opened Sums
  import opened Books
  import opened TaxSplit
  import Fifo

  datatype Error =
    | InvalidRequest | NotFound | RateUnavailable | VersionConflict | InvalidStatus | SoxViolation
    | CreditLimitExceeded | NoOpenInvoices | InvoiceNotPayable | AllocationExceedsBalance
    | InvalidAmount | AmountExceedsCreditable | CreditComponentExceeded | NoOutstandingBalance
    | ConstraintViolation  // a CHECK or UNIQUE constraint rolled the transaction back
    | NotTheQueryResult    // `order` is not what the database can have returned

  datatype Result<+T> = Ok(value: T) | Err(error: Error)

  datatype LineTotals = LineTotals(subtotal: nat, tax: nat)
  datatype Item = Item(invoice: nat, amount: nat)
  datatype Mode = Auto(order: seq<nat>) | Manual(items: seq<Item>)

  /** A request with what its look-ups returned: `quote` is the approved rate, `order` the rows an
      AUTO payment locks, `outstanding` the customer's exposure.  The exposure is summed before the
      row is written and without a lock, so it may be out of date by then. */
  datatype Command =
    | Create(creator: nat, customer: nat, currency: string, quote: Option<nat>, items: seq<LineTotals>, dueDate: int,
             outstanding: int)
    | Patch(i: nat, ifMatch: nat, newCurrency: Option<string>, quote: Option<nat>,
            newItems: Option<seq<LineTotals>>, dueDate: int, outstanding: int)
    | Approve(i: nat, ifMatch: nat, user: nat)
    | Reject(i: nat, ifMatch: nat, user: nat)
    | Pay(customer: nat, currency: string, quote: Option<nat>, amount: nat, mode: Mode)
    | Credit(i: nat, user: nat, amount: nat, includeTax: bool)
    | WriteOff(i: nat)
    | VoidInvoice(i: nat)
    | Deliver(i: nat, now: nat)

  // ---- Shared pieces ----

  function SubtotalOf(items: seq<LineTotals>): nat {
    if items == [] then 0 else SubtotalOf(items[..|items| - 1]) + items[|items| - 1].subtotal
  }

  function TaxOf(items: seq<LineTotals>): nat {
    if items == [] then 0 else TaxOf(items[..|items| - 1]) + items[|items| - 1].tax
  }

  /** The rate locked into a document: one in the base currency, otherwise the approved quote. */
  function LockedRate(b: Books, currency: string, quote: Option<nat>): Result<nat> {
    if currency == b.baseCurrency then Ok(RATE_ONE)
    else match quote
         case Some(rate) => if rate > 0 then Ok(rate) else Err(RateUnavailable)
         case None => Err(RateUnavailable)
  }

  /** The header amounts an invoice takes from its lines and its locked rate. */
  function Priced(inv: Invoice, currency: string, rate: nat, subtotal: nat, tax: nat, dueDate: int): Invoice {
    var baseSubtotal, baseTax := ToBase(subtotal, rate), ToBase(tax, rate);
    inv.(currency := currency, rate := rate, dueDate := dueDate,
         subtotal := subtotal, tax := tax, total := subtotal + tax, balance := subtotal + tax,
         baseSubtotal := baseSubtotal, baseTax := baseTax,
         baseTotal := baseSubtotal + baseTax, baseBalance := baseSubtotal + baseTax)
  }

  function NewInvoice(creator: nat, customer: nat): Invoice {
    Invoice(Draft, 1, creator, customer, "", 1, 0, 0, 0, 0, 0, 0, 0, 0, 0, None)
  }

  predicate OverLimit(b: Books, customer: nat, outstanding: int, amount: nat)
    requires customer in b.customers
  {
    var limit := b.customers[customer].creditLimit;
    limit > 0 && outstanding + amount > limit
  }

  /** What the exposure query of a create or a patch would return now. */
  function Outstanding(b: Books, c: Command): int {
    match c
    case Create(_, customer, _, _, _, _, _) => Exposure(b.invoices, customer, None)
    case Patch(i, _, _, _, _, _, _) =>
      if i < |b.invoices| then Exposure(b.invoices, b.invoices[i].customer, Some(i)) else 0
    case _ => 0
  }

  predicate AllPostable(lines: seq<Line>) {
    forall n | 0 <= n < |lines| :: lines[n].Postable()
  }

  /** Commit one changed invoice row with its journal entry, if the database accepts the lines. */
  function Commit(b: Books, i: nat, row: Invoice, entry: Entry): Result<Books>
    requires i < |b.invoices|
  {
    if AllPostable(entry.lines) then Ok(b.(invoices := b.invoices[i := row], journal := b.journal + [entry]))
    else Err(ConstraintViolation)
  }

  // ---- POST /invoices, PATCH /invoices/{id} ----

  function CreateInvoice(b: Books, c: Command): Result<Books>
    requires c.Create?
  {
    if c.items == [] then Err(InvalidRequest)
    else if c.customer !in b.customers || !b.customers[c.customer].active then Err(NotFound)
    else match LockedRate(b, c.currency, c.quote)
      case Err(e) => Err(e)
      case Ok(rate) =>
        var row := Priced(NewInvoice(c.creator, c.customer), c.currency, rate,
                          SubtotalOf(c.items), TaxOf(c.items), c.dueDate);
        if OverLimit(b, c.customer, c.outstanding, row.baseTotal) then Err(CreditLimitExceeded)
        else Ok(b.(invoices := b.invoices + [row]))
  }

  /** The UPDATE ... WHERE version = :read AND status = 'DRAFT' shared by patch, approve, reject. */
  predicate Claims(b: Books, i: nat, read: Invoice)
    requires i < |b.invoices|
  {
    b.invoices[i].version == read.version && b.invoices[i].status.Draft?
  }

  /** Optimistic-locking checks made on the row as it was read. */
  function CheckDraft(read: Invoice, ifMatch: nat): Option<Error> {
    if read.version != ifMatch then Some(VersionConflict)
    else if !read.status.Draft? then Some(InvalidStatus)
    else None
  }

  function PatchInvoice(b: Books, c: Command, read: Invoice): Result<Books>
    requires c.Patch? && c.i < |b.invoices|
  {
    var bad := CheckDraft(read, c.ifMatch);
    if bad.Some? then Err(bad.value)
    else
      var currency := if c.newCurrency.Some? then c.newCurrency.value else read.currency;
      var subtotal := if c.newItems.Some? then SubtotalOf(c.newItems.value) else read.subtotal;
      var tax := if c.newItems.Some? then TaxOf(c.newItems.value) else read.tax;
      match LockedRate(b, currency, c.quote)
      case Err(e) => Err(e)
      case Ok(rate) =>
        var cur := b.invoices[c.i];
        var row := Priced(cur, currency, rate, subtotal, tax, c.dueDate).(version := cur.version + 1);
        if read.customer !in b.customers then Err(NotFound)
        else if OverLimit(b, read.customer, c.outstanding, row.baseTotal) then Err(CreditLimitExceeded)
        else if !Claims(b, c.i, read) then Err(VersionConflict)
        else Ok(b.(invoices := b.invoices[c.i := row]))
  }

  // ---- POST /invoices/{id}/approve ----

  function ApprovalEntry(i: nat, read: Invoice): Entry {
    Entry(ForInvoice(i),
          [Dr(Receivable, read.total, read.baseTotal)]
          + [Cr(Revenue, read.subtotal, read.baseSubtotal)]
          + Only(read.tax > 0, Cr(TaxPayable, read.tax, read.baseTax))
          + [])
  }

  /** The amounts posted are those read; the row updated is the one found at commit. */
  function ApproveInvoice(b: Books, c: Command, read: Invoice): Result<Books>
    requires c.Approve? && c.i < |b.invoices|
  {
    var bad := CheckDraft(read, c.ifMatch);
    if bad.Some? then Err(bad.value)
    else if read.creator == c.user then Err(SoxViolation)
    else if !Claims(b, c.i, read) then Err(VersionConflict)
    else if c.i in b.outbox then Err(ConstraintViolation)  // delivery_outbox_event_unique
    else
      var cur := b.invoices[c.i];
      match Commit(b, c.i, cur.(status := Approved, version := cur.version + 1), ApprovalEntry(c.i, read))
      case Err(e) => Err(e)
      case Ok(b') => Ok(b'.(outbox := b'.outbox + [c.i]))
  }

  function RejectInvoice(b: Books, c: Command, read: Invoice): Result<Books>
    requires c.Reject? && c.i < |b.invoices|
  {
    var bad := CheckDraft(read, c.ifMatch);
    if bad.Some? then Err(bad.value)
    else if read.creator == c.user then Err(SoxViolation)
    else if !Claims(b, c.i, read) then Err(VersionConflict)
    else
      var cur := b.invoices[c.i];
      Ok(b.(invoices := b.invoices[c.i := cur.(version := cur.version + 1)]))
  }

  // ---- POST /payments ----

  predicate Payable(b: Books, i: nat, customer: nat, currency: string) {
    && i < |b.invoices|
    && b.invoices[i].customer == customer && b.invoices[i].currency == currency
    && b.invoices[i].Open()
  }

  /** The rows and the order the AUTO query may return; ties on the due date go either way. */
  predicate FifoOrder(b: Books, customer: nat, currency: string, order: seq<nat>) {
    && (forall n | 0 <= n < |order| ::
          Payable(b, order[n], customer, currency) && b.invoices[order[n]].balance > 0)
    && (forall m, n | 0 <= m < n < |order| ::
          order[m] != order[n] && b.invoices[order[m]].dueDate <= b.invoices[order[n]].dueDate)
    && (forall i | 0 <= i < |b.invoices| ::
          Payable(b, i, customer, currency) && b.invoices[i].balance > 0 ==> i in order)
  }

  function BalancesOf(b: Books, order: seq<nat>): seq<int>
    requires forall n | 0 <= n < |order| :: order[n] < |b.invoices|
  {
    seq(|order|, n requires 0 <= n < |order| => b.invoices[order[n]].balance)
  }

  function ItemsOf(order: seq<nat>, amounts: seq<int>): seq<Item>
    requires |amounts| <= |order|
    requires forall n | 0 <= n < |amounts| :: amounts[n] >= 0
  {
    seq(|amounts|, n requires 0 <= n < |amounts| => Item(order[n], amounts[n]))
  }

  function AutoItems(b: Books, customer: nat, currency: string, amount: nat, order: seq<nat>): Result<seq<Item>> {
    if !FifoOrder(b, customer, currency, order) then Err(NotTheQueryResult)
    else if order == [] then Err(NoOpenInvoices)
    else
      Fifo.PourShape(BalancesOf(b, order), amount);
      Ok(ItemsOf(order, Fifo.Pour(BalancesOf(b, order), amount)))
  }

  function ItemTotal(items: seq<Item>): nat {
    if items == [] then 0 else ItemTotal(items[..|items| - 1]) + items[|items| - 1].amount
  }

  /** The MANUAL checks, in order; each one sees the balance before the payment. */
  function CheckItems(b: Books, customer: nat, currency: string, items: seq<Item>): Option<Error> {
    if items == [] then None
    else
      var earlier := CheckItems(b, customer, currency, items[..|items| - 1]);
      var it := items[|items| - 1];
      if earlier.Some? then earlier
      else if !Payable(b, it.invoice, customer, currency) then Some(InvoiceNotPayable)
      else if it.amount > b.invoices[it.invoice].balance then Some(AllocationExceedsBalance)
      else None
  }

  /** The request model of MANUAL payments. */
  predicate ValidManual(amount: nat, items: seq<Item>) {
    && items != []
    && (forall n | 0 <= n < |items| :: items[n].amount > 0)
    && ItemTotal(items) <= amount
  }

  function ManualItems(b: Books, customer: nat, currency: string, items: seq<Item>): Result<seq<Item>> {
    var bad := CheckItems(b, customer, currency, items);
    if bad.Some? then Err(bad.value) else Ok(items)
  }

  /** allocation_unique */
  predicate Distinct(items: seq<Item>) {
    forall m, n | 0 <= m < n < |items| :: items[m].invoice != items[n].invoice
  }

  /** The carrying value an allocation clears: what is left of it when the balance is paid off. */
  function CarryingPart(inv: Invoice, amount: nat): (r: nat)
    ensures r <= inv.baseBalance
  {
    if amount == inv.balance then inv.baseBalance else Min(ToBase(amount, inv.rate), inv.baseBalance)
  }

  /** Separately converted allocations. */
  function Converted(items: seq<Item>, rate: nat): seq<int> {
    seq(|items|, n requires 0 <= n < |items| => ToBase(items[n].amount, rate))
  }

  /** ... with the rounding residual moved onto the last one, so that they add up to `target`. */
  function BaseParts(items: seq<Item>, rate: nat, target: int): (parts: seq<int>)
    ensures |parts| == |items|
  {
    if items == [] then []
    else
      var others := Converted(items[..|items| - 1], rate);
      others + [target - Sum(others)]
  }

  predicate WithinBalances(b: Books, items: seq<Item>) {
    forall n | 0 <= n < |items| ::
      items[n].invoice < |b.invoices| && items[n].amount <= b.invoices[items[n].invoice].balance
  }

  function AllocationsFor(b: Books, items: seq<Item>, parts: seq<int>): seq<Allocation>
    requires |parts| == |items| && WithinBalances(b, items)
  {
    seq(|items|, n requires 0 <= n < |items| =>
      var it := items[n];
      Allocation(it.invoice, it.amount, parts[n], CarryingPart(b.invoices[it.invoice], it.amount)))
  }

  /** One allocation's effect on its invoice. */
  function Settled(inv: Invoice, amount: nat): Invoice
    requires amount <= inv.balance
  {
    var after := inv.balance - amount;
    inv.(balance := after, baseBalance := inv.baseBalance - CarryingPart(inv, amount),
         status := if after == 0 then Paid else if after < inv.total then PartiallyPaid else inv.status,
         version := inv.version + 1)
  }

  /** The invoice table after every allocation. */
  function SettleAll(b: Books, items: seq<Item>): (r: seq<Invoice>)
    requires WithinBalances(b, items)
    ensures |r| == |b.invoices|
  {
    if items == [] then b.invoices
    else
      var it := items[|items| - 1];
      SettleAll(b, items[..|items| - 1])[it.invoice := Settled(b.invoices[it.invoice], it.amount)]
  }

  function PaymentLines(p: Payment): seq<Line> {
    var cleared, fx := Cleared(p.allocations, Transaction), FxGain(p.allocations);
    [Dr(Cash, p.amount, p.baseAmount)]
    + Only(cleared > 0, Cr(Receivable, cleared, Cleared(p.allocations, Base)))
    + Only(p.unallocated > 0, Cr(CustomerCredit, p.unallocated, p.baseUnallocated))
    + Only(fx != 0, Line(FxGainLoss, 0, 0, Max(-fx, 0), Max(fx, 0)))
  }

  function PaymentFor(b: Books, c: Command, rate: nat, items: seq<Item>): Payment
    requires c.Pay? && WithinBalances(b, items) && ItemTotal(items) <= c.amount
  {
    var over := c.amount - ItemTotal(items);
    var baseAmount, baseOver := ToBase(c.amount, rate), ToBase(over, rate);
    Payment(c.customer, c.currency, rate, c.amount, baseAmount, over, baseOver,
            AllocationsFor(b, items, BaseParts(items, rate, baseAmount - baseOver)))
  }

  function SettlePayment(b: Books, c: Command, rate: nat, items: seq<Item>): Result<Books>
    requires c.Pay? && WithinBalances(b, items) && ItemTotal(items) <= c.amount
  {
    var p := PaymentFor(b, c, rate, items);
    if !Distinct(items) || (exists n | 0 <= n < |items| :: !p.allocations[n].Valid())
       || !AllPostable(PaymentLines(p)) then Err(ConstraintViolation)
    else Ok(b.(invoices := SettleAll(b, items), journal := b.journal + [Entry(ForPayment(p), PaymentLines(p))]))
  }

  function CreatePayment(b: Books, c: Command): Result<Books>
    requires c.Pay?
  {
    if c.amount == 0 || (c.mode.Manual? && !ValidManual(c.amount, c.mode.items)) then Err(InvalidRequest)
    else if c.customer !in b.customers || !b.customers[c.customer].active then Err(NotFound)
    else match LockedRate(b, c.currency, c.quote)
      case Err(e) => Err(e)
      case Ok(rate) =>
        match (match c.mode
               case Auto(order) => AutoItems(b, c.customer, c.currency, c.amount, order)
               case Manual(items) => ManualItems(b, c.customer, c.currency, items))
        case Err(e) => Err(e)
        case Ok(items) =>
          ItemsFit(b, c, items);
          SettlePayment(b, c, rate, items)
  }

  // ---- POST /invoices/{id}/credit-memos ----

  /** The amounts a credit memo works out before it posts anything. */
  datatype Figures = Figures(
    subtotalCredit: int, taxCredit: int, arCredit: nat, customerCredit: nat,
    baseCredit: nat, baseTaxCredit: nat, baseArCredit: nat)
  {
    function BaseCustomerCredit(): int { baseCredit - baseArCredit }
  }

  /** What earlier memos have left to credit, read back from the journal. */
  function RemainingOn(b: Books, i: nat): Remaining
    requires i < |b.invoices|
  {
    Remaining(Max(b.invoices[i].subtotal - Tally(b.journal, Reversed(i, Revenue)), 0),
              Max(b.invoices[i].tax - Tally(b.journal, Reversed(i, TaxPayable)), 0))
  }

  function FiguresFor(inv: Invoice, split: Split, amount: nat): Figures
    requires split.tax >= 0
  {
    var arCredit := Min(amount, inv.balance);
    Figures(split.subtotal, split.tax, arCredit, amount - arCredit,
            ToBaseEven(amount, inv.rate), ToBaseEven(split.tax, inv.rate),
            if arCredit == inv.balance then inv.baseBalance
            else Min(ToBaseEven(arCredit, inv.rate), inv.baseBalance))
  }

  function MemoLines(f: Figures): seq<Line> {
    [Dr(Revenue, f.subtotalCredit, f.baseCredit - f.baseTaxCredit)]
    + Only(f.taxCredit > 0, Dr(TaxPayable, f.taxCredit, f.baseTaxCredit))
    + Only(f.arCredit > 0, Cr(Receivable, f.arCredit, f.baseArCredit))
    + Only(f.customerCredit > 0, Cr(CustomerCredit, f.customerCredit, f.BaseCustomerCredit()))
  }

  function CreditApplied(inv: Invoice, f: Figures): Invoice
    requires f.arCredit <= inv.balance && f.baseArCredit <= inv.baseBalance
  {
    inv.(balance := inv.balance - f.arCredit, baseBalance := inv.baseBalance - f.baseArCredit,
         status := if inv.balance == f.arCredit then Paid else inv.status,
         version := inv.version + 1)
  }

  function CreateCreditMemo(b: Books, c: Command): Result<Books>
    requires c.Credit?
  {
    if c.amount == 0 then Err(InvalidAmount)
    else if c.i >= |b.invoices| then Err(NotFound)
    else
      var inv := b.invoices[c.i];
      if !inv.Open() && !inv.status.Paid? then Err(InvalidStatus)
      else if inv.creator == c.user then Err(SoxViolation)
      else
        var left := RemainingOn(b, c.i);
        if c.amount > left.Creditable() then Err(AmountExceedsCreditable)
        else
          var split := SplitCredit(left, c.amount, c.includeTax);
          InclusiveCreditFits(left, c.amount);
          if ComponentExceeded(left, split) then Err(CreditComponentExceeded)
          else
            var f := FiguresFor(inv, split, c.amount);
            Commit(b, c.i, CreditApplied(inv, f),
                   Entry(ForCreditMemo(Memo(c.i, c.amount, f.baseCredit)), MemoLines(f)))
  }

  // ---- POST /invoices/{id}/writeoff, /void ----

  function WriteOffEntry(i: nat, read: Invoice): Entry {
    Entry(ForWriteOff(i),
          [Dr(BadDebt, read.balance, read.baseBalance)] + [Cr(Receivable, read.balance, read.baseBalance)] + [] + [])
  }

  function WriteOffInvoice(b: Books, c: Command, read: Invoice): Result<Books>
    requires c.WriteOff? && c.i < |b.invoices|
  {
    if !read.Open() then Err(InvalidStatus)
    else if read.balance == 0 then Err(NoOutstandingBalance)
    else Commit(b, c.i,
                b.invoices[c.i].(status := WrittenOff, balance := 0, baseBalance := 0, version := read.version + 1),
                WriteOffEntry(c.i, read))
  }

  function VoidEntry(i: nat, read: Invoice): Entry {
    Entry(ForVoid(i),
          [Dr(Revenue, read.subtotal, read.baseSubtotal)]
          + Only(read.tax > 0, Dr(TaxPayable, read.tax, read.baseTax))
          + [Cr(Receivable, read.total, read.baseTotal)]
          + [])
  }

  /** A void reads and updates in REPEATABLE READ: it fails if the row has moved on. */
  function VoidTheInvoice(b: Books, c: Command, read: Invoice): Result<Books>
    requires c.VoidInvoice? && c.i < |b.invoices|
  {
    if !read.status.Draft? && !read.status.Approved? && !read.status.Sent? then Err(InvalidStatus)
    else if b.invoices[c.i].version != read.version then Err(VersionConflict)
    else
      var row := b.invoices[c.i].(status := Void, balance := 0, baseBalance := 0, version := read.version + 1);
      if read.status.Draft? then Ok(b.(invoices := b.invoices[c.i := row]))
      else Commit(b, c.i, row, VoidEntry(c.i, read))
  }

  // ---- The invoice half of mark_delivered ----

  function MarkSent(inv: Invoice, now: nat): Invoice {
    if inv.sentAt.Some? then inv
    else inv.(status := if inv.status.Approved? then Sent else inv.status,
              sentAt := Some(now), version := inv.version + 1)
  }

  function DeliverInvoice(b: Books, c: Command): Result<Books>
    requires c.Deliver?
  {
    // only an approved invoice has an outbox event that can be marked delivered
    if c.i >= |b.invoices| || c.i !in b.outbox then Ok(b)
    else Ok(b.(invoices := b.invoices[c.i := MarkSent(b.invoices[c.i], c.now)]))
  }

  // ---- One step, and runs ----

  /** The handlers that read the row first and claim it at commit. */
  predicate ReadsFirst(c: Command) {
    c.Patch? || c.Approve? || c.Reject? || c.WriteOff? || c.VoidInvoice?
  }

  /** Such a handler, having read the row `read`. */
  function CommitFrom(b: Books, c: Command, read: Invoice): Result<Books>
    requires ReadsFirst(c) && c.i < |b.invoices|
  {
    match c
    case Patch(_, _, _, _, _, _, _) => PatchInvoice(b, c, read)
    case Approve(_, _, _) => ApproveInvoice(b, c, read)
    case Reject(_, _, _) => RejectInvoice(b, c, read)
    case WriteOff(_) => WriteOffInvoice(b, c, read)
    case VoidInvoice(_) => VoidTheInvoice(b, c, read)
  }

  function Step(b: Books, c: Command): Result<Books> {
    match c
    case Create(_, _, _, _, _, _, _) => CreateInvoice(b, c)
    case Pay(_, _, _, _, _) => CreatePayment(b, c)
    case Credit(_, _, _, _) => CreateCreditMemo(b, c)
    case Deliver(_, _) => DeliverInvoice(b, c)
    case _ =>
      if c.Patch? && c.newItems == Some([]) then Err(InvalidRequest)
      else if c.i >= |b.invoices| then Err(NotFound) else CommitFrom(b, c, b.invoices[c.i])
  }

  function Empty(baseCurrency: string, customers: map<nat, Customer>): Books {
    Books(baseCurrency, customers, [], [], [])
  }

  /** A refused command leaves the books as they were. */
  function Run(start: Books, commands: seq<Command>): Books {
    if commands == [] then start
    else
      var b := Run(start, commands[..|commands| - 1]);
      var r := Step(b, commands[|commands| - 1]);
      if r.Ok? then r.value else b
  }

  // ---- Both allocation modes hand over items the payment can settle ----

  lemma {:induction false} CheckedItemsFit(b: Books, customer: nat, currency: string, items: seq<Item>)
    requires CheckItems(b, customer, currency, items).None?
    ensures WithinBalances(b, items)
    ensures forall n :: 0 <= n < |items| ==> Payable(b, items[n].invoice, customer, currency)
  {
    if items != [] {
      CheckedItemsFit(b, customer, currency, items[..|items| - 1]);
    }
  }

  lemma {:induction false} ItemTotalIsSum(order: seq<nat>, amounts: seq<int>)
    requires |amounts| <= |order|
    requires forall n :: 0 <= n < |amounts| ==> amounts[n] >= 0
    ensures ItemTotal(ItemsOf(order, amounts)) == Sum(amounts)
  {
    if amounts != [] {
      var n := |amounts| - 1;
      ItemTotalIsSum(order, amounts[..n]);
      assert ItemsOf(order, amounts)[..n] == ItemsOf(order, amounts[..n]);
    }
  }

  lemma ItemsFit(b: Books, c: Command, items: seq<Item>)
    requires c.Pay? && c.amount > 0
    requires c.mode.Manual? ==> ValidManual(c.amount, c.mode.items)
    requires match c.mode
             case Auto(order) => AutoItems(b, c.customer, c.currency, c.amount, order) == Ok(items)
             case Manual(manual) => ManualItems(b, c.customer, c.currency, manual) == Ok(items)
    ensures WithinBalances(b, items) && ItemTotal(items) <= c.amount && items != []
    ensures forall n :: 0 <= n < |items| ==>
              items[n].amount > 0 && Payable(b, items[n].invoice, c.customer, c.currency)
    ensures c.mode.Auto? ==> Distinct(items)
  {
    hide AutoItems, Payable;
    match c.mode
    case Manual(manual) => CheckedItemsFit(b, c.customer, c.currency, items);
    case Auto(order) => AutoItemsFit(b, c, order, items);
  }

  lemma AutoItemsFit(b: Books, c: Command, order: seq<nat>, items: seq<Item>)
    requires c.Pay? && c.amount > 0
    requires AutoItems(b, c.customer, c.currency, c.amount, order) == Ok(items)
    ensures WithinBalances(b, items) && ItemTotal(items) <= c.amount && items != [] && Distinct(items)
    ensures forall n :: 0 <= n < |items| ==>
              items[n].amount > 0 && Payable(b, items[n].invoice, c.customer, c.currency)
  {
    hide Fifo.Pour, Sum, ItemTotal;
    var balances := BalancesOf(b, order);
    Fifo.PourShape(balances, c.amount);
    Fifo.PositiveSum(balances);
    var amounts := Fifo.Pour(balances, c.amount);
    Fifo.EmptySum();
    assert Sum(amounts) > 0;
    ItemTotalIsSum(order, amounts);
    assert items == ItemsOf(order, amounts);
  }
}
