/** What each successful request does, told from the books before and after it alone: which row is
    written and with what amounts, which account is debited and which credited, and which invoices
    an AUTO payment reaches. */
module Effects {
  import opened Money
  import opened Sums
  import opened Books
  import opened Commands
  import opened Postings
  import opened Rows
  import opened Steps
  import opened Reconciliation
  import Balancing
  import Fifo
  import TaxSplit

  // ---- Drafts ----

  /** `base` is `amount` at `rate`, ties rounded up. */
  ghost predicate ConvertsTo(amount: int, rate: int, base: int) {
    -SCALE <= 2 * (amount * rate - base * SCALE) < SCALE
  }

  ghost predicate Amounts(row: Invoice, subtotal: int, tax: int) {
    && row.subtotal == subtotal && row.tax == tax && row.total == row.balance == subtotal + tax
    && ConvertsTo(subtotal, row.rate, row.baseSubtotal) && ConvertsTo(tax, row.rate, row.baseTax)
    && row.baseTotal == row.baseBalance == row.baseSubtotal + row.baseTax
  }

  /** The rate a document gets: one in the base currency, elsewhere the quote, and that is positive. */
  ghost predicate RatedAt(b: Books, currency: string, quote: Option<nat>, rate: nat) {
    rate > 0 && if currency == b.baseCurrency then rate == RATE_ONE else quote == Some(rate)
  }

  function Subtotals(items: seq<LineTotals>): seq<int> {
    seq(|items|, n requires 0 <= n < |items| => items[n].subtotal)
  }

  function Taxes(items: seq<LineTotals>): seq<int> {
    seq(|items|, n requires 0 <= n < |items| => items[n].tax)
  }

  lemma {:induction false} LinesAddUp(items: seq<LineTotals>)
    ensures SubtotalOf(items) == Sum(Subtotals(items)) && TaxOf(items) == Sum(Taxes(items))
  {
    if items != [] {
      var n := |items| - 1;
      LinesAddUp(items[..n]);
      assert Subtotals(items)[..n] == Subtotals(items[..n]) && Taxes(items)[..n] == Taxes(items[..n]);
    }
  }

  lemma PricedAmounts(inv: Invoice, currency: string, rate: nat, subtotal: nat, tax: nat, dueDate: int)
    ensures Amounts(Commands.Priced(inv, currency, rate, subtotal, tax, dueDate), subtotal, tax)
  {
    Product(subtotal, rate);
    Product(tax, rate);
    HalfUpIsNearest(subtotal * rate, ToBase(subtotal, rate));
    HalfUpIsNearest(tax * rate, ToBase(tax, rate));
    hide HalfUp;
  }

  /** Create adds one draft, priced by the sums over all its lines, and nothing else. */
  lemma CreateWrites(b: Books, c: Command, b': Books)
    requires c.Create? && Step(b, c) == Ok(b')
    ensures |b'.invoices| == |b.invoices| + 1 && b' == b.(invoices := b.invoices + [b'.invoices[|b.invoices|]])
    ensures var row := b'.invoices[|b.invoices|];
            && Amounts(row, Sum(Subtotals(c.items)), Sum(Taxes(c.items)))
            && RatedAt(b, c.currency, c.quote, row.rate)
            && row.status.Draft? && row.version == 1 && row.creator == c.creator && row.customer == c.customer
            && row.currency == c.currency && row.dueDate == c.dueDate && row.sentAt.None?
  {
    LinesAddUp(c.items);
    var rate := LockedRate(b, c.currency, c.quote).value;
    PricedAmounts(NewInvoice(c.creator, c.customer), c.currency, rate, SubtotalOf(c.items), TaxOf(c.items), c.dueDate);
    hide ToBase, SubtotalOf, TaxOf, Sum, Amounts;
  }

  /** Patch rewrites one draft: from the sums over its new lines, or from the amounts it had. */
  lemma PatchWrites(b: Books, c: Command, b': Books)
    requires c.Patch? && Step(b, c) == Ok(b')
    ensures c.i < |b.invoices| == |b'.invoices| && b' == b.(invoices := b.invoices[c.i := b'.invoices[c.i]])
    ensures var was, row := b.invoices[c.i], b'.invoices[c.i];
            && (match c.newItems
                case Some(items) => Amounts(row, Sum(Subtotals(items)), Sum(Taxes(items)))
                case None => Amounts(row, was.subtotal, was.tax))
            && row.currency == (if c.newCurrency.Some? then c.newCurrency.value else was.currency)
            && RatedAt(b, row.currency, c.quote, row.rate)
            && was.status.Draft? && row.status.Draft? && was.version == c.ifMatch && row.version == was.version + 1
            && row.creator == was.creator && row.customer == was.customer && row.dueDate == c.dueDate
            && row.sentAt == was.sentAt
  {
    var was := b.invoices[c.i];
    var currency := if c.newCurrency.Some? then c.newCurrency.value else was.currency;
    var rate := LockedRate(b, currency, c.quote).value;
    var subtotal := if c.newItems.Some? then SubtotalOf(c.newItems.value) else was.subtotal;
    var tax := if c.newItems.Some? then TaxOf(c.newItems.value) else was.tax;
    if c.newItems.Some? { LinesAddUp(c.newItems.value); }
    PricedAmounts(was, currency, rate, subtotal, tax, c.dueDate);
    hide ToBase, SubtotalOf, TaxOf, Sum, ConvertsTo;
  }

  // ---- One invoice, one entry ----

  /** One row and one entry are written, and nothing else. */
  ghost predicate Writes(b: Books, i: nat, row: Invoice, document: Document, b': Books) {
    && i < |b.invoices| && b'.invoices == b.invoices[i := row]
    && |b'.journal| == |b.journal| + 1 && b'.journal[..|b.journal|] == b.journal
    && b'.journal[|b.journal|].document == document
    && b'.customers == b.customers && b'.baseCurrency == b.baseCurrency
  }

  lemma ApproveWrites(b: Books, c: Command, b': Books)
    requires Sound(b) && c.Approve? && Step(b, c) == Ok(b')
    ensures c.i < |b.invoices| && b'.outbox == b.outbox + [c.i]
    ensures var inv := b.invoices[c.i];
            && Writes(b, c.i, inv.(status := Approved, version := inv.version + 1), ForInvoice(c.i), b')
            && PostsSale(b'.journal[|b.journal|], inv)
  {
    hide Sound, ToBase, AllPostable, Entry.Posts, LineSum;
    var inv := b.invoices[c.i];
    Balancing.PricedRow(b, c.i);
    forall k { ApprovalPosting(c.i, inv, k); }
    assert ApprovalEntry(c.i, inv).document == ForInvoice(c.i);
    hide ApprovalEntry;
    assert b'.journal == b.journal + [ApprovalEntry(c.i, inv)];
  }

  /** A void takes back what the approval posted; a draft has nothing to take back. */
  lemma VoidWrites(b: Books, c: Command, b': Books)
    requires Sound(b) && c.VoidInvoice? && Step(b, c) == Ok(b')
    ensures c.i < |b.invoices| && b'.outbox == b.outbox
    ensures var inv := b.invoices[c.i];
            var row := inv.(status := Void, balance := 0, baseBalance := 0, version := inv.version + 1);
            if inv.status.Draft? then b' == b.(invoices := b.invoices[c.i := row])
            else
              && Writes(b, c.i, row, ForVoid(c.i), b')
              && forall k :: b'.journal[|b.journal|].Posts(k, map[Revenue := inv.Subtotal(k), TaxPayable := inv.Tax(k),
                                                                  Receivable := 0 - inv.Total(k)])
  {
    hide Sound, ToBase, AllPostable, Entry.Posts, LineSum;
    var inv := b.invoices[c.i];
    Balancing.PricedRow(b, c.i);
    forall k { VoidPosting(c.i, inv, k); }
    Documents(c.i, inv);
    hide VoidEntry;
  }

  lemma WriteOffWrites(b: Books, c: Command, b': Books)
    requires c.WriteOff? && Step(b, c) == Ok(b')
    ensures c.i < |b.invoices| && b'.outbox == b.outbox
    ensures var inv := b.invoices[c.i];
            && Writes(b, c.i, inv.(status := WrittenOff, balance := 0, baseBalance := 0, version := inv.version + 1),
                      ForWriteOff(c.i), b')
            && forall k :: b'.journal[|b.journal|].Posts(k, map[BadDebt := inv.Balance(k), Receivable := 0 - inv.Balance(k)])
  {
    hide AllPostable, Entry.Posts, LineSum;
    var inv := b.invoices[c.i];
    forall k { WriteOffPosting(c.i, inv, k); }
    Documents(c.i, inv);
    hide WriteOffEntry;
  }

  lemma RejectWrites(b: Books, c: Command, b': Books)
    requires c.Reject? && Step(b, c) == Ok(b')
    ensures c.i < |b.invoices|
    ensures b' == b.(invoices := b.invoices[c.i := b.invoices[c.i].(version := b.invoices[c.i].version + 1)])
  {}

  /** A delivery stamps an invoice once; only an APPROVED one changes status, whatever else it has become. */
  lemma DeliverWrites(b: Books, c: Command, b': Books)
    requires c.Deliver? && Step(b, c) == Ok(b') && c.i < |b.invoices|
    ensures var inv := b.invoices[c.i];
            b' == if c.i !in b.outbox || inv.sentAt.Some? then b
                  else b.(invoices := b.invoices[c.i := inv.(status := if inv.status.Approved? then Sent else inv.status,
                                                             sentAt := Some(c.now), version := inv.version + 1)])
  {
    assert b.invoices[c.i := b.invoices[c.i]] == b.invoices;
  }

  // ---- Payments ----

  function BalanceColumn(invoices: seq<Invoice>, k: Column): seq<int> {
    seq(|invoices|, i requires 0 <= i < |invoices| => invoices[i].Balance(k))
  }

  /** What the balances of the whole table fell by. */
  function Fall(b: Books, b': Books, k: Column): int {
    Sum(BalanceColumn(b.invoices, k)) - Sum(BalanceColumn(b'.invoices, k))
  }

  lemma SettledBalance(inv: Invoice, amount: nat)
    requires amount <= inv.balance
    ensures Settled(inv, amount).balance == inv.balance - amount
    ensures Settled(inv, amount).baseBalance == inv.baseBalance - CarryingPart(inv, amount)
  {
    hide CarryingPart;
  }

  lemma {:induction false} SettledFall(b: Books, items: seq<Item>, k: Column)
    requires WithinBalances(b, items) && Distinct(items)
    ensures Sum(BalanceColumn(SettleAll(b, items), k))
         == Sum(BalanceColumn(b.invoices, k)) - if k.Base? then CarryingTotal(b, items) else ItemTotal(items)
  {
    hide Settled, CarryingPart, Sum;
    if items != [] {
      var n := |items| - 1;
      var it := items[n];
      SettledFall(b, items[..n], k);
      SettledElsewhere(b, items[..n], it.invoice);
      SettledBalance(b.invoices[it.invoice], it.amount);
      SumChange(BalanceColumn(SettleAll(b, items[..n]), k), BalanceColumn(SettleAll(b, items), k), it.invoice);
    }
  }

  /** The entry of a payment: cash and customer credit at its own rate, AR by exactly what the
      balances of the table fell by, and the difference in base currency as FX. */
  ghost predicate PostsReceipt(e: Entry, amount: int, rate: int, cash: int, over: int, fall: int, baseFall: int) {
    && 0 < fall <= amount && ConvertsTo(amount, rate, cash) && ConvertsTo(amount - fall, rate, over)
    && e.Posts(Transaction, map[Cash := amount, Receivable := -fall, CustomerCredit := fall - amount])
    && e.Posts(Base, map[Cash := cash, Receivable := -baseFall, CustomerCredit := -over,
                         FxGainLoss := baseFall + over - cash])
  }

  lemma PayWrites(b: Books, c: Command, b': Books) returns (rate: nat, cash: int, over: int)
    requires c.Pay? && Step(b, c) == Ok(b')
    ensures RatedAt(b, c.currency, c.quote, rate)
    ensures |b'.journal| == |b.journal| + 1 && b'.journal[..|b.journal|] == b.journal
    ensures b' == b.(invoices := b'.invoices, journal := b'.journal) && |b'.invoices| == |b.invoices|
    ensures PostsReceipt(b'.journal[|b.journal|], c.amount, rate, cash, over,
                         Fall(b, b', Transaction), Fall(b, b', Base))
  {
    var items;
    rate, items := PaymentItems(b, c, b');
    hide *;
    SettlementShape(b, c, rate, items, b');
    forall k { SettledFall(b, items, k); }
    ReceiptPosted(b, c, rate, items);
    cash, over := PaymentFor(b, c, rate, items).baseAmount, PaymentFor(b, c, rate, items).baseUnallocated;
    LockedIsRated(b, c.currency, c.quote, rate);
    FallOf(b, b', items);
  }

  lemma FallOf(b: Books, b': Books, items: seq<Item>)
    requires WithinBalances(b, items) && b'.invoices == SettleAll(b, items)
    requires forall k :: Sum(BalanceColumn(SettleAll(b, items), k))
                      == Sum(BalanceColumn(b.invoices, k)) - if k.Base? then CarryingTotal(b, items) else ItemTotal(items)
    ensures Fall(b, b', Transaction) == ItemTotal(items) && Fall(b, b', Base) == CarryingTotal(b, items)
  {
    hide Sum, BalanceColumn, SettleAll, ItemTotal, CarryingTotal, WithinBalances;
  }

  lemma LockedIsRated(b: Books, currency: string, quote: Option<nat>, rate: nat)
    requires LockedRate(b, currency, quote) == Ok(rate)
    ensures RatedAt(b, currency, quote, rate)
  {}

  lemma SettlementShape(b: Books, c: Command, rate: nat, items: seq<Item>, b': Books)
    requires c.Pay? && WithinBalances(b, items) && ItemTotal(items) <= c.amount
    requires SettlePayment(b, c, rate, items) == Ok(b')
    ensures var p := PaymentFor(b, c, rate, items);
            && b' == b.(invoices := b'.invoices, journal := b'.journal)
            && b'.invoices == SettleAll(b, items) && |b'.invoices| == |b.invoices|
            && |b'.journal| == |b.journal| + 1 && b'.journal[..|b.journal|] == b.journal
            && b'.journal[|b.journal|] == Entry(ForPayment(p), PaymentLines(p))
  {
    hide PaymentFor, PaymentLines, SettleAll, AllPostable, ItemTotal, Distinct, WithinBalances;
  }

  lemma ReceiptPosted(b: Books, c: Command, rate: nat, items: seq<Item>)
    requires c.Pay? && WithinBalances(b, items) && ItemTotal(items) <= c.amount && items != []
    requires forall n :: 0 <= n < |items| ==> PaymentFor(b, c, rate, items).allocations[n].Valid()
    ensures var p := PaymentFor(b, c, rate, items);
            PostsReceipt(Entry(ForPayment(p), PaymentLines(p)), c.amount, rate, p.baseAmount, p.baseUnallocated,
                         ItemTotal(items), CarryingTotal(b, items))
  {
    hide CarryingPart, PaymentLines, BaseParts, ToBase, Cleared, FxGain, Entry.Posts, ItemTotal, LineSum, CarryingTotal;
    var p := PaymentFor(b, c, rate, items);
    ClearedPositive(p.allocations);
    ClearedIsCarryingTotal(b, items, BaseParts(items, rate, p.baseAmount - p.baseUnallocated));
    Balancing.PaymentFigures(b, c, rate, items);
    ZeroConverts(rate);
    ToBaseConverts(c.amount, rate);
    ToBaseConverts(c.amount - ItemTotal(items), rate);
    PaymentAccounts(p);
  }

  lemma ToBaseConverts(amount: nat, rate: nat)
    ensures ConvertsTo(amount, rate, ToBase(amount, rate))
  {
    Product(amount, rate);
    HalfUpIsNearest(amount * rate, ToBase(amount, rate));
    hide HalfUp;
  }

  /** What one invoice keeps after `cut` came off its balance: nothing once it is paid off, otherwise
      its base balance less the cut at its own rate, as far as there is as much. */
  ghost predicate Cut(inv: Invoice, inv': Invoice, cut: int) {
    && 0 < cut <= inv.balance && inv'.balance == inv.balance - cut
    && (cut == inv.balance ==> inv'.baseBalance == 0 && inv'.status.Paid?)
    && (cut < inv.balance && inv'.balance < inv.total ==> inv'.status.PartiallyPaid?)
    && (cut < inv.balance ==>
          exists part :: ConvertsTo(cut, inv.rate, part) && inv'.baseBalance == Max(inv.baseBalance - part, 0))
    && inv' == inv.(balance := inv'.balance, baseBalance := inv'.baseBalance, status := inv'.status, version := inv.version + 1)
  }

  lemma SettledIsCut(inv: Invoice, amount: nat)
    requires 0 < amount <= inv.balance
    ensures Cut(inv, Settled(inv, amount), amount)
  {
    ToBaseConverts(amount, inv.rate);
    hide ToBase, ConvertsTo;
  }

  predicate Names(items: seq<Item>, i: nat) { exists n | 0 <= n < |items| :: items[n].invoice == i }

  lemma SettledOrSame(b: Books, items: seq<Item>, i: nat) returns (n: nat)
    requires WithinBalances(b, items) && Distinct(items) && i < |b.invoices|
    requires forall n :: 0 <= n < |items| ==> items[n].amount > 0
    ensures if Names(items, i)
            then && n < |items| && items[n].invoice == i && Cut(b.invoices[i], SettleAll(b, items)[i], items[n].amount)
                 && SettleAll(b, items)[i].balance == b.invoices[i].balance - items[n].amount
            else SettleAll(b, items)[i] == b.invoices[i]
  {
    hide Cut, Settled, SettleAll;
    if Names(items, i) {
      n :| 0 <= n < |items| && items[n].invoice == i;
      SettledAt(b, items, n);
      SettledIsCut(b.invoices[i], items[n].amount);
      SettledBalance(b.invoices[i], items[n].amount);
    } else {
      n := 0;
      SettledElsewhere(b, items, i);
    }
  }

  /** Every invoice a payment touches is the payer's, open, in the payment's currency, and cut once;
      MANUAL touches exactly those it names, each by the amount named. */
  lemma PayCuts(b: Books, c: Command, b': Books, i: nat)
    requires c.Pay? && Step(b, c) == Ok(b') && i < |b.invoices|
    ensures |b'.invoices| == |b.invoices|
    ensures var inv, inv' := b.invoices[i], b'.invoices[i];
            inv' != inv ==>
              && inv.Open() && inv.customer == c.customer && inv.currency == c.currency
              && Cut(inv, inv', inv.balance - inv'.balance)
    ensures c.mode.Manual? ==>
              && (b'.invoices[i] != b.invoices[i] <==> Names(c.mode.items, i))
              && (forall n :: 0 <= n < |c.mode.items| && c.mode.items[n].invoice == i ==>
                    b.invoices[i].balance - b'.invoices[i].balance == c.mode.items[n].amount)
  {
    var rate, items := PaymentItems(b, c, b');
    hide Step, SettlePayment, PaymentFor, SettleAll, Cut, ItemTotal, AutoItems, WithinBalances, Payable, PaymentLines;
    SettlementShape(b, c, rate, items, b');
    var n := SettledOrSame(b, items, i);
    if Names(items, i) { PayableBy(b, items[n], c); }
    forall m | 0 <= m < |items| && items[m].invoice == i ensures m == n { assert Names(items, i); }
  }

  lemma PayableBy(b: Books, it: Item, c: Command)
    requires c.Pay? && Payable(b, it.invoice, c.customer, c.currency)
    ensures it.invoice < |b.invoices| && b.invoices[it.invoice].Open()
    ensures b.invoices[it.invoice].customer == c.customer && b.invoices[it.invoice].currency == c.currency
  {}

  // ---- AUTO ----

  /** An invoice an AUTO payment could settle. */
  predicate Eligible(b: Books, c: Command, i: nat)
    requires c.Pay?
  {
    && i < |b.invoices| && b.invoices[i].Open() && b.invoices[i].balance > 0
    && b.invoices[i].customer == c.customer && b.invoices[i].currency == c.currency
  }

  predicate Fell(b: Books, b': Books, i: nat) {
    i < |b.invoices| && i < |b'.invoices| && b'.invoices[i].balance < b.invoices[i].balance
  }

  /** Oldest first: an invoice is touched only once every eligible one due earlier is paid off, at most
      one is left partly paid, and money is left over only once every eligible one is paid off. */
  lemma AutoPaysOldestFirst(b: Books, c: Command, b': Books, i: nat, j: nat)
    requires c.Pay? && c.mode.Auto? && Step(b, c) == Ok(b')
    ensures |b'.invoices| == |b.invoices|
    ensures Eligible(b, c, i) && Fell(b, b', j) && b.invoices[i].dueDate < b.invoices[j].dueDate ==>
              b'.invoices[i].balance == 0
    ensures Fell(b, b', i) && Fell(b, b', j) && i != j ==>
              b'.invoices[i].balance == 0 || b'.invoices[j].balance == 0
    ensures Eligible(b, c, i) && Fall(b, b', Transaction) < c.amount ==> b'.invoices[i].balance == 0
  {
    var items, amounts := AutoSettles(b, c, b');
    SameLength(b, c, b', items, amounts);
    hide *;
    if Eligible(b, c, i) && Fell(b, b', j) && b.invoices[i].dueDate < b.invoices[j].dueDate {
      EarlierIsPaid(b, c, b', items, amounts, i, j);
    }
    if Fell(b, b', i) && Fell(b, b', j) && i != j { OneIsPaid(b, c, b', items, amounts, i, j); }
    if Eligible(b, c, i) && Fall(b, b', Transaction) < c.amount { AllArePaid(b, c, b', items, amounts, i); }
  }

  lemma SameLength(b: Books, c: Command, b': Books, items: seq<Item>, amounts: seq<int>)
    requires AutoShape(b, c, b', items, amounts)
    ensures |b'.invoices| == |b.invoices|
  {}

  /** The query's order, and what was poured over it. */
  ghost predicate AutoShape(b: Books, c: Command, b': Books, items: seq<Item>, amounts: seq<int>) {
    && c.Pay? && c.mode.Auto? && FifoOrder(b, c.customer, c.currency, c.mode.order)
    && |items| == |amounts| && Fifo.OldestFirst(BalancesOf(b, c.mode.order), c.amount, amounts)
    && (forall n :: 0 <= n < |items| ==> items[n] == Item(c.mode.order[n], amounts[n]))
    && WithinBalances(b, items) && Distinct(items) && b'.invoices == SettleAll(b, items)
    && (Fall(b, b', Transaction) < c.amount ==> amounts == BalancesOf(b, c.mode.order))
  }

  /** What AutoItems hands over. */
  ghost predicate Poured(b: Books, c: Command, items: seq<Item>, amounts: seq<int>) {
    && c.Pay? && c.mode.Auto? && FifoOrder(b, c.customer, c.currency, c.mode.order)
    && |items| == |amounts| && Fifo.OldestFirst(BalancesOf(b, c.mode.order), c.amount, amounts)
    && (forall n :: 0 <= n < |items| ==> items[n] == Item(c.mode.order[n], amounts[n]))
    && (ItemTotal(items) < c.amount ==> amounts == BalancesOf(b, c.mode.order))
  }

  lemma AutoPours(b: Books, c: Command, items: seq<Item>) returns (amounts: seq<int>)
    requires c.Pay? && c.mode.Auto? && AutoItems(b, c.customer, c.currency, c.amount, c.mode.order) == Ok(items)
    ensures Poured(b, c, items, amounts)
  {
    hide Sum, ItemTotal, Fifo.Pour;
    Fifo.PourShape(BalancesOf(b, c.mode.order), c.amount);
    amounts := Fifo.Pour(BalancesOf(b, c.mode.order), c.amount);
    assert items == ItemsOf(c.mode.order, amounts);
    ItemTotalIsSum(c.mode.order, amounts);
  }

  lemma AutoSettles(b: Books, c: Command, b': Books) returns (items: seq<Item>, amounts: seq<int>)
    requires c.Pay? && c.mode.Auto? && Step(b, c) == Ok(b')
    ensures AutoShape(b, c, b', items, amounts)
  {
    var rate;
    rate, items := PaymentItems(b, c, b');
    hide *;
    amounts := AutoPours(b, c, items);
    SettlementShape(b, c, rate, items, b');
    forall k { SettledFall(b, items, k); }
    FallOf(b, b', items);
    ShapeOf(b, c, b', items, amounts);
  }

  lemma ShapeOf(b: Books, c: Command, b': Books, items: seq<Item>, amounts: seq<int>)
    requires Poured(b, c, items, amounts) && WithinBalances(b, items) && Distinct(items)
    requires b'.invoices == SettleAll(b, items) && Fall(b, b', Transaction) == ItemTotal(items)
    ensures AutoShape(b, c, b', items, amounts)
  {
    hide ItemTotal, SettleAll, Fall, Distinct, WithinBalances, FifoOrder, Fifo.OldestFirst;
  }

  lemma AutoRow(b: Books, c: Command, b': Books, items: seq<Item>, amounts: seq<int>, n: nat)
    requires AutoShape(b, c, b', items, amounts) && n < |items|
    ensures c.mode.order[n] < |b.invoices| == |b'.invoices|
    ensures b'.invoices[c.mode.order[n]].balance == b.invoices[c.mode.order[n]].balance - amounts[n]
  {
    SettledAt(b, items, n);
    SettledBalance(b.invoices[items[n].invoice], items[n].amount);
    hide Settled, SettleAll, Fifo.OldestFirst, Fall;
  }

  lemma FellAt(b: Books, c: Command, b': Books, items: seq<Item>, amounts: seq<int>, j: nat) returns (n: nat)
    requires AutoShape(b, c, b', items, amounts) && Fell(b, b', j)
    ensures n < |items| && c.mode.order[n] == j
  {
    if n' :| 0 <= n' < |items| && items[n'].invoice == j {
      n := n';
    } else {
      SettledElsewhere(b, items, j);
    }
    hide SettleAll, Fall;
  }

  lemma EligibleAt(b: Books, c: Command, b': Books, items: seq<Item>, amounts: seq<int>, i: nat) returns (m: nat)
    requires AutoShape(b, c, b', items, amounts) && Eligible(b, c, i)
    ensures m < |c.mode.order| && c.mode.order[m] == i
  {
    hide SettleAll, Fall, Fifo.OldestFirst, Distinct, WithinBalances;
    assert i in c.mode.order;
    m :| 0 <= m < |c.mode.order| && c.mode.order[m] == i;
  }

  /** All but the last invoice reached are paid in full. */
  lemma PaidInFull(b: Books, c: Command, b': Books, items: seq<Item>, amounts: seq<int>, m: nat)
    requires AutoShape(b, c, b', items, amounts) && m + 1 < |items|
    ensures c.mode.order[m] < |b'.invoices| && b'.invoices[c.mode.order[m]].balance == 0
  {
    AutoRow(b, c, b', items, amounts, m);
    hide SettleAll, Fall, Distinct, WithinBalances, FifoOrder;
    assert amounts[m] == BalancesOf(b, c.mode.order)[m];
  }

  lemma EarlierIsPaid(b: Books, c: Command, b': Books, items: seq<Item>, amounts: seq<int>, i: nat, j: nat)
    requires AutoShape(b, c, b', items, amounts)
    requires Eligible(b, c, i) && Fell(b, b', j) && b.invoices[i].dueDate < b.invoices[j].dueDate
    ensures i < |b'.invoices| && b'.invoices[i].balance == 0
  {
    var n := FellAt(b, c, b', items, amounts, j);
    var m := EligibleAt(b, c, b', items, amounts, i);
    hide SettleAll, Fall, Distinct, WithinBalances, Fifo.OldestFirst, BalancesOf;
    PaidInFull(b, c, b', items, amounts, m);
  }

  lemma OneIsPaid(b: Books, c: Command, b': Books, items: seq<Item>, amounts: seq<int>, i: nat, j: nat)
    requires AutoShape(b, c, b', items, amounts) && Fell(b, b', i) && Fell(b, b', j) && i != j
    ensures b'.invoices[i].balance == 0 || b'.invoices[j].balance == 0
  {
    var m := FellAt(b, c, b', items, amounts, i);
    var n := FellAt(b, c, b', items, amounts, j);
    hide AutoShape;
    PaidInFull(b, c, b', items, amounts, if m < n then m else n);
  }

  lemma AllArePaid(b: Books, c: Command, b': Books, items: seq<Item>, amounts: seq<int>, i: nat)
    requires AutoShape(b, c, b', items, amounts) && Eligible(b, c, i) && Fall(b, b', Transaction) < c.amount
    ensures i < |b'.invoices| && b'.invoices[i].balance == 0
  {
    var m := EligibleAt(b, c, b', items, amounts, i);
    assert amounts == BalancesOf(b, c.mode.order);
    AutoRow(b, c, b', items, amounts, m);
    hide SettleAll, Fall, Distinct, WithinBalances, FifoOrder, Fifo.OldestFirst;
  }

  /** There always is such an order, so an AUTO payment never fails for want of one. */
  lemma AutoFindsItsOrder(b: Books, customer: nat, currency: string) returns (order: seq<nat>)
    ensures forall amount :: AutoItems(b, customer, currency, amount, order) != Err(NotTheQueryResult)
  {
    order := OrderUpTo(b, customer, currency, |b.invoices|);
    hide Fifo.Pour;
  }

  /** The query's answer if the table had only its first `n` rows. */
  ghost predicate OrderOf(b: Books, customer: nat, currency: string, n: nat, order: seq<nat>) {
    && Found(b, customer, currency, n, order) && InOrder(b, order)
    && (forall i :: 0 <= i < n && Payable(b, i, customer, currency) && b.invoices[i].balance > 0 ==> i in order)
  }

  ghost predicate Found(b: Books, customer: nat, currency: string, n: nat, order: seq<nat>) {
    forall m :: 0 <= m < |order| ==>
      order[m] < n && Payable(b, order[m], customer, currency) && b.invoices[order[m]].balance > 0
  }

  ghost predicate InOrder(b: Books, order: seq<nat>) {
    && (forall m :: 0 <= m < |order| ==> order[m] < |b.invoices|)
    && (forall l, m :: 0 <= l < m < |order| ==>
          order[l] != order[m] && b.invoices[order[l]].dueDate <= b.invoices[order[m]].dueDate)
  }

  lemma {:induction false} OrderUpTo(b: Books, customer: nat, currency: string, n: nat) returns (order: seq<nat>)
    requires n <= |b.invoices|
    ensures OrderOf(b, customer, currency, n, order)
  {
    hide Payable, InOrder;
    if n == 0 {
      order := [];
      assert InOrder(b, []) by { NothingToOrder(b); }
    } else {
      var earlier := OrderUpTo(b, customer, currency, n - 1);
      if Payable(b, n - 1, customer, currency) && b.invoices[n - 1].balance > 0 {
        order := Inserted(b, earlier, n - 1);
        forall m | 0 <= m < |order|
          ensures order[m] < n && Payable(b, order[m], customer, currency) && b.invoices[order[m]].balance > 0
        {
          assert order[m] in order;
        }
      } else {
        order := earlier;
      }
    }
  }

  lemma NothingToOrder(b: Books)
    ensures InOrder(b, [])
  {}

  lemma Inserted(b: Books, earlier: seq<nat>, i: nat) returns (order: seq<nat>)
    requires InOrder(b, earlier) && i < |b.invoices| && i !in earlier
    ensures InOrder(b, order) && forall j :: j in order <==> j == i || j in earlier
  {
    var at := InsertionPoint(b, earlier, b.invoices[i].dueDate);
    order := earlier[..at] + [i] + earlier[at..];
    hide InOrder;
    StillInOrder(b, earlier, i, at, order);
    forall j ensures j in order <==> j == i || j in earlier {
      assert order[at] == i;
      assert earlier == earlier[..at] + earlier[at..];
    }
  }

  lemma StillInOrder(b: Books, earlier: seq<nat>, i: nat, at: nat, order: seq<nat>)
    requires InOrder(b, earlier) && i < |b.invoices| && i !in earlier && at <= |earlier|
    requires forall m :: 0 <= m < at ==> b.invoices[earlier[m]].dueDate <= b.invoices[i].dueDate
    requires forall m :: at <= m < |earlier| ==> b.invoices[i].dueDate <= b.invoices[earlier[m]].dueDate
    requires order == earlier[..at] + [i] + earlier[at..]
    ensures InOrder(b, order)
  {
    forall m | 0 <= m < |order|
      ensures order[m] == if m < at then earlier[m] else if m == at then i else earlier[m - 1]
    {}
    forall l, m | 0 <= l < m < |order|
      ensures order[l] < |b.invoices| && order[m] < |b.invoices|
      ensures order[l] != order[m] && b.invoices[order[l]].dueDate <= b.invoices[order[m]].dueDate
    {
      var l', m' := if l < at then l else l - 1, if m < at then m else m - 1;
      if l != at && m != at { assert earlier[l'] != earlier[m']; }
    }
  }

  lemma {:induction false} InsertionPoint(b: Books, order: seq<nat>, due: int) returns (at: nat)
    requires forall m :: 0 <= m < |order| ==> order[m] < |b.invoices|
    requires forall l, m :: 0 <= l < m < |order| ==> b.invoices[order[l]].dueDate <= b.invoices[order[m]].dueDate
    ensures at <= |order|
    ensures forall m :: 0 <= m < at ==> b.invoices[order[m]].dueDate <= due
    ensures forall m :: at <= m < |order| ==> due <= b.invoices[order[m]].dueDate
  {
    if order == [] || b.invoices[order[|order| - 1]].dueDate <= due {
      at := |order|;
    } else {
      at := InsertionPoint(b, order[..|order| - 1], due);
    }
  }

  // ---- Credit memos ----

  /** The tax part of a credit: none if tax is not included, all that is left if the credit takes all that
      is left, otherwise the nearest share, ties to even. */
  ghost predicate TaxPart(left: TaxSplit.Remaining, amount: nat, includeTax: bool, tax: int) {
    if !includeTax || left.Creditable() == 0 then tax == 0
    else if amount == left.Creditable() then tax == left.tax
    else
      Product(amount, left.tax);
      IsNearestEven(amount * left.tax, left.Creditable(), tax)
  }

  ghost predicate EvenAt(amount: int, rate: nat, base: int) {
    amount >= 0 && (Product(amount, rate); IsNearestEven(amount * rate, SCALE, base))
  }

  /** The base AR a credit takes: the carrying value if it pays the balance off, otherwise its own
      conversion as far as there is as much. */
  ghost predicate BaseArOf(inv: Invoice, ar: int, base: int) {
    if ar == inv.balance then base == inv.baseBalance
    else exists even :: EvenAt(ar, inv.rate, even) && base == Min(even, inv.baseBalance)
  }

  /** The entry of a credit memo: revenue and tax reversed in the split, AR first and the customer's
      account for the rest; in base currency the whole amount and its tax are converted, revenue is the
      difference, and a customer account takes what AR leaves. */
  ghost predicate PostsCredit(e: Entry, inv: Invoice, amount: nat, tax: int, base: int, baseTax: int, baseAr: int) {
    var ar := Min(amount, inv.balance);
    && EvenAt(amount, inv.rate, base) && EvenAt(tax, inv.rate, baseTax) && BaseArOf(inv, ar, baseAr)
    && e.Posts(Transaction, map[Revenue := amount - tax, TaxPayable := tax, Receivable := -ar, CustomerCredit := ar - amount])
    && e.Posts(Base, map[Revenue := base - baseTax, TaxPayable := baseTax, Receivable := -baseAr,
                         CustomerCredit := if amount > ar then baseAr - base else 0])
  }

  lemma CreditWrites(b: Books, c: Command, b': Books)
    returns (left: TaxSplit.Remaining, tax: int, base: nat, baseTax: nat, baseAr: nat)
    requires Sound(b) && c.Credit? && Step(b, c) == Ok(b')
    ensures c.i < |b.invoices| && b'.outbox == b.outbox
    ensures var inv := b.invoices[c.i];
            && left.subtotal == inv.subtotal - Tally(b.journal, Reversed(c.i, Revenue))
            && left.tax == inv.tax - Tally(b.journal, Reversed(c.i, TaxPayable))
            && 0 < c.amount <= left.Creditable() && TaxPart(left, c.amount, c.includeTax, tax)
            && 0 <= tax <= left.tax && c.amount - tax <= left.subtotal
    ensures var inv := b.invoices[c.i];
            && baseAr <= inv.baseBalance
            && Writes(b, c.i, inv.(balance := Max(inv.balance - c.amount, 0), baseBalance := inv.baseBalance - baseAr,
                                   status := if inv.balance <= c.amount then Paid else inv.status,
                                   version := inv.version + 1),
                      ForCreditMemo(Memo(c.i, c.amount, base)), b')
            && PostsCredit(b'.journal[|b.journal|], inv, c.amount, tax, base, baseTax, baseAr)
  {
    var f;
    left, f := CreditFigures(b, c, b');
    tax, base, baseTax, baseAr := f.taxCredit, f.baseCredit, f.baseTaxCredit, f.baseArCredit;
    Balancing.BalanceZero(b, c.i);
    hide Sound, Step, TaxPart, Tally, Writes, MemoLines, PostsCredit, EvenAt, BaseArOf;
    MemoPosts(b.invoices[c.i], left, c.amount, c.includeTax, f, Memo(c.i, c.amount, base));
  }

  ghost predicate Worked(inv: Invoice, left: TaxSplit.Remaining, amount: nat, includeTax: bool, f: Figures) {
    && TaxPart(left, amount, includeTax, f.taxCredit)
    && 0 <= f.taxCredit <= left.tax && 0 <= f.subtotalCredit == amount - f.taxCredit <= left.subtotal
    && f.arCredit == Min(amount, inv.balance) && f.customerCredit == amount - f.arCredit
    && EvenAt(amount, inv.rate, f.baseCredit) && EvenAt(f.taxCredit, inv.rate, f.baseTaxCredit)
    && BaseArOf(inv, f.arCredit, f.baseArCredit) && f.baseArCredit <= inv.baseBalance
  }

  lemma EvenConversion(amount: nat, rate: nat)
    ensures EvenAt(amount, rate, ToBaseEven(amount, rate))
  {
    Product(amount, rate);
    HalfEvenIsNearest(amount * rate, SCALE);
    hide IsNearestEven, HalfEven;
  }

  lemma SplitIsTaxPart(left: TaxSplit.Remaining, amount: nat, includeTax: bool)
    requires amount <= left.Creditable()
    ensures TaxPart(left, amount, includeTax, TaxSplit.SplitCredit(left, amount, includeTax).tax)
  {
    if includeTax && left.Creditable() > 0 {
      Product(amount, left.tax);
      HalfEvenIsNearest(amount * left.tax, left.Creditable());
    }
    hide IsNearestEven, HalfEven;
  }

  lemma FiguresAreWorked(inv: Invoice, left: TaxSplit.Remaining, amount: nat, includeTax: bool)
    requires amount <= left.Creditable()
    ensures var split := TaxSplit.SplitCredit(left, amount, includeTax);
            split.tax >= 0 && (!TaxSplit.ComponentExceeded(left, split) ==>
                                 Worked(inv, left, amount, includeTax, FiguresFor(inv, split, amount)))
  {
    AcceptedFigures(inv, left, amount, includeTax);
    SplitIsTaxPart(left, amount, includeTax);
    var split := TaxSplit.SplitCredit(left, amount, includeTax);
    EvenConversion(amount, inv.rate);
    EvenConversion(split.tax, inv.rate);
    EvenConversion(Min(amount, inv.balance), inv.rate);
    hide EvenAt, ToBaseEven, TaxPart, TaxSplit.SplitCredit;
  }

  lemma CreditFigures(b: Books, c: Command, b': Books) returns (left: TaxSplit.Remaining, f: Figures)
    requires Sound(b) && c.Credit? && Step(b, c) == Ok(b')
    ensures c.i < |b.invoices| && b'.outbox == b.outbox
    ensures left.subtotal == b.invoices[c.i].subtotal - Tally(b.journal, Reversed(c.i, Revenue))
    ensures left.tax == b.invoices[c.i].tax - Tally(b.journal, Reversed(c.i, TaxPayable))
    ensures 0 < c.amount <= left.Creditable() && Worked(b.invoices[c.i], left, c.amount, c.includeTax, f)
    ensures var inv := b.invoices[c.i];
            Writes(b, c.i, inv.(balance := Max(inv.balance - c.amount, 0), baseBalance := inv.baseBalance - f.baseArCredit,
                                status := if inv.balance <= c.amount then Paid else inv.status,
                                version := inv.version + 1),
                   ForCreditMemo(Memo(c.i, c.amount, f.baseCredit)), b')
    ensures b'.journal[|b.journal|].lines == MemoLines(f)
  {
    hide Sound, Tally, HalfEven, ToBaseEven, RemainingOn, MemoLines, AllPostable, TaxSplit.SplitCredit, TaxPart, EvenAt,
      BaseArOf;
    left := RemainingOn(b, c.i);
    NeverBinds(b, c.i);
    FiguresAreWorked(b.invoices[c.i], left, c.amount, c.includeTax);
    f := FiguresFor(b.invoices[c.i], TaxSplit.SplitCredit(left, c.amount, c.includeTax), c.amount);
  }

  lemma EvenZero(rate: nat, base: int)
    requires EvenAt(0, rate, base)
    ensures base == 0
  {}

  lemma MemoPosts(inv: Invoice, left: TaxSplit.Remaining, amount: nat, includeTax: bool, f: Figures, m: Memo)
    requires Worked(inv, left, amount, includeTax, f) && (inv.balance == 0 ==> inv.baseBalance == 0)
    ensures PostsCredit(Entry(ForCreditMemo(m), MemoLines(f)), inv, amount, f.taxCredit, f.baseCredit, f.baseTaxCredit,
                        f.baseArCredit)
  {
    hide TaxPart, EvenAt, MemoLines, LineSum, Entry.Posts;
    if f.taxCredit == 0 { EvenZero(inv.rate, f.baseTaxCredit); }
    if f.arCredit == 0 && inv.balance > 0 {
      var even :| EvenAt(0, inv.rate, even) && f.baseArCredit == Min(even, inv.baseBalance);
      EvenZero(inv.rate, even);
    }
    MemoAccounts(m, f);
  }
}
