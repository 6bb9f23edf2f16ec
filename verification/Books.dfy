/** The two books the AR module keeps: the invoice table (the subledger) and the general-ledger
    journal.  Rows are values; a table is a sequence indexed by row id.  The journal and the
    documents it references are append-only, so an entry holds the row it references. */
module Books {
  import opened Money
  import opened Sums

  datatype Status = Draft | Approved | Sent | PartiallyPaid | Paid | Void | WrittenOff

  datatype Invoice = Invoice(
    status: Status, version: nat, creator: nat, customer: nat, currency: string, rate: nat,
    subtotal: nat, tax: nat, total: nat, balance: nat,
    baseSubtotal: nat, baseTax: nat, baseTotal: nat, baseBalance: nat,
    dueDate: int, sentAt: Option<nat>)
  {
    /** PAYABLE_STATUSES, and the statuses the reconciliation query counts. */
    predicate Open() { status.Approved? || status.Sent? || status.PartiallyPaid? }

    /** Statuses that still use up the customer's credit limit; drafts do too. */
    predicate Exposed() { !status.Paid? && !status.Void? && !status.WrittenOff? }

    function Subtotal(k: Column): nat { if k.Base? then baseSubtotal else subtotal }
    function Tax(k: Column): nat { if k.Base? then baseTax else tax }
    function Total(k: Column): nat { if k.Base? then baseTotal else total }
    function Balance(k: Column): nat { if k.Base? then baseBalance else balance }
  }

  datatype Account = Cash | Receivable | CustomerCredit | TaxPayable | Revenue | BadDebt | FxGainLoss

  /** What one line contributes to: a net balance of either column, or the debits alone. */
  datatype Field = Net(k: Column) | Debits

  /** Which lines are summed: those of one account, or all of them. */
  datatype Selection = Every | On(account: Account)

  datatype Line = Line(account: Account, debit: int, credit: int, baseDebit: int, baseCredit: int) {
    function Value(f: Field): int {
      match f
      case Net(Transaction) => debit - credit
      case Net(Base) => baseDebit - baseCredit
      case Debits => debit
    }

    /** The table's CHECK constraints; a row failing one rolls the whole handler back. */
    predicate Postable() {
      && debit >= 0 && credit >= 0 && baseDebit >= 0 && baseCredit >= 0
      && (debit == 0 || credit == 0)
      && (baseDebit == 0) != (baseCredit == 0)
    }
  }

  function Dr(account: Account, amount: int, base: int): Line { Line(account, amount, 0, base, 0) }
  function Cr(account: Account, amount: int, base: int): Line { Line(account, 0, amount, 0, base) }

  /** A line that is posted only under a condition. */
  function Only(posted: bool, line: Line): seq<Line> { if posted then [line] else [] }

  function LineSum(lines: seq<Line>, s: Selection, f: Field): int {
    if lines == [] then 0
    else
      var l := lines[|lines| - 1];
      LineSum(lines[..|lines| - 1], s, f) + (if s.Every? || s.account == l.account then l.Value(f) else 0)
  }

  /** A payment_allocation row. */
  datatype Allocation = Allocation(invoice: nat, amount: nat, basePayment: int, baseAr: nat) {
    function Cleared(k: Column): nat { if k.Base? then baseAr else amount }
    function FxGain(): int { basePayment - baseAr }
    predicate Valid() { amount > 0 && basePayment > 0 && baseAr > 0 }
  }

  function Cleared(allocations: seq<Allocation>, k: Column): int {
    if allocations == [] then 0
    else Cleared(allocations[..|allocations| - 1], k) + allocations[|allocations| - 1].Cleared(k)
  }

  function ClearedOn(allocations: seq<Allocation>, i: nat, k: Column): int {
    if allocations == [] then 0
    else
      var a := allocations[|allocations| - 1];
      ClearedOn(allocations[..|allocations| - 1], i, k) + (if a.invoice == i then a.Cleared(k) else 0)
  }

  function FxGain(allocations: seq<Allocation>): int {
    if allocations == [] then 0
    else FxGain(allocations[..|allocations| - 1]) + allocations[|allocations| - 1].FxGain()
  }

  function CountOn(allocations: seq<Allocation>, i: nat): nat {
    if allocations == [] then 0
    else CountOn(allocations[..|allocations| - 1], i) + (if allocations[|allocations| - 1].invoice == i then 1 else 0)
  }

  predicate Touches(allocations: seq<Allocation>, i: nat) {
    exists n | 0 <= n < |allocations| :: allocations[n].invoice == i
  }

  datatype Payment = Payment(
    customer: nat, currency: string, rate: nat, amount: nat, baseAmount: nat,
    unallocated: nat, baseUnallocated: nat, allocations: seq<Allocation>)

  datatype Memo = Memo(invoice: nat, amount: nat, baseAmount: nat)

  /** reference_type with the row reference_id points to. */
  datatype Document =
    | ForInvoice(invoice: nat)
    | ForPayment(payment: Payment)
    | ForCreditMemo(memo: Memo)
    | ForVoid(invoice: nat)
    | ForWriteOff(invoice: nat)

  datatype Entry = Entry(document: Document, lines: seq<Line>) {
    function Ar(k: Column): int { LineSum(lines, On(Receivable), Net(k)) }
    function Imbalance(k: Column): int { LineSum(lines, Every, Net(k)) }

    /** Debits less credits, account by account: `nets`, and nothing on any other account. */
    ghost predicate Posts(k: Column, nets: map<Account, int>) {
      forall a: Account :: LineSum(lines, On(a), Net(k)) == if a in nets then nets[a] else 0
    }

    /** The entries GET /journal-entries selects for invoice `i`. */
    predicate Concerns(i: nat) {
      match document
      case ForPayment(p) => Touches(p.allocations, i)
      case ForCreditMemo(m) => m.invoice == i
      case _ => document.invoice == i
    }
  }

  /** Everything the proofs and the handlers ever sum over the journal. */
  datatype Query =
    | ArNet(k: Column)                  // net of account 1200
    | Invoiced(i: nat, k: Column)       // AR debited when i was approved
    | Allocated(i: nat, k: Column)      // AR of i cleared by payment allocations
    | Credited(i: nat, k: Column)       // AR of i cleared by credit memos
    | Expensed(i: nat, k: Column)       // AR of i written off
    | Cancelled(i: nat, k: Column)      // AR of i removed by a void
    | Reversed(i: nat, account: Account) // debits that i's credit memos put on an account
    | MemoTotal(i: nat)                 // sum of i's credit memo amounts
    | Reductions(i: nat)                // allocations and AR-reducing memos of i
    | Approvals(i: nat)                 // INVOICE entries of i
    | Summary(i: nat, k: Column)        // AR net of the entries that concern i
    | OtherShares(i: nat, k: Column)    // what payments touching i cleared on other invoices

  function Measure(e: Entry, q: Query): int {
    match (q, e.document)
    case (ArNet(k), _) => e.Ar(k)
    case (Invoiced(i, k), ForInvoice(j)) => if i == j then e.Ar(k) else 0
    case (Allocated(i, k), ForPayment(p)) => ClearedOn(p.allocations, i, k)
    case (Credited(i, k), ForCreditMemo(m)) => if i == m.invoice then -e.Ar(k) else 0
    case (Expensed(i, k), ForWriteOff(j)) => if i == j then -e.Ar(k) else 0
    case (Cancelled(i, k), ForVoid(j)) => if i == j then -e.Ar(k) else 0
    case (Reversed(i, a), ForCreditMemo(m)) => if i == m.invoice then LineSum(e.lines, On(a), Debits) else 0
    case (MemoTotal(i), ForCreditMemo(m)) => if i == m.invoice then m.amount else 0
    case (Reductions(i), ForPayment(p)) => CountOn(p.allocations, i)
    case (Reductions(i), ForCreditMemo(m)) => if i == m.invoice && e.Ar(Transaction) != 0 then 1 else 0
    case (Approvals(i), ForInvoice(j)) => if i == j then 1 else 0
    case (Summary(i, k), _) => if e.Concerns(i) then e.Ar(k) else 0
    case (OtherShares(i, k), ForPayment(p)) =>
      if Touches(p.allocations, i) then Cleared(p.allocations, k) - ClearedOn(p.allocations, i, k) else 0
    case _ => 0
  }

  function Tally(journal: seq<Entry>, q: Query): int {
    if journal == [] then 0
    else Tally(journal[..|journal| - 1], q) + Measure(journal[|journal| - 1], q)
  }

  datatype Customer = Customer(active: bool, creditLimit: nat)

  datatype Books = Books(
    baseCurrency: string, customers: map<nat, Customer>,
    invoices: seq<Invoice>, journal: seq<Entry>, outbox: seq<nat>)

  // ---- The reports the books must agree on ----

  /** The subledger column of the /health query. */
  function OpenBalances(invoices: seq<Invoice>): seq<int> {
    seq(|invoices|, i requires 0 <= i < |invoices| => if invoices[i].Open() then invoices[i].baseBalance else 0)
  }

  function Subledger(b: Books): int { Sum(OpenBalances(b.invoices)) }

  function GeneralLedger(b: Books): int { Tally(b.journal, ArNet(Base)) }

  /** What a customer owes or has drafted, leaving out one invoice if asked to. */
  function Exposures(invoices: seq<Invoice>, customer: nat, except: Option<nat>): seq<int> {
    seq(|invoices|, i requires 0 <= i < |invoices| =>
      if invoices[i].customer == customer && invoices[i].Exposed() && except != Some(i)
      then invoices[i].baseBalance else 0)
  }

  function Exposure(invoices: seq<Invoice>, customer: nat, except: Option<nat>): int {
    Sum(Exposures(invoices, customer, except))
  }

  // ---- Lemmas about the sums ----

  lemma TallySnoc(journal: seq<Entry>, e: Entry)
    ensures forall q :: Tally(journal + [e], q) == Tally(journal, q) + Measure(e, q)
  {
    assert (journal + [e])[..|journal|] == journal;
  }

  lemma {:induction false} LineSumConcat(x: seq<Line>, y: seq<Line>, s: Selection, f: Field)
    ensures LineSum(x + y, s, f) == LineSum(x, s, f) + LineSum(y, s, f)
  {
    if y == [] {
      assert x + y == x;
    } else {
      LineSumConcat(x, y[..|y| - 1], s, f);
      assert (x + y)[..|x + y| - 1] == x + y[..|y| - 1];
    }
  }

  lemma LineSumOnly(posted: bool, l: Line, s: Selection, f: Field)
    ensures LineSum(Only(posted, l), s, f)
         == if posted && (s.Every? || s.account == l.account) then l.Value(f) else 0
  {
    assert posted ==> Only(posted, l)[..0] == [];
  }

  /** Every posting is at most four optional lines. */
  lemma LineSumFour(a: seq<Line>, b: seq<Line>, c: seq<Line>, d: seq<Line>, s: Selection, f: Field)
    ensures LineSum(a + b + c + d, s, f)
         == LineSum(a, s, f) + LineSum(b, s, f) + LineSum(c, s, f) + LineSum(d, s, f)
  {
    LineSumConcat(a, b, s, f);
    LineSumConcat(a + b, c, s, f);
    LineSumConcat(a + b + c, d, s, f);
  }

  lemma {:induction false} NotTouched(allocations: seq<Allocation>, i: nat, k: Column)
    requires !Touches(allocations, i)
    ensures ClearedOn(allocations, i, k) == 0 && CountOn(allocations, i) == 0
  {
    if allocations != [] {
      var n := |allocations| - 1;
      assert allocations[n].invoice != i;
      assert !Touches(allocations[..n], i) by {
        assert forall m :: 0 <= m < n ==> allocations[..n][m] == allocations[m];
      }
      NotTouched(allocations[..n], i, k);
    }
  }
}
