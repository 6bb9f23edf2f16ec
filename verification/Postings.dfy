/** What each journal entry adds to the accounts, and whether it balances. */
module Postings {
  import opened Money
  import opened Sums
  import opened Books
  import opened Commands

  function Part(p: Slot, s: Selection, f: Field): int {
    if p.posted && (s.Every? || s.account == p.line.account) then p.line.Value(f) else 0
  }

  const NO_LINE := Slot(false, Dr(Cash, 0, 0))

  /** An optional line, with what it adds. */
  datatype Slot = Slot(posted: bool, line: Line) {
    function Lines(): seq<Line> { Only(posted, line) }
  }

  lemma FourParts(a: Slot, b: Slot, c: Slot, d: Slot, s: Selection, f: Field)
    ensures LineSum(a.Lines() + b.Lines() + c.Lines() + d.Lines(), s, f)
         == Part(a, s, f) + Part(b, s, f) + Part(c, s, f) + Part(d, s, f)
  {
    LineSumFour(a.Lines(), b.Lines(), c.Lines(), d.Lines(), s, f);
    LineSumOnly(a.posted, a.line, s, f);
    LineSumOnly(b.posted, b.line, s, f);
    LineSumOnly(c.posted, c.line, s, f);
    LineSumOnly(d.posted, d.line, s, f);
  }

  /** The header arithmetic of a priced invoice. */
  ghost predicate Priced(inv: Invoice) {
    && inv.rate > 0
    && inv.total == inv.subtotal + inv.tax && inv.baseTotal == inv.baseSubtotal + inv.baseTax
    && inv.baseSubtotal == ToBase(inv.subtotal, inv.rate) && inv.baseTax == ToBase(inv.tax, inv.rate)
  }

  lemma ZeroConverts(rate: nat)
    ensures ToBase(0, rate) == 0 && ToBaseEven(0, rate) == 0
  {}

  /** AR is debited with the total, revenue credited with the subtotal and tax payable with the tax. */
  ghost predicate PostsSale(e: Entry, inv: Invoice) {
    forall k :: e.Posts(k, map[Receivable := inv.Total(k), Revenue := 0 - inv.Subtotal(k), TaxPayable := 0 - inv.Tax(k)])
  }

  lemma ApprovalPosting(i: nat, inv: Invoice, k: Column)
    ensures ApprovalEntry(i, inv).Ar(k) == inv.Total(k)
    ensures Priced(inv) ==>
              var e := ApprovalEntry(i, inv);
              && e.Posts(k, map[Receivable := inv.Total(k), Revenue := 0 - inv.Subtotal(k), TaxPayable := 0 - inv.Tax(k)])
              && e.Imbalance(k) == 0
  {
    hide LineSum, ToBase;
    var a, b := Slot(true, Dr(Receivable, inv.total, inv.baseTotal)), Slot(true, Cr(Revenue, inv.subtotal, inv.baseSubtotal));
    var c := Slot(inv.tax > 0, Cr(TaxPayable, inv.tax, inv.baseTax));
    assert ApprovalEntry(i, inv).lines == a.Lines() + b.Lines() + c.Lines() + NO_LINE.Lines();
    forall account { FourParts(a, b, c, NO_LINE, On(account), Net(k)); }
    FourParts(a, b, c, NO_LINE, Every, Net(k));
    ZeroConverts(inv.rate);
  }

  lemma VoidPosting(i: nat, inv: Invoice, k: Column)
    ensures VoidEntry(i, inv).Ar(k) == 0 - inv.Total(k)
    ensures Priced(inv) ==>
              var e := VoidEntry(i, inv);
              && e.Posts(k, map[Revenue := inv.Subtotal(k), TaxPayable := inv.Tax(k), Receivable := 0 - inv.Total(k)])
              && e.Imbalance(k) == 0
  {
    hide LineSum, ToBase;
    var a, c := Slot(true, Dr(Revenue, inv.subtotal, inv.baseSubtotal)), Slot(true, Cr(Receivable, inv.total, inv.baseTotal));
    var b := Slot(inv.tax > 0, Dr(TaxPayable, inv.tax, inv.baseTax));
    assert VoidEntry(i, inv).lines == a.Lines() + b.Lines() + c.Lines() + NO_LINE.Lines();
    forall account { FourParts(a, b, c, NO_LINE, On(account), Net(k)); }
    FourParts(a, b, c, NO_LINE, Every, Net(k));
    ZeroConverts(inv.rate);
  }

  lemma WriteOffPosting(i: nat, inv: Invoice, k: Column)
    ensures var e := WriteOffEntry(i, inv);
            && e.Ar(k) == 0 - inv.Balance(k) && e.Imbalance(k) == 0
            && e.Posts(k, map[BadDebt := inv.Balance(k), Receivable := 0 - inv.Balance(k)])
  {
    hide LineSum;
    var a, b := Slot(true, Dr(BadDebt, inv.balance, inv.baseBalance)), Slot(true, Cr(Receivable, inv.balance, inv.baseBalance));
    assert WriteOffEntry(i, inv).lines == a.Lines() + b.Lines() + NO_LINE.Lines() + NO_LINE.Lines();
    forall account { FourParts(a, b, NO_LINE, NO_LINE, On(account), Net(k)); }
    FourParts(a, b, NO_LINE, NO_LINE, Every, Net(k));
  }

  /** Cash is what was cleared, what is held for the customer and, in base, the FX result. */
  lemma PaymentPosting(p: Payment, k: Column)
    requires p.allocations != [] ==> Cleared(p.allocations, Transaction) > 0
    requires p.unallocated == 0 ==> p.baseUnallocated == 0
    ensures var e := Entry(ForPayment(p), PaymentLines(p));
            && e.Ar(k) == -Cleared(p.allocations, k)
            && e.Imbalance(Transaction) == p.amount - Cleared(p.allocations, Transaction) - p.unallocated
            && e.Imbalance(Base) == p.baseAmount - Cleared(p.allocations, Base) - p.baseUnallocated - FxGain(p.allocations)
  {
    assert p.allocations == [] ==> Cleared(p.allocations, k) == 0 && Cleared(p.allocations, Base) == 0;
    hide LineSum, Cleared, FxGain;
    var cleared, fx := Cleared(p.allocations, Transaction), FxGain(p.allocations);
    var a := Slot(true, Dr(Cash, p.amount, p.baseAmount));
    var b := Slot(cleared > 0, Cr(Receivable, cleared, Cleared(p.allocations, Base)));
    var c := Slot(p.unallocated > 0, Cr(CustomerCredit, p.unallocated, p.baseUnallocated));
    var d := Slot(fx != 0, Line(FxGainLoss, 0, 0, Max(-fx, 0), Max(fx, 0)));
    assert PaymentLines(p) == a.Lines() + b.Lines() + c.Lines() + d.Lines();
    FourParts(a, b, c, d, On(Receivable), Net(k));
    FourParts(a, b, c, d, Every, Net(Transaction));
    FourParts(a, b, c, d, Every, Net(Base));
  }

  /** The same entry, account by account. */
  lemma PaymentAccounts(p: Payment)
    requires p.allocations != [] && Cleared(p.allocations, Transaction) > 0
    requires p.unallocated == 0 ==> p.baseUnallocated == 0
    ensures var e := Entry(ForPayment(p), PaymentLines(p));
            && e.Posts(Transaction, map[Cash := p.amount as int, Receivable := -Cleared(p.allocations, Transaction),
                                        CustomerCredit := 0 - p.unallocated])
            && e.Posts(Base, map[Cash := p.baseAmount as int, Receivable := -Cleared(p.allocations, Base),
                                 CustomerCredit := 0 - p.baseUnallocated, FxGainLoss := -FxGain(p.allocations)])
  {
    hide LineSum, Cleared, FxGain;
    var cleared, fx := Cleared(p.allocations, Transaction), FxGain(p.allocations);
    var a := Slot(true, Dr(Cash, p.amount, p.baseAmount));
    var b := Slot(true, Cr(Receivable, cleared, Cleared(p.allocations, Base)));
    var c := Slot(p.unallocated > 0, Cr(CustomerCredit, p.unallocated, p.baseUnallocated));
    var d := Slot(fx != 0, Line(FxGainLoss, 0, 0, Max(-fx, 0), Max(fx, 0)));
    assert PaymentLines(p) == a.Lines() + b.Lines() + c.Lines() + d.Lines();
    forall account { FourParts(a, b, c, d, On(account), Net(Transaction)); }
    forall account { FourParts(a, b, c, d, On(account), Net(Base)); }
  }

  lemma MemoPosting(m: Memo, f: Figures)
    requires f.taxCredit >= 0 && (f.taxCredit == 0 ==> f.baseTaxCredit == 0)
    requires f.arCredit == 0 ==> f.baseArCredit == 0
    ensures var e := Entry(ForCreditMemo(m), MemoLines(f));
            && e.Ar(Transaction) == 0 - f.arCredit && e.Ar(Base) == 0 - f.baseArCredit
            && LineSum(e.lines, On(Revenue), Debits) == f.subtotalCredit
            && LineSum(e.lines, On(TaxPayable), Debits) == f.taxCredit
            && e.Imbalance(Transaction) == f.subtotalCredit + f.taxCredit - f.arCredit - f.customerCredit
            && e.Imbalance(Base) == if f.customerCredit > 0 then 0 else f.BaseCustomerCredit()
  {
    hide LineSum;
    var a := Slot(true, Dr(Revenue, f.subtotalCredit, f.baseCredit - f.baseTaxCredit));
    var b := Slot(f.taxCredit > 0, Dr(TaxPayable, f.taxCredit, f.baseTaxCredit));
    var c := Slot(f.arCredit > 0, Cr(Receivable, f.arCredit, f.baseArCredit));
    var d := Slot(f.customerCredit > 0, Cr(CustomerCredit, f.customerCredit, f.BaseCustomerCredit()));
    assert MemoLines(f) == a.Lines() + b.Lines() + c.Lines() + d.Lines();
    FourParts(a, b, c, d, On(Receivable), Net(Transaction));
    FourParts(a, b, c, d, On(Receivable), Net(Base));
    FourParts(a, b, c, d, On(Revenue), Debits);
    FourParts(a, b, c, d, On(TaxPayable), Debits);
    FourParts(a, b, c, d, Every, Net(Transaction));
    FourParts(a, b, c, d, Every, Net(Base));
  }

  /** The same entry, account by account. */
  lemma MemoAccounts(m: Memo, f: Figures)
    requires f.taxCredit >= 0 && (f.taxCredit == 0 ==> f.baseTaxCredit == 0)
    requires f.arCredit == 0 ==> f.baseArCredit == 0
    ensures var e := Entry(ForCreditMemo(m), MemoLines(f));
            && e.Posts(Transaction, map[Revenue := f.subtotalCredit, TaxPayable := f.taxCredit,
                                        Receivable := 0 - f.arCredit, CustomerCredit := 0 - f.customerCredit])
            && e.Posts(Base, map[Revenue := f.baseCredit - f.baseTaxCredit, TaxPayable := f.baseTaxCredit as int,
                                 Receivable := 0 - f.baseArCredit,
                                 CustomerCredit := if f.customerCredit > 0 then -f.BaseCustomerCredit() else 0])
  {
    hide LineSum;
    var a := Slot(true, Dr(Revenue, f.subtotalCredit, f.baseCredit - f.baseTaxCredit));
    var b := Slot(f.taxCredit > 0, Dr(TaxPayable, f.taxCredit, f.baseTaxCredit));
    var c := Slot(f.arCredit > 0, Cr(Receivable, f.arCredit, f.baseArCredit));
    var d := Slot(f.customerCredit > 0, Cr(CustomerCredit, f.customerCredit, f.BaseCustomerCredit()));
    assert MemoLines(f) == a.Lines() + b.Lines() + c.Lines() + d.Lines();
    forall account { FourParts(a, b, c, d, On(account), Net(Transaction)); }
    forall account { FourParts(a, b, c, d, On(account), Net(Base)); }
  }
}
