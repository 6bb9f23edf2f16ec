/** Every handler keeps every invoice row accounted for. */
module Steps {
  import opened Money
  import opened Sums
  import opened Books
  import opened Commands
  import opened Postings
  import opened Rows
  import TaxSplit

  /** One INVOICE entry and one outbox event per approved invoice, none for any other. */
  ghost predicate OutboxOk(b: Books) {
    && (forall i: nat :: i in b.outbox <==> Tally(b.journal, Approvals(i)) == 1)
    && (forall m, n :: 0 <= m < n < |b.outbox| ==> b.outbox[m] != b.outbox[n])
  }

  ghost predicate Sound(b: Books) {
    AllRows(b) && OutboxOk(b)
  }

  // ---- The drift of one reduction ----

  lemma ReductionError(base: nat, balance: nat, rate: nat, amount: nat, converted: nat)
    requires amount < balance
    requires 2 * Abs(converted * SCALE - amount * rate) <= SCALE
    ensures var part := Min(converted, base);
            2 * Abs((base - part) * SCALE - (balance - amount) * rate)
            <= 2 * Abs(base * SCALE - balance * rate) + SCALE
  {
    assert (balance - amount) * rate == balance * rate - amount * rate;
    Product(balance - amount, rate);
  }

  /** Half-up and half-even reductions alike, clamped or not, add at most half a quantum. */
  lemma PartialReduction(inv: Invoice, amount: nat, converted: nat)
    requires amount < inv.balance
    requires converted == ToBase(amount, inv.rate) || converted == ToBaseEven(amount, inv.rate)
    ensures var part := Min(converted, inv.baseBalance);
            var after := inv.(balance := inv.balance - amount, baseBalance := inv.baseBalance - part);
            && Drift(after) <= Drift(inv) + SCALE
            && (inv.rate == RATE_ONE && inv.baseBalance == inv.balance ==> after.baseBalance == after.balance)
  {
    ToBaseError(amount, inv.rate);
    ToBaseEvenError(amount, inv.rate);
    if inv.rate == RATE_ONE { UnitRate(amount); }
    hide ToBase, ToBaseEven;
    ReductionError(inv.baseBalance, inv.balance, inv.rate, amount, converted);
  }

  lemma DraftDrift(inv: Invoice)
    requires Postings.Priced(inv) && inv.balance == inv.total && inv.baseBalance == inv.baseTotal
    ensures Drift(inv) <= 2 * SCALE
    ensures inv.rate == RATE_ONE ==> inv.baseBalance == inv.balance
    ensures inv.baseTotal > 0 ==> inv.total > 0
  {
    ToBaseError(inv.subtotal, inv.rate);
    ToBaseError(inv.tax, inv.rate);
    ZeroConverts(inv.rate);
    if inv.rate == RATE_ONE {
      UnitRate(inv.subtotal);
      UnitRate(inv.tax);
    }
    hide ToBase, ToBaseEven;
    assert inv.total * inv.rate == inv.subtotal * inv.rate + inv.tax * inv.rate;
  }

  // ---- Handlers without a journal entry ----

  lemma CreateKeeps(b: Books, c: Command, b': Books)
    requires Sound(b) && c.Create? && Step(b, c) == Ok(b')
    ensures Sound(b')
  {
    hide ToBase, Tally;
    var n := |b.invoices|;
    forall i: nat ensures RowAt(b', i) {
      assert RowAt(b, i);
      if i != n { SameRow(b, b', i); }
    }
  }

  /** Replacing one row without posting anything. */
  lemma RowReplaced(b: Books, b': Books, i: nat)
    requires Sound(b) && i < |b.invoices| == |b'.invoices|
    requires b'.journal == b.journal && b'.outbox == b.outbox
    requires forall n :: 0 <= n < |b.invoices| && n != i ==> b'.invoices[n] == b.invoices[n]
    requires RowOk(b.journal, i, b'.invoices[i])
    ensures Sound(b')
  {
    hide RowOk, Tally;
    forall n: nat ensures RowAt(b', n) {
      assert RowAt(b, n);
      if n != i { SameRow(b, b', n); }
    }
  }

  lemma PatchKeeps(b: Books, c: Command, b': Books)
    requires Sound(b) && c.Patch? && Step(b, c) == Ok(b')
    ensures Sound(b')
  {
    hide ToBase, Tally;
    assert RowAt(b, c.i);
    RowReplaced(b, b', c.i);
  }

  lemma RejectKeeps(b: Books, c: Command, b': Books)
    requires Sound(b) && c.Reject? && Step(b, c) == Ok(b')
    ensures Sound(b')
  {
    hide ToBase, Tally, Drift;
    assert RowAt(b, c.i);
    RowReplaced(b, b', c.i);
  }

  lemma DeliverKeeps(b: Books, c: Command, b': Books)
    requires Sound(b) && c.Deliver? && Step(b, c) == Ok(b')
    ensures Sound(b')
  {
    hide ToBase, Tally;
    if c.i < |b.invoices| && c.i in b.outbox {
      assert RowAt(b, c.i);
      RowReplaced(b, b', c.i);
    }
  }

  // ---- Handlers with one entry on one invoice ----

  ghost predicate Commits(b: Books, i: nat, row: Invoice, e: Entry, b': Books) {
    && i < |b.invoices|
    && b'.invoices == b.invoices[i := row] && b'.journal == b.journal + [e]
    && !e.document.ForPayment? && e.Concerns(i)
    && (forall n: nat | n != i :: !e.Concerns(n))
    && AllPostable(e.lines)
  }

  lemma CommitKeeps(b: Books, i: nat, row: Invoice, e: Entry, b': Books)
    requires Sound(b) && Commits(b, i, row, e, b')
    requires b'.outbox == if e.document.ForInvoice? then b.outbox + [i] else b.outbox
    requires e.document.ForInvoice? ==> Tally(b.journal, Approvals(i)) == 0
    requires RowOk(b'.journal, i, row)
    ensures Sound(b')
  {
    hide RowOk;
    TallySnoc(b.journal, e);
    hide Tally;
    forall n: nat ensures RowAt(b', n) {
      assert RowAt(b, n);
      if n != i { OtherRow(b, b', e, n); }
    }
    forall n: nat ensures n in b'.outbox <==> Tally(b'.journal, Approvals(n)) == 1 {
      assert Tally(b'.journal, Approvals(n)) == Tally(b.journal, Approvals(n)) + Measure(e, Approvals(n));
    }
  }

  lemma ApprovedTallies(j: seq<Entry>, i: nat, inv: Invoice)
    requires Untouched(j, i)
    ensures var j' := j + [ApprovalEntry(i, inv)];
            && Tally(j', Approvals(i)) == 1 && Tally(j', Reductions(i)) == 0 && Tally(j', MemoTotal(i)) == 0
            && Tally(j', Reversed(i, Revenue)) == 0 && Tally(j', Reversed(i, TaxPayable)) == 0
            && (forall k :: Tally(j', Invoiced(i, k)) == inv.Total(k))
            && (forall k :: Tally(j', Allocated(i, k)) == 0)
            && (forall k :: Tally(j', Query.Credited(i, k)) == 0)
            && (forall k :: Tally(j', Expensed(i, k)) == 0)
            && (forall k :: Tally(j', Cancelled(i, k)) == 0)
  {
    TallySnoc(j, ApprovalEntry(i, inv));
    forall k { ApprovalPosting(i, inv, k); }
    hide Tally, LineSum;
  }

  lemma ApprovedRow(j: seq<Entry>, i: nat, inv: Invoice, row: Invoice)
    requires RowOk(j, i, inv) && inv.status.Draft? && inv.baseTotal > 0
    requires row == inv.(status := Approved, version := inv.version + 1)
    ensures RowOk(j + [ApprovalEntry(i, inv)], i, row)
  {
    DraftDrift(inv);
    ApprovedTallies(j, i, inv);
    hide ToBase, Tally, ApprovalEntry;
    assert Drift(row) == Drift(inv);
    hide Drift;
    assert Posted(j + [ApprovalEntry(i, inv)], i, row);
  }

  lemma ApproveShape(b: Books, c: Command, b': Books)
    requires c.Approve? && Step(b, c) == Ok(b')
    ensures c.i < |b.invoices| && c.i !in b.outbox && b'.outbox == b.outbox + [c.i]
    ensures var inv := b.invoices[c.i];
            && inv.status.Draft? && inv.baseTotal > 0
            && Commits(b, c.i, inv.(status := Approved, version := inv.version + 1), ApprovalEntry(c.i, inv), b')
  {
    var e := ApprovalEntry(c.i, b.invoices[c.i]);
    assert e.lines[0].Postable();
    hide AllPostable;
  }

  lemma ApproveKeeps(b: Books, c: Command, b': Books)
    requires Sound(b) && c.Approve? && Step(b, c) == Ok(b')
    ensures Sound(b')
  {
    ApproveShape(b, c, b');
    hide Step, RowOk, Tally, AllPostable;
    assert RowAt(b, c.i);
    assert Tally(b.journal, Approvals(c.i)) == 0 by { NeverApproved(b, c.i); }
    var inv := b.invoices[c.i];
    var row := inv.(status := Approved, version := inv.version + 1);
    ApprovedRow(b.journal, c.i, inv, row);
    hide ApprovalEntry;
    CommitKeeps(b, c.i, row, ApprovalEntry(c.i, inv), b');
  }

  lemma NeverApproved(b: Books, i: nat)
    requires RowAt(b, i) && i < |b.invoices| && b.invoices[i].status.Draft?
    ensures Tally(b.journal, Approvals(i)) == 0
  {
    hide Tally, ToBase, Drift;
  }

  lemma VoidedTallies(j: seq<Entry>, i: nat, inv: Invoice)
    ensures var j' := j + [VoidEntry(i, inv)];
            && (forall k :: Tally(j', Cancelled(i, k)) == Tally(j, Cancelled(i, k)) + inv.Total(k))
            && (forall k :: Tally(j', Invoiced(i, k)) == Tally(j, Invoiced(i, k)))
            && (forall k :: Tally(j', Allocated(i, k)) == Tally(j, Allocated(i, k)))
            && (forall k :: Tally(j', Query.Credited(i, k)) == Tally(j, Query.Credited(i, k)))
            && (forall k :: Tally(j', Expensed(i, k)) == Tally(j, Expensed(i, k)))
            && (forall a :: Tally(j', Reversed(i, a)) == Tally(j, Reversed(i, a)))
            && Tally(j', Approvals(i)) == Tally(j, Approvals(i)) && Tally(j', MemoTotal(i)) == Tally(j, MemoTotal(i))
  {
    TallySnoc(j, VoidEntry(i, inv));
    forall k { VoidPosting(i, inv, k); }
    hide Tally, LineSum, Entry.Posts;
  }

  lemma VoidedRow(j: seq<Entry>, i: nat, inv: Invoice, row: Invoice)
    requires RowOk(j, i, inv) && (inv.status.Approved? || inv.status.Sent?)
    requires row == inv.(status := Void, balance := 0, baseBalance := 0, version := inv.version + 1)
    ensures RowOk(j + [VoidEntry(i, inv)], i, row)
  {
    VoidedTallies(j, i, inv);
    hide ToBase, Tally, VoidEntry, DriftBounded, Untouched;
    assert Conserved(j, i, inv, Transaction) && Conserved(j, i, inv, Base);
  }

  lemma VoidShape(b: Books, c: Command, b': Books)
    requires c.VoidInvoice? && Step(b, c) == Ok(b')
    ensures c.i < |b.invoices| && b'.outbox == b.outbox
    ensures var inv := b.invoices[c.i];
            var row := inv.(status := Void, balance := 0, baseBalance := 0, version := inv.version + 1);
            && (inv.status.Draft? || inv.status.Approved? || inv.status.Sent?)
            && (inv.status.Draft? ==> b' == b.(invoices := b.invoices[c.i := row]))
            && (!inv.status.Draft? ==> Commits(b, c.i, row, VoidEntry(c.i, inv), b'))
  {
    hide AllPostable;
  }

  lemma VoidedDraft(j: seq<Entry>, i: nat, inv: Invoice, row: Invoice)
    requires RowOk(j, i, inv) && inv.status.Draft?
    requires row == inv.(status := Void, balance := 0, baseBalance := 0, version := inv.version + 1)
    ensures RowOk(j, i, row)
  {
    hide Tally, ToBase;
  }

  lemma VoidKeeps(b: Books, c: Command, b': Books)
    requires Sound(b) && c.VoidInvoice? && Step(b, c) == Ok(b')
    ensures Sound(b')
  {
    VoidShape(b, c, b');
    hide Step, RowOk, VoidEntry, Tally, AllPostable;
    assert RowAt(b, c.i);
    var inv := b.invoices[c.i];
    var row := inv.(status := Void, balance := 0, baseBalance := 0, version := inv.version + 1);
    if inv.status.Draft? {
      VoidedDraft(b.journal, c.i, inv, row);
      RowReplaced(b, b', c.i);
    } else {
      VoidedRow(b.journal, c.i, inv, row);
      assert VoidEntry(c.i, inv).document.ForVoid? by { Documents(c.i, inv); }
      CommitKeeps(b, c.i, row, VoidEntry(c.i, inv), b');
    }
  }

  lemma Documents(i: nat, inv: Invoice)
    ensures VoidEntry(i, inv).document == ForVoid(i) && WriteOffEntry(i, inv).document == ForWriteOff(i)
  {}

  lemma WrittenOffRow(j: seq<Entry>, i: nat, inv: Invoice, row: Invoice)
    requires RowOk(j, i, inv) && inv.Open()
    requires row == inv.(status := WrittenOff, balance := 0, baseBalance := 0, version := inv.version + 1)
    ensures RowOk(j + [WriteOffEntry(i, inv)], i, row)
  {
    var e := WriteOffEntry(i, inv);
    TallySnoc(j, e);
    forall k { WriteOffPosting(i, inv, k); }
    hide ToBase, Tally, LineSum, Entry.Posts;
    var j' := j + [e];
    assert Conserved(j, i, inv, Transaction) && Conserved(j, i, inv, Base);
    assert Drift(row) == 0;
    assert Tally(j', Reductions(i)) == Tally(j, Reductions(i));
    ReductionsCount(j, i);
    assert Posted(j', i, row);
  }

  lemma {:induction false} ReductionsCount(j: seq<Entry>, i: nat)
    ensures Tally(j, Reductions(i)) >= 0
  {
    if j != [] { ReductionsCount(j[..|j| - 1], i); }
  }

  lemma WriteOffShape(b: Books, c: Command, b': Books)
    requires c.WriteOff? && Step(b, c) == Ok(b')
    ensures c.i < |b.invoices| && b'.outbox == b.outbox && b.invoices[c.i].Open()
    ensures var inv := b.invoices[c.i];
            Commits(b, c.i, inv.(status := WrittenOff, balance := 0, baseBalance := 0, version := inv.version + 1),
                    WriteOffEntry(c.i, inv), b')
  {
    hide AllPostable;
  }

  lemma WriteOffKeeps(b: Books, c: Command, b': Books)
    requires Sound(b) && c.WriteOff? && Step(b, c) == Ok(b')
    ensures Sound(b')
  {
    WriteOffShape(b, c, b');
    hide Step, RowOk, WriteOffEntry, Tally, AllPostable;
    assert RowAt(b, c.i);
    var inv := b.invoices[c.i];
    var row := inv.(status := WrittenOff, balance := 0, baseBalance := 0, version := inv.version + 1);
    WrittenOffRow(b.journal, c.i, inv, row);
    Documents(c.i, inv);
    CommitKeeps(b, c.i, row, WriteOffEntry(c.i, inv), b');
  }

  // ---- Credit memos ----

  ghost predicate FiguresOf(inv: Invoice, left: TaxSplit.Remaining, amount: nat, f: Figures) {
    && f.subtotalCredit + f.taxCredit == amount == f.arCredit + f.customerCredit
    && 0 <= f.subtotalCredit <= left.subtotal && 0 <= f.taxCredit <= left.tax
    && f.arCredit == Min(amount, inv.balance)
    && (f.taxCredit == 0 ==> f.baseTaxCredit == 0)
    && f.baseCredit == ToBaseEven(amount, inv.rate)
    && f.baseArCredit == if f.arCredit == inv.balance then inv.baseBalance
                         else Min(ToBaseEven(f.arCredit, inv.rate), inv.baseBalance)
  }

  lemma AcceptedFigures(inv: Invoice, left: TaxSplit.Remaining, amount: nat, includeTax: bool)
    requires amount <= left.Creditable()
    ensures var split := TaxSplit.SplitCredit(left, amount, includeTax);
            && split.tax >= 0
            && (!TaxSplit.ComponentExceeded(left, split) ==>
                  FiguresOf(inv, left, amount, FiguresFor(inv, split, amount)))
  {
    TaxSplit.InclusiveCreditFits(left, amount);
    ZeroConverts(inv.rate);
    hide HalfEven, HalfUp;
  }

  /** How one memo moves every tally its row depends on. */
  lemma CreditTallies(j: seq<Entry>, i: nat, inv: Invoice, left: TaxSplit.Remaining, amount: nat, f: Figures, e: Entry)
    requires FiguresOf(inv, left, amount, f)
    requires inv.balance == 0 ==> inv.baseBalance == 0
    requires amount > 0
    requires e == Entry(ForCreditMemo(Memo(i, amount, f.baseCredit)), MemoLines(f))
    ensures var j' := j + [e];
            && Tally(j', Query.Credited(i, Transaction)) == Tally(j, Query.Credited(i, Transaction)) + f.arCredit
            && Tally(j', Query.Credited(i, Base)) == Tally(j, Query.Credited(i, Base)) + f.baseArCredit
            && Tally(j', Reversed(i, Revenue)) == Tally(j, Reversed(i, Revenue)) + f.subtotalCredit
            && Tally(j', Reversed(i, TaxPayable)) == Tally(j, Reversed(i, TaxPayable)) + f.taxCredit
            && Tally(j', MemoTotal(i)) == Tally(j, MemoTotal(i)) + amount
            && Tally(j', Reductions(i)) == Tally(j, Reductions(i)) + (if f.arCredit > 0 then 1 else 0)
            && Tally(j', Approvals(i)) == Tally(j, Approvals(i))
            && (forall k :: Tally(j', Invoiced(i, k)) == Tally(j, Invoiced(i, k)))
            && (forall k :: Tally(j', Allocated(i, k)) == Tally(j, Allocated(i, k)))
            && (forall k :: Tally(j', Expensed(i, k)) == Tally(j, Expensed(i, k)))
            && (forall k :: Tally(j', Cancelled(i, k)) == Tally(j, Cancelled(i, k)))
  {
    hide Tally, LineSum, MemoLines, ToBaseEven;
    MemoPosting(Memo(i, amount, f.baseCredit), f);
    TallySnoc(j, e);
  }

  lemma CreditedRow(j: seq<Entry>, i: nat, inv: Invoice, left: TaxSplit.Remaining, amount: nat, f: Figures, e: Entry)
    requires RowOk(j, i, inv) && (inv.Open() || inv.status.Paid?) && amount > 0
    requires left.subtotal == inv.subtotal - Tally(j, Reversed(i, Revenue))
    requires left.tax == inv.tax - Tally(j, Reversed(i, TaxPayable))
    requires FiguresOf(inv, left, amount, f)
    requires e == Entry(ForCreditMemo(Memo(i, amount, f.baseCredit)), MemoLines(f))
    ensures RowOk(j + [e], i, CreditApplied(inv, f))
  {
    hide Tally, ToBase, ToBaseEven, MemoLines;
    var row, j' := CreditApplied(inv, f), j + [e];
    CreditTallies(j, i, inv, left, amount, f, e);
    ReductionsCount(j, i);
    if 0 < f.arCredit < inv.balance {
      PartialReduction(inv, f.arCredit, ToBaseEven(f.arCredit, inv.rate));
    }
    hide Drift;
    assert Conserved(j', i, row, Transaction) && Conserved(j', i, row, Base);
    CreditDrift(j, j', i, inv, f);
    hide DriftBounded;
    assert Posted(j', i, row);
  }

  lemma CreditDrift(j: seq<Entry>, j': seq<Entry>, i: nat, inv: Invoice, f: Figures)
    requires DriftBounded(j, i, inv) && Tally(j, Reductions(i)) >= 0
    requires f.arCredit <= inv.balance && f.baseArCredit <= inv.baseBalance
    requires inv.balance == 0 ==> inv.baseBalance == 0
    requires f.arCredit == inv.balance ==> f.baseArCredit == inv.baseBalance
    requires Tally(j', Reductions(i)) == Tally(j, Reductions(i)) + (if f.arCredit > 0 then 1 else 0)
    requires f.arCredit == 0 ==> f.baseArCredit == 0
    requires 0 < f.arCredit < inv.balance ==>
               && Drift(CreditApplied(inv, f)) <= Drift(inv) + SCALE
               && (inv.rate == RATE_ONE ==> inv.balance - f.arCredit == inv.baseBalance - f.baseArCredit)
    ensures DriftBounded(j', i, CreditApplied(inv, f))
  {
    hide Tally;
    if f.arCredit == inv.balance {
      assert Drift(CreditApplied(inv, f)) == 0;
    }
  }

  lemma CreditShape(b: Books, c: Command, b': Books) returns (f: Figures)
    requires c.Credit? && Step(b, c) == Ok(b')
    ensures c.i < |b.invoices| && c.amount > 0 && b'.outbox == b.outbox
    ensures b.invoices[c.i].Open() || b.invoices[c.i].status.Paid?
    ensures FiguresOf(b.invoices[c.i], RemainingOn(b, c.i), c.amount, f)
    ensures f.arCredit <= b.invoices[c.i].balance && f.baseArCredit <= b.invoices[c.i].baseBalance
    ensures Commits(b, c.i, CreditApplied(b.invoices[c.i], f),
                    Entry(ForCreditMemo(Memo(c.i, c.amount, f.baseCredit)), MemoLines(f)), b')
  {
    hide ToBaseEven, HalfEven, RemainingOn, FiguresOf, TaxSplit.SplitCredit, MemoLines, AllPostable, CreditApplied;
    var inv, left := b.invoices[c.i], RemainingOn(b, c.i);
    AcceptedFigures(inv, left, c.amount, c.includeTax);
    f := FiguresFor(inv, TaxSplit.SplitCredit(left, c.amount, c.includeTax), c.amount);
  }

  lemma CreditKeeps(b: Books, c: Command, b': Books)
    requires Sound(b) && c.Credit? && Step(b, c) == Ok(b')
    ensures Sound(b')
  {
    var f := CreditShape(b, c, b');
    hide Step, RowOk, FiguresOf, MemoLines, Tally, AllPostable, CreditApplied;
    assert RowAt(b, c.i);
    var inv, left := b.invoices[c.i], RemainingOn(b, c.i);
    var e := Entry(ForCreditMemo(Memo(c.i, c.amount, f.baseCredit)), MemoLines(f));
    NeverBinds(b, c.i);
    CreditedRow(b.journal, c.i, inv, left, c.amount, f, e);
    CommitKeeps(b, c.i, CreditApplied(inv, f), e, b');
  }

  /** The max(..., 0) around what remains to be credited never changes anything. */
  lemma NeverBinds(b: Books, i: nat)
    requires Sound(b) && i < |b.invoices|
    ensures RemainingOn(b, i).subtotal == b.invoices[i].subtotal - Tally(b.journal, Reversed(i, Revenue))
    ensures RemainingOn(b, i).tax == b.invoices[i].tax - Tally(b.journal, Reversed(i, TaxPayable))
    ensures RemainingOn(b, i).Creditable() == b.invoices[i].total - Tally(b.journal, MemoTotal(i))
  {
    hide Tally, ToBase;
    assert RowAt(b, i);
    assert ReversalsFit(b.journal, i, b.invoices[i]);
    assert Postings.Priced(b.invoices[i]);
  }

  // ---- Payments ----

  lemma {:induction false} SettledElsewhere(b: Books, items: seq<Item>, i: nat)
    requires WithinBalances(b, items) && i < |b.invoices|
    requires forall n :: 0 <= n < |items| ==> items[n].invoice != i
    ensures SettleAll(b, items)[i] == b.invoices[i]
  {
    hide CarryingPart;
    if items != [] { SettledElsewhere(b, items[..|items| - 1], i); }
  }

  /** Whatever the order, each invoice of a payment is settled once, from its state before it. */
  lemma {:induction false} SettledAt(b: Books, items: seq<Item>, n: nat)
    requires WithinBalances(b, items) && Distinct(items) && n < |items|
    ensures SettleAll(b, items)[items[n].invoice] == Settled(b.invoices[items[n].invoice], items[n].amount)
  {
    hide Settled;
    var last := |items| - 1;
    if n < last { SettledAt(b, items[..last], n); }
  }

  lemma {:induction false} ClearedAt(allocations: seq<Allocation>, n: nat, k: Column)
    requires n < |allocations|
    requires forall l, m :: 0 <= l < m < |allocations| ==> allocations[l].invoice != allocations[m].invoice
    ensures ClearedOn(allocations, allocations[n].invoice, k) == allocations[n].Cleared(k)
    ensures CountOn(allocations, allocations[n].invoice) == 1
  {
    var last := |allocations| - 1;
    if n < last {
      ClearedAt(allocations[..last], n, k);
    } else {
      var i := allocations[n].invoice;
      assert !Touches(allocations[..last], i);
      NotTouched(allocations[..last], i, k);
    }
  }

  /** A payment entry as one of its invoices sees it. */
  ghost predicate Pays(e: Entry, i: nat, inv: Invoice, amount: nat) {
    && e.document.ForPayment?
    && ClearedOn(e.document.payment.allocations, i, Transaction) == amount
    && ClearedOn(e.document.payment.allocations, i, Base) == CarryingPart(inv, amount)
    && CountOn(e.document.payment.allocations, i) == 1
  }

  lemma PaidTallies(j: seq<Entry>, i: nat, inv: Invoice, amount: nat, e: Entry)
    requires Pays(e, i, inv, amount)
    ensures var j' := j + [e];
            && Tally(j', Allocated(i, Transaction)) == Tally(j, Allocated(i, Transaction)) + amount
            && Tally(j', Allocated(i, Base)) == Tally(j, Allocated(i, Base)) + CarryingPart(inv, amount)
            && Tally(j', Reductions(i)) == Tally(j, Reductions(i)) + 1
            && (forall a :: Tally(j', Reversed(i, a)) == Tally(j, Reversed(i, a)))
            && Tally(j', MemoTotal(i)) == Tally(j, MemoTotal(i))
            && Tally(j', Approvals(i)) == Tally(j, Approvals(i))
            && (forall k :: Tally(j', Invoiced(i, k)) == Tally(j, Invoiced(i, k)))
            && (forall k :: Tally(j', Query.Credited(i, k)) == Tally(j, Query.Credited(i, k)))
            && (forall k :: Tally(j', Expensed(i, k)) == Tally(j, Expensed(i, k)))
            && (forall k :: Tally(j', Cancelled(i, k)) == Tally(j, Cancelled(i, k)))
  {
    TallySnoc(j, e);
    hide Tally, CarryingPart, ClearedOn, CountOn;
  }

  lemma PaidDrift(inv: Invoice, amount: nat)
    requires inv.Open() && 0 < amount <= inv.balance
    requires inv.rate == RATE_ONE ==> inv.baseBalance == inv.balance
    ensures Drift(Settled(inv, amount)) <= Drift(inv) + SCALE
    ensures inv.rate == RATE_ONE ==> Settled(inv, amount).baseBalance == Settled(inv, amount).balance
  {
    if amount < inv.balance {
      PartialReduction(inv, amount, ToBase(amount, inv.rate));
      hide ToBase;
    } else {
      assert Drift(Settled(inv, amount)) == 0;
    }
  }

  lemma PaidRow(j: seq<Entry>, i: nat, inv: Invoice, amount: nat, e: Entry)
    requires RowOk(j, i, inv) && inv.Open() && 0 < amount <= inv.balance
    requires Pays(e, i, inv, amount)
    ensures RowOk(j + [e], i, Settled(inv, amount))
  {
    hide Tally, ToBase, Drift;
    var row, j' := Settled(inv, amount), j + [e];
    PaidTallies(j, i, inv, amount, e);
    PaidDrift(inv, amount);
    hide Pays;
    assert Conserved(j', i, row, Transaction) && Conserved(j', i, row, Base);
    assert ReversalsFit(j', i, row);
    assert Posted(j', i, row);
  }

  lemma {:induction false} ClearedPositive(allocations: seq<Allocation>)
    requires forall n :: 0 <= n < |allocations| ==> allocations[n].Valid()
    ensures Cleared(allocations, Transaction) >= 0
    ensures allocations != [] ==> Cleared(allocations, Transaction) > 0
  {
    if allocations != [] { ClearedPositive(allocations[..|allocations| - 1]); }
  }

  /** The items a successful payment settles. */
  lemma PaymentItems(b: Books, c: Command, b': Books) returns (rate: nat, items: seq<Item>)
    requires c.Pay? && Step(b, c) == Ok(b')
    ensures rate > 0 && LockedRate(b, c.currency, c.quote) == Ok(rate)
    ensures WithinBalances(b, items) && ItemTotal(items) <= c.amount && items != [] && Distinct(items)
    ensures forall n :: 0 <= n < |items| ==>
              items[n].amount > 0 && Payable(b, items[n].invoice, c.customer, c.currency)
    ensures c.mode.Auto? ==> AutoItems(b, c.customer, c.currency, c.amount, c.mode.order) == Ok(items)
    ensures c.mode.Manual? ==> items == c.mode.items
    ensures SettlePayment(b, c, rate, items) == Ok(b')
    ensures forall n :: 0 <= n < |items| ==> PaymentFor(b, c, rate, items).allocations[n].Valid()
  {
    hide AutoItems, CheckItems, PaymentLines, SettleAll, BaseParts;
    rate := LockedRate(b, c.currency, c.quote).value;
    items := (match c.mode
              case Auto(order) => AutoItems(b, c.customer, c.currency, c.amount, order)
              case Manual(items) => ManualItems(b, c.customer, c.currency, items)).value;
    ItemsFit(b, c, items);
  }

  lemma PayKeeps(b: Books, c: Command, b': Books)
    requires Sound(b) && c.Pay? && Step(b, c) == Ok(b')
    ensures Sound(b')
  {
    var rate, items := PaymentItems(b, c, b');
    hide Step, RowOk, Tally, CarryingPart, PaymentLines, BaseParts, SettleAll, AllPostable;
    var p := PaymentFor(b, c, rate, items);
    var e := Entry(ForPayment(p), PaymentLines(p));
    PaymentKeepsRows(b, items, p, e, b');
    PaymentKeepsOutbox(b, b', e);
  }

  lemma PaymentKeepsOutbox(b: Books, b': Books, e: Entry)
    requires OutboxOk(b) && e.document.ForPayment?
    requires b'.journal == b.journal + [e] && b'.outbox == b.outbox
    ensures OutboxOk(b')
  {
    TallySnoc(b.journal, e);
    hide Tally;
    forall n: nat ensures n in b'.outbox <==> Tally(b'.journal, Approvals(n)) == 1 {
      assert Tally(b'.journal, Approvals(n)) == Tally(b.journal, Approvals(n)) + Measure(e, Approvals(n));
    }
  }

  lemma PaymentKeepsRows(b: Books, items: seq<Item>, p: Payment, e: Entry, b': Books)
    requires AllRows(b) && WithinBalances(b, items) && Distinct(items)
    requires forall n :: 0 <= n < |items| ==> items[n].amount > 0 && b.invoices[items[n].invoice].Open()
    requires e.document == ForPayment(p) && |p.allocations| == |items|
    requires forall n :: 0 <= n < |items| ==>
               && p.allocations[n].invoice == items[n].invoice && p.allocations[n].amount == items[n].amount
               && p.allocations[n].baseAr == CarryingPart(b.invoices[items[n].invoice], items[n].amount)
    requires b'.journal == b.journal + [e] && b'.invoices == SettleAll(b, items)
    ensures AllRows(b')
  {
    hide RowOk, Tally, CarryingPart, Settled, Untouched;
    forall i: nat ensures RowAt(b', i) {
      assert RowAt(b, i);
      if n :| 0 <= n < |items| && items[n].invoice == i {
        SettledAt(b, items, n);
        ClearedAt(p.allocations, n, Transaction);
        ClearedAt(p.allocations, n, Base);
        PaidRow(b.journal, i, b.invoices[i], items[n].amount, e);
      } else {
        if i < |b.invoices| { SettledElsewhere(b, items, i); }
        assert !e.Concerns(i);
        OtherRow(b, b', e, i);
      }
    }
  }

  // ---- Every step, every run ----

  lemma StepKeeps(b: Books, c: Command, b': Books)
    requires Sound(b) && Step(b, c) == Ok(b')
    ensures Sound(b')
  {
    hide Step, Sound;
    match c
    case Create(_, _, _, _, _, _, _) => CreateKeeps(b, c, b');
    case Patch(_, _, _, _, _, _, _) => PatchKeeps(b, c, b');
    case Approve(_, _, _) => ApproveKeeps(b, c, b');
    case Reject(_, _, _) => RejectKeeps(b, c, b');
    case Pay(_, _, _, _, _) => PayKeeps(b, c, b');
    case Credit(_, _, _, _) => CreditKeeps(b, c, b');
    case WriteOff(_) => WriteOffKeeps(b, c, b');
    case VoidInvoice(_) => VoidKeeps(b, c, b');
    case Deliver(_, _) => DeliverKeeps(b, c, b');
  }

  lemma EmptyIsSound(baseCurrency: string, customers: map<nat, Customer>)
    ensures Sound(Empty(baseCurrency, customers))
  {
    forall i: nat ensures RowAt(Empty(baseCurrency, customers), i) {}
  }

  /** The books of any run, from an empty database. */
  lemma {:induction false} RunKeeps(start: Books, commands: seq<Command>)
    requires Sound(start)
    ensures Sound(Run(start, commands))
  {
    hide Sound, Step;
    if commands != [] {
      var before := Run(start, commands[..|commands| - 1]);
      RunKeeps(start, commands[..|commands| - 1]);
      var r := Step(before, commands[|commands| - 1]);
      if r.Ok? { StepKeeps(before, commands[|commands| - 1], r.value); }
    }
  }
}
