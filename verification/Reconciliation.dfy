/** The subledger and general-ledger account 1200, over every run. */
module Reconciliation {
  import opened Money
  import opened Sums
  import opened Books
  import opened Commands
  import opened Postings
  import opened Rows
  import opened Steps

  /** For each invoice that is now void, the base AR its credit memos had already removed. */
  function VoidedCreditsColumn(b: Books): seq<int> {
    seq(|b.invoices|, i requires 0 <= i < |b.invoices| =>
      if b.invoices[i].status.Void? then Tally(b.journal, Query.Credited(i, Base)) else 0)
  }

  function VoidedCredits(b: Books): int { Sum(VoidedCreditsColumn(b)) }

  ghost predicate Reconciled(b: Books) {
    GeneralLedger(b) == Subledger(b) - VoidedCredits(b)
  }

  /** What one step does to the difference of the two books. */
  ghost predicate InStep(b: Books, b': Books) {
    (GeneralLedger(b') - GeneralLedger(b)) == (Subledger(b') - Subledger(b)) - (VoidedCredits(b') - VoidedCredits(b))
  }

  function OpenBase(inv: Invoice): int { if inv.Open() then inv.baseBalance else 0 }

  function VoidedBase(b: Books, i: nat): int
    requires i < |b.invoices|
  {
    if b.invoices[i].status.Void? then Tally(b.journal, Query.Credited(i, Base)) else 0
  }

  /** A row replaced in both books. */
  lemma OneRowChanges(b: Books, b': Books, i: nat)
    requires i < |b.invoices| == |b'.invoices|
    requires forall n :: 0 <= n < |b.invoices| && n != i ==>
               && b'.invoices[n] == b.invoices[n]
               && Tally(b'.journal, Query.Credited(n, Base)) == Tally(b.journal, Query.Credited(n, Base))
    ensures Subledger(b') - Subledger(b) == OpenBase(b'.invoices[i]) - OpenBase(b.invoices[i])
    ensures VoidedCredits(b') - VoidedCredits(b) == VoidedBase(b', i) - VoidedBase(b, i)
  {
    hide Tally, Sum;
    SumChange(OpenBalances(b.invoices), OpenBalances(b'.invoices), i);
    SumChange(VoidedCreditsColumn(b), VoidedCreditsColumn(b'), i);
  }

  lemma EntryPosted(b: Books, b': Books, e: Entry, i: nat)
    requires b'.journal == b.journal + [e]
    requires !e.document.ForPayment? && forall n: nat | n != i :: !e.Concerns(n)
    ensures GeneralLedger(b') == GeneralLedger(b) + e.Ar(Base)
    ensures Tally(b'.journal, Query.Credited(i, Base))
         == Tally(b.journal, Query.Credited(i, Base)) + Measure(e, Query.Credited(i, Base))
    ensures forall n: nat :: n != i ==>
              Tally(b'.journal, Query.Credited(n, Base)) == Tally(b.journal, Query.Credited(n, Base))
  {
    TallySnoc(b.journal, e);
    forall n: nat | n != i ensures Measure(e, Query.Credited(n, Base)) == 0 { NoMention(e, n); }
    hide Tally;
    assert Measure(e, ArNet(Base)) == e.Ar(Base);
  }

  lemma RowsOnly(b: Books, b': Books, i: nat)
    requires i < |b.invoices| == |b'.invoices| && b'.journal == b.journal
    requires b'.invoices == b.invoices[i := b'.invoices[i]]
    requires OpenBase(b'.invoices[i]) == OpenBase(b.invoices[i])
    requires VoidedBase(b', i) == VoidedBase(b, i)
    ensures InStep(b, b')
  {
    OneRowChanges(b, b', i);
  }

  lemma QuietStep(b: Books, c: Command, b': Books)
    requires Sound(b) && (c.Create? || c.Patch? || c.Reject? || c.Deliver?) && Step(b, c) == Ok(b')
    ensures InStep(b, b')
  {
    hide ToBase, Tally, Sum;
    if c.Create? {
      var row := b'.invoices[|b.invoices|];
      SumSnoc(OpenBalances(b.invoices), 0);
      SumSnoc(VoidedCreditsColumn(b), 0);
      assert OpenBalances(b'.invoices) == OpenBalances(b.invoices) + [0];
      assert VoidedCreditsColumn(b') == VoidedCreditsColumn(b) + [0];
    } else if c.i < |b.invoices| && b' != b {
      assert RowAt(b, c.i);
      RowsOnly(b, b', c.i);
    }
  }

  lemma ApproveStep(b: Books, c: Command, b': Books)
    requires Sound(b) && c.Approve? && Step(b, c) == Ok(b')
    ensures InStep(b, b')
  {
    hide ToBase, Tally, Sum, LineSum;
    assert RowAt(b, c.i);
    var e := ApprovalEntry(c.i, b.invoices[c.i]);
    ApprovalPosting(c.i, b.invoices[c.i], Base);
    EntryPosted(b, b', e, c.i);
    OneRowChanges(b, b', c.i);
  }

  lemma WriteOffStep(b: Books, c: Command, b': Books)
    requires Sound(b) && c.WriteOff? && Step(b, c) == Ok(b')
    ensures InStep(b, b')
  {
    hide ToBase, Tally, Sum, LineSum;
    var e := WriteOffEntry(c.i, b.invoices[c.i]);
    WriteOffPosting(c.i, b.invoices[c.i], Base);
    EntryPosted(b, b', e, c.i);
    OneRowChanges(b, b', c.i);
  }

  lemma VoidStep(b: Books, c: Command, b': Books)
    requires Sound(b) && c.VoidInvoice? && Step(b, c) == Ok(b')
    ensures InStep(b, b')
    ensures var inv := b.invoices[c.i];
            VoidedCredits(b') - VoidedCredits(b) == if inv.status.Draft? then 0 else inv.baseTotal - inv.baseBalance
  {
    hide ToBase, Tally, Sum, LineSum, Drift;
    assert RowAt(b, c.i);
    var inv := b.invoices[c.i];
    if inv.status.Draft? {
      OneRowChanges(b, b', c.i);
    } else {
      var e := VoidEntry(c.i, inv);
      VoidPosting(c.i, inv, Base);
      EntryPosted(b, b', e, c.i);
      OneRowChanges(b, b', c.i);
      assert Conserved(b.journal, c.i, inv, Base);
    }
  }

  lemma CreditStep(b: Books, c: Command, b': Books)
    requires Sound(b) && c.Credit? && Step(b, c) == Ok(b')
    ensures InStep(b, b')
  {
    hide ToBase, ToBaseEven, HalfEven, Tally, Sum, LineSum, Drift;
    assert RowAt(b, c.i);
    var inv, left := b.invoices[c.i], RemainingOn(b, c.i);
    AcceptedFigures(inv, left, c.amount, c.includeTax);
    var f := FiguresFor(inv, TaxSplit.SplitCredit(left, c.amount, c.includeTax), c.amount);
    var memo := Memo(c.i, c.amount, f.baseCredit);
    var e := Entry(ForCreditMemo(memo), MemoLines(f));
    assert FiguresOf(inv, left, c.amount, f);
    assert f.arCredit == 0 ==> inv.balance == 0;
    MemoPosting(memo, f);
    hide MemoLines;
    EntryPosted(b, b', e, c.i);
    OneRowChanges(b, b', c.i);
  }

  // ---- Payments ----

  function CarryingTotal(b: Books, items: seq<Item>): int
    requires WithinBalances(b, items)
  {
    if items == [] then 0
    else
      var it := items[|items| - 1];
      CarryingTotal(b, items[..|items| - 1]) + CarryingPart(b.invoices[it.invoice], it.amount)
  }

  /** The journal's one AR credit is the sum of what the allocations cleared. */
  lemma {:induction false} ClearedIsCarryingTotal(b: Books, items: seq<Item>, parts: seq<int>)
    requires WithinBalances(b, items) && |parts| == |items|
    ensures Cleared(AllocationsFor(b, items, parts), Base) == CarryingTotal(b, items)
    ensures Cleared(AllocationsFor(b, items, parts), Transaction) == ItemTotal(items)
  {
    hide CarryingPart;
    if items != [] {
      var n := |items| - 1;
      ClearedIsCarryingTotal(b, items[..n], parts[..n]);
      assert AllocationsFor(b, items, parts)[..n] == AllocationsFor(b, items[..n], parts[..n]);
    }
  }

  lemma SettledOpenBase(inv: Invoice, amount: nat)
    requires inv.Open() && 0 < amount <= inv.balance
    ensures OpenBase(Settled(inv, amount)) == inv.baseBalance - CarryingPart(inv, amount)
  {
    hide ToBase;
  }

  lemma {:induction false} SettleAllSum(b: Books, items: seq<Item>)
    requires WithinBalances(b, items) && Distinct(items)
    requires forall n :: 0 <= n < |items| ==> items[n].amount > 0 && b.invoices[items[n].invoice].Open()
    ensures Sum(OpenBalances(SettleAll(b, items))) == Sum(OpenBalances(b.invoices)) - CarryingTotal(b, items)
  {
    hide Settled, CarryingPart, Sum;
    if items != [] {
      var n := |items| - 1;
      var it := items[n];
      SettleAllSum(b, items[..n]);
      SettledElsewhere(b, items[..n], it.invoice);
      SettledOpenBase(b.invoices[it.invoice], it.amount);
      SumChange(OpenBalances(SettleAll(b, items[..n])), OpenBalances(SettleAll(b, items)), it.invoice);
    }
  }

  lemma SettleAllStatus(b: Books, items: seq<Item>, i: nat)
    requires WithinBalances(b, items) && Distinct(items) && i < |b.invoices|
    requires forall n :: 0 <= n < |items| ==> b.invoices[items[n].invoice].Open()
    ensures SettleAll(b, items)[i].status.Void? <==> b.invoices[i].status.Void?
  {
    hide CarryingPart;
    if n :| 0 <= n < |items| && items[n].invoice == i {
      SettledAt(b, items, n);
    } else {
      SettledElsewhere(b, items, i);
    }
  }

  /** The AR credit of a payment entry. */
  lemma PaymentAr(b: Books, c: Command, rate: nat, items: seq<Item>)
    requires c.Pay? && WithinBalances(b, items) && ItemTotal(items) <= c.amount
    requires forall n :: 0 <= n < |items| ==> PaymentFor(b, c, rate, items).allocations[n].Valid()
    ensures var p := PaymentFor(b, c, rate, items);
            Entry(ForPayment(p), PaymentLines(p)).Ar(Base) == -CarryingTotal(b, items)
  {
    hide CarryingPart, LineSum, BaseParts, ItemTotal;
    var p := PaymentFor(b, c, rate, items);
    ZeroConverts(rate);
    ClearedPositive(p.allocations);
    ClearedIsCarryingTotal(b, items, BaseParts(items, rate, p.baseAmount - p.baseUnallocated));
    hide ToBase, PaymentLines, CarryingTotal;
    PaymentPosting(p, Base);
  }

  lemma PayStep(b: Books, c: Command, b': Books)
    requires Sound(b) && c.Pay? && Step(b, c) == Ok(b')
    ensures InStep(b, b')
  {
    hide Step, CarryingPart, PaymentLines, LineSum, BaseParts, ToBase, Tally, ItemTotal;
    var rate, items := PaymentItems(b, c, b');
    var p := PaymentFor(b, c, rate, items);
    var e := Entry(ForPayment(p), PaymentLines(p));
    PaymentAr(b, c, rate, items);
    TallySnoc(b.journal, e);
    assert Measure(e, ArNet(Base)) == e.Ar(Base);
    SettleAllSum(b, items);
    forall i: nat | i < |b.invoices| ensures VoidedCreditsColumn(b')[i] == VoidedCreditsColumn(b)[i] {
      SettleAllStatus(b, items, i);
      assert Measure(e, Query.Credited(i, Base)) == 0;
    }
    assert VoidedCreditsColumn(b') == VoidedCreditsColumn(b);
  }

  lemma StepsInStep(b: Books, c: Command, b': Books)
    requires Sound(b) && Step(b, c) == Ok(b')
    ensures InStep(b, b')
  {
    hide Step, Sound, InStep;
    match c
    case Approve(_, _, _) => ApproveStep(b, c, b');
    case Pay(_, _, _, _, _) => PayStep(b, c, b');
    case Credit(_, _, _, _) => CreditStep(b, c, b');
    case WriteOff(_) => WriteOffStep(b, c, b');
    case VoidInvoice(_) => VoidStep(b, c, b');
    case _ => QuietStep(b, c, b');
  }

  // ---- Main results ----

  /** In every reachable state GL 1200 is the open subledger less exactly what credit memos had
      removed from invoices that were voided afterwards. */
  lemma {:induction false} RunsReconcile(start: Books, commands: seq<Command>)
    requires Sound(start) && Reconciled(start)
    ensures Reconciled(Run(start, commands))
  {
    hide Sound, Step, GeneralLedger, Subledger, VoidedCredits;
    if commands != [] {
      var earlier, c := commands[..|commands| - 1], commands[|commands| - 1];
      var before := Run(start, earlier);
      RunsReconcile(start, earlier);
      RunKeeps(start, earlier);
      var r := Step(before, c);
      if r.Ok? { StepsInStep(before, c, r.value); }
    }
  }

  lemma EmptyReconciles(baseCurrency: string, customers: map<nat, Customer>)
    ensures Reconciled(Empty(baseCurrency, customers))
  {}
}
