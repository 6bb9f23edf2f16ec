/** The reports: /health, live AR aging and the per-invoice journal summary. */
module Reporting {
  import opened Money
  import opened Sums
  import opened Books
  import opened Commands
  import opened Rows
  import opened Steps
  import opened Reconciliation
  import opened Balancing

  // ---- GET /health ----

  const TOLERANCE := 100  // 0.01 in 1e-4 units

  /** reconciliation_status */
  predicate Matched(b: Books) { Abs(Subledger(b) - GeneralLedger(b)) < TOLERANCE }

  lemma VoidedCreditsSign(b: Books)
    requires AllRows(b)
    ensures forall n :: 0 <= n < |VoidedCreditsColumn(b)| ==> VoidedCreditsColumn(b)[n] >= 0
  {
    hide Tally, Drift, ToBase;
    forall i: nat | i < |b.invoices| ensures VoidedCreditsColumn(b)[i] >= 0 {
      assert RowAt(b, i);
    }
  }

  lemma {:induction false} ZeroSum(s: seq<int>)
    requires forall n :: 0 <= n < |s| ==> s[n] >= 0
    ensures Sum(s) >= 0
    ensures Sum(s) == 0 <==> forall n :: 0 <= n < |s| ==> s[n] == 0
  {
    if s != [] {
      var n := |s| - 1;
      ZeroSum(s[..n]);
      if Sum(s) == 0 {
        assert forall m :: 0 <= m < n ==> s[m] == s[..n][m];
      }
    }
  }

  /** Exactly when /health reports a mismatch, in any state any run can reach: the ledgers are
      equal if and only if no voided invoice had been credited, and the alarm is silent if and
      only if the voided credits stay below a cent. */
  lemma HealthIsExact(baseCurrency: string, customers: map<nat, Customer>, commands: seq<Command>)
    ensures var b := Run(Empty(baseCurrency, customers), commands);
            && (Subledger(b) == GeneralLedger(b) <==>
                  forall i :: 0 <= i < |b.invoices| && b.invoices[i].status.Void? ==>
                    Tally(b.journal, Query.Credited(i, Base)) == 0)
            && (Matched(b) <==> VoidedCredits(b) < 100)
            && GeneralLedger(b) <= Subledger(b)
  {
    var start := Empty(baseCurrency, customers);
    EmptyIsSound(baseCurrency, customers);
    EmptyReconciles(baseCurrency, customers);
    RunKeeps(start, commands);
    RunsReconcile(start, commands);
    hide Run, Tally, Subledger, GeneralLedger, Sum;
    var b := Run(start, commands);
    VoidedCreditsSign(b);
    ZeroSum(VoidedCreditsColumn(b));
    var column := VoidedCreditsColumn(b);
    assert forall i :: 0 <= i < |b.invoices| && b.invoices[i].status.Void? ==>
             column[i] == Tally(b.journal, Query.Credited(i, Base));
    assert forall i :: 0 <= i < |b.invoices| && !b.invoices[i].status.Void? ==> column[i] == 0;
  }

  /** The guard that would have prevented it: a void keeps equal ledgers equal if and only if the
      invoice is a draft or still carries its whole base total. */
  lemma VoidKeepsEqualityIff(b: Books, c: Command, b': Books)
    requires Sound(b) && c.VoidInvoice? && Step(b, c) == Ok(b')
    requires Subledger(b) == GeneralLedger(b)
    ensures var inv := b.invoices[c.i];
            Subledger(b') == GeneralLedger(b') <==> inv.status.Draft? || inv.baseBalance == inv.baseTotal
  {
    VoidStep(b, c, b');
    StepsInStep(b, c, b');
  }

  /** What every posted invoice carries, closed ones included. */
  function Carried(invoices: seq<Invoice>): seq<int> {
    seq(|invoices|, i requires 0 <= i < |invoices| => if invoices[i].status.Draft? then 0 else invoices[i].baseBalance)
  }

  /** The statuses /health counts leave out nothing: in every reachable state its subledger is all that
      posted invoices carry. */
  lemma SubledgerIsCarried(baseCurrency: string, customers: map<nat, Customer>, commands: seq<Command>)
    ensures var b := Run(Empty(baseCurrency, customers), commands); Subledger(b) == Sum(Carried(b.invoices))
  {
    EmptyIsSound(baseCurrency, customers);
    RunKeeps(Empty(baseCurrency, customers), commands);
    var b := Run(Empty(baseCurrency, customers), commands);
    hide Run, Sum, Tally, ToBase, Drift;
    forall i: nat | i < |b.invoices| ensures OpenBalances(b.invoices)[i] == Carried(b.invoices)[i] {
      assert RowAt(b, i);
    }
    assert OpenBalances(b.invoices) == Carried(b.invoices);
  }

  // ---- GET /customers/{id}/aging ----

  datatype Bucket = Current | Days30 | Days60 | Days90Plus

  function BucketOf(dueDate: int, today: int): Bucket {
    if dueDate >= today then Current
    else if dueDate >= today - 30 then Days30
    else if dueDate >= today - 60 then Days60
    else Days90Plus
  }

  /** The WHERE clause of the aging query. */
  predicate Aged(inv: Invoice, customer: nat) {
    inv.customer == customer && inv.Open() && inv.baseBalance > 0
  }

  function BucketColumn(invoices: seq<Invoice>, customer: nat, today: int, k: Bucket): seq<int> {
    seq(|invoices|, i requires 0 <= i < |invoices| =>
      if Aged(invoices[i], customer) && BucketOf(invoices[i].dueDate, today) == k then invoices[i].baseBalance else 0)
  }

  function BucketTotal(invoices: seq<Invoice>, customer: nat, today: int, k: Bucket): int {
    Sum(BucketColumn(invoices, customer, today, k))
  }

  function OutstandingColumn(invoices: seq<Invoice>, customer: nat): seq<int> {
    seq(|invoices|, i requires 0 <= i < |invoices| => if Aged(invoices[i], customer) then invoices[i].baseBalance else 0)
  }

  function Outstanding(invoices: seq<Invoice>, customer: nat): int { Sum(OutstandingColumn(invoices, customer)) }

  ghost predicate InBucket(invoices: seq<Invoice>, customer: nat, today: int, k: Bucket, i: nat) {
    i < |invoices| && Aged(invoices[i], customer) && BucketOf(invoices[i].dueDate, today) == k
  }

  lemma BucketsPartition(invoices: seq<Invoice>, customer: nat, today: int)
    ensures Outstanding(invoices, customer)
         == BucketTotal(invoices, customer, today, Current) + BucketTotal(invoices, customer, today, Days30)
            + BucketTotal(invoices, customer, today, Days60) + BucketTotal(invoices, customer, today, Days90Plus)
  {
    hide Sum;
    var a, b := BucketColumn(invoices, customer, today, Current), BucketColumn(invoices, customer, today, Days30);
    var c, d := BucketColumn(invoices, customer, today, Days60), BucketColumn(invoices, customer, today, Days90Plus);
    var ab := seq(|a|, i requires 0 <= i < |a| => a[i] + b[i]);
    var cd := seq(|a|, i requires 0 <= i < |a| => c[i] + d[i]);
    SumPointwise(a, b, ab);
    SumPointwise(c, d, cd);
    SumPointwise(ab, cd, OutstandingColumn(invoices, customer));
  }

  /** Which bucket holds an invoice: not yet overdue, up to 30 days, up to 60, or longer. */
  lemma BucketsByDays(invoices: seq<Invoice>, customer: nat, today: int, i: nat)
    requires i < |invoices| && Aged(invoices[i], customer)
    ensures var overdue := today - invoices[i].dueDate;
            && (InBucket(invoices, customer, today, Current, i) <==> overdue <= 0)
            && (InBucket(invoices, customer, today, Days30, i) <==> 1 <= overdue <= 30)
            && (InBucket(invoices, customer, today, Days60, i) <==> 31 <= overdue <= 60)
            && (InBucket(invoices, customer, today, Days90Plus, i) <==> 61 <= overdue)
  {}

  /** The accumulation loop of _compute_aging_live. */
  method ComputeAging(invoices: seq<Invoice>, customer: nat, today: int)
    returns (amounts: map<Bucket, int>, ids: map<Bucket, seq<nat>>, total: int)
    ensures forall k: Bucket :: k in amounts && k in ids
    ensures forall k: Bucket :: amounts[k] == BucketTotal(invoices, customer, today, k)
    ensures forall k: Bucket, i: nat :: i in ids[k] <==> InBucket(invoices, customer, today, k, i)
    ensures total == Outstanding(invoices, customer)
            == amounts[Current] + amounts[Days30] + amounts[Days60] + amounts[Days90Plus]
  {
    hide Sum, BucketOf;
    amounts := map[Current := 0, Days30 := 0, Days60 := 0, Days90Plus := 0];
    ids := map[Current := [], Days30 := [], Days60 := [], Days90Plus := []];
    total := 0;
    EmptyTotals(customer, today);
    forall k: Bucket ensures k in amounts && k in ids && amounts[k] == 0 && ids[k] == [] {
      match k case Current => case Days30 => case Days60 => case Days90Plus =>
    }
    for n := 0 to |invoices|
      invariant forall k: Bucket :: k in amounts && k in ids
      invariant forall k: Bucket :: amounts[k] == BucketTotal(invoices[..n], customer, today, k)
      invariant forall k: Bucket, i: nat :: i in ids[k] <==> InBucket(invoices[..n], customer, today, k, i)
      invariant total == Outstanding(invoices[..n], customer)
    {
      var inv := invoices[n];
      var before := invoices[..n];
      assert invoices[..n + 1] == before + [inv];
      forall k: Bucket
        ensures BucketTotal(before + [inv], customer, today, k) == BucketTotal(before, customer, today, k)
          + if Aged(inv, customer) && BucketOf(inv.dueDate, today) == k then inv.baseBalance else 0
      {
        OneMoreAged(before, inv, customer, today, k);
      }
      OneMoreOutstanding(before, inv, customer);
      if Aged(inv, customer) {
        var k := BucketOf(inv.dueDate, today);
        amounts := amounts[k := amounts[k] + inv.baseBalance];
        ids := ids[k := ids[k] + [n]];
        total := total + inv.baseBalance;
      }
    }
    assert invoices[..|invoices|] == invoices;
    BucketsPartition(invoices, customer, today);
  }

  lemma EmptyTotals(customer: nat, today: int)
    ensures forall k: Bucket :: BucketTotal([], customer, today, k) == 0
    ensures Outstanding([], customer) == 0
  {}

  lemma OneMoreAged(before: seq<Invoice>, inv: Invoice, customer: nat, today: int, k: Bucket)
    ensures BucketTotal(before + [inv], customer, today, k) == BucketTotal(before, customer, today, k)
      + if Aged(inv, customer) && BucketOf(inv.dueDate, today) == k then inv.baseBalance else 0
  {
    hide Sum, BucketOf;
    var column := BucketColumn(before + [inv], customer, today, k);
    assert column == BucketColumn(before, customer, today, k) + [column[|before|]];
    SumSnoc(BucketColumn(before, customer, today, k), column[|before|]);
  }

  lemma OneMoreOutstanding(before: seq<Invoice>, inv: Invoice, customer: nat)
    ensures Outstanding(before + [inv], customer) == Outstanding(before, customer)
      + if Aged(inv, customer) then inv.baseBalance else 0
  {
    hide Sum;
    var column := OutstandingColumn(before + [inv], customer);
    assert column == OutstandingColumn(before, customer) + [column[|before|]];
    SumSnoc(OutstandingColumn(before, customer), column[|before|]);
  }

  /** The part of the open balances that belongs to the listed customers. */
  function OpenOf(invoices: seq<Invoice>, customers: seq<nat>): seq<int> {
    seq(|invoices|, i requires 0 <= i < |invoices| =>
      if invoices[i].customer in customers && invoices[i].Open() then invoices[i].baseBalance else 0)
  }

  function OutstandingTotal(invoices: seq<Invoice>, customers: seq<nat>): int {
    if customers == [] then 0
    else OutstandingTotal(invoices, customers[..|customers| - 1]) + Outstanding(invoices, customers[|customers| - 1])
  }

  lemma {:induction false} CustomersAddUp(invoices: seq<Invoice>, customers: seq<nat>)
    requires forall m, n :: 0 <= m < n < |customers| ==> customers[m] != customers[n]
    ensures OutstandingTotal(invoices, customers) == Sum(OpenOf(invoices, customers))
  {
    hide Sum;
    if customers == [] {
      SumOfZeros(OpenOf(invoices, customers));
    } else {
      var n := |customers| - 1;
      var earlier := customers[..n];
      CustomersAddUp(invoices, earlier);
      assert customers == earlier + [customers[n]];
      assert customers[n] !in earlier;
      SumPointwise(OpenOf(invoices, earlier), OutstandingColumn(invoices, customers[n]), OpenOf(invoices, customers));
    }
  }

  /** Aging the whole customer list gives the subledger of /health, hence GL 1200 less nothing
      but the voided credits. */
  lemma AgingIsTheSubledger(b: Books, customers: seq<nat>)
    requires forall m, n :: 0 <= m < n < |customers| ==> customers[m] != customers[n]
    requires forall i :: 0 <= i < |b.invoices| ==> b.invoices[i].customer in customers
    requires Reconciled(b)
    ensures OutstandingTotal(b.invoices, customers) == Subledger(b) == GeneralLedger(b) + VoidedCredits(b)
  {
    CustomersAddUp(b.invoices, customers);
    assert OpenOf(b.invoices, customers) == OpenBalances(b.invoices);
  }

  // ---- GET /journal-entries, summary ----

  ghost predicate PaymentsShaped(journal: seq<Entry>) {
    forall n :: 0 <= n < |journal| ==> PaymentShape(journal[n])
  }

  lemma {:induction false} RunsShapePayments(start: Books, commands: seq<Command>)
    requires Sound(start) && PaymentsShaped(start.journal)
    ensures PaymentsShaped(Run(start, commands).journal)
  {
    hide Sound, Step, PaymentShape;
    if commands != [] {
      var earlier, c := commands[..|commands| - 1], commands[|commands| - 1];
      var before := Run(start, earlier);
      RunsShapePayments(start, earlier);
      RunKeeps(start, earlier);
      var r := Step(before, c);
      if r.Ok? { NewEntryShaped(before, c, r.value); }
    }
  }

  lemma NewEntryShaped(b: Books, c: Command, b': Books)
    requires Sound(b) && Step(b, c) == Ok(b')
    ensures b'.journal == b.journal || exists e :: b'.journal == b.journal + [e] && PaymentShape(e)
  {
    if c.Pay? {
      hide Step, PaymentShape;
      var p := PaymentConserves(b, c, b');
    } else {
      hide ToBase, Tally, LineSum, AllPostable, TaxSplit.SplitCredit, ToBaseEven, RowOk;
      if b'.journal != b.journal {
        var e := b'.journal[|b.journal|];
        assert b'.journal == b.journal + [e] && PaymentShape(e);
      }
    }
  }

  /** The entries selected for an invoice add up to its own movements and to whatever its
      payments did elsewhere. */
  lemma {:induction false} SummaryParts(journal: seq<Entry>, i: nat, k: Column)
    requires PaymentsShaped(journal)
    ensures Tally(journal, Summary(i, k))
         == Tally(journal, Invoiced(i, k)) - Tally(journal, Allocated(i, k)) - Tally(journal, OtherShares(i, k))
            - Tally(journal, Query.Credited(i, k)) - Tally(journal, Expensed(i, k)) - Tally(journal, Cancelled(i, k))
  {
    hide Measure;
    if journal != [] {
      var n := |journal| - 1;
      SummaryParts(journal[..n], i, k);
      EntryParts(journal[n], i, k);
    }
  }

  lemma EntryParts(e: Entry, i: nat, k: Column)
    requires PaymentShape(e)
    ensures Measure(e, Summary(i, k))
         == Measure(e, Invoiced(i, k)) - Measure(e, Allocated(i, k)) - Measure(e, OtherShares(i, k))
            - Measure(e, Query.Credited(i, k)) - Measure(e, Expensed(i, k)) - Measure(e, Cancelled(i, k))
  {
    hide LineSum, Cleared, ClearedOn;
    if e.document.ForPayment? && !Touches(e.document.payment.allocations, i) {
      NotTouched(e.document.payment.allocations, i, k);
    }
  }

  /** No payment that touches `i` touches another invoice. */
  ghost predicate OwnPaymentsOnly(e: Entry, i: nat) {
    e.document.ForPayment? && Touches(e.document.payment.allocations, i) ==>
      forall n :: 0 <= n < |e.document.payment.allocations| ==> e.document.payment.allocations[n].invoice == i
  }

  lemma {:induction false} SharesOf(allocations: seq<Allocation>, i: nat, k: Column)
    requires forall n :: 0 <= n < |allocations| ==> allocations[n].Valid()
    ensures Cleared(allocations, k) >= ClearedOn(allocations, i, k)
    ensures Cleared(allocations, k) == ClearedOn(allocations, i, k) <==>
              forall n :: 0 <= n < |allocations| ==> allocations[n].invoice == i
  {
    if allocations != [] {
      var n := |allocations| - 1;
      SharesOf(allocations[..n], i, k);
      if forall m :: 0 <= m < n ==> allocations[..n][m].invoice == i {
        assert forall m :: 0 <= m < n ==> allocations[m].invoice == i;
      } else {
        var m :| 0 <= m < n && allocations[..n][m].invoice != i;
        assert allocations[m].invoice != i;
      }
    }
  }

  lemma {:induction false} OtherSharesVanish(journal: seq<Entry>, i: nat, k: Column)
    requires PaymentsShaped(journal)
    ensures Tally(journal, OtherShares(i, k)) >= 0
    ensures Tally(journal, OtherShares(i, k)) == 0 <==> forall n :: 0 <= n < |journal| ==> OwnPaymentsOnly(journal[n], i)
  {
    hide LineSum, Cleared, ClearedOn;
    if journal != [] {
      var n := |journal| - 1;
      OtherSharesVanish(journal[..n], i, k);
      var e := journal[n];
      assert PaymentShape(e);
      if e.document.ForPayment? { SharesOf(e.document.payment.allocations, i, k); }
      assert Measure(e, OtherShares(i, k)) >= 0;
      assert Measure(e, OtherShares(i, k)) == 0 <==> OwnPaymentsOnly(e, i);
      hide OwnPaymentsOnly;
      if forall m :: 0 <= m < n ==> OwnPaymentsOnly(journal[..n][m], i) {
        assert forall m :: 0 <= m < n ==> OwnPaymentsOnly(journal[m], i);
      } else {
        var m :| 0 <= m < n && !OwnPaymentsOnly(journal[..n][m], i);
        assert !OwnPaymentsOnly(journal[m], i);
      }
    }
  }

  /** net_ar_balance of a posted, non-void invoice is its balance less what its payments cleared
      on other invoices: right if and only if none of them did. */
  lemma SummaryNetIsBalance(baseCurrency: string, customers: map<nat, Customer>, commands: seq<Command>, i: nat, k: Column)
    requires var b := Run(Empty(baseCurrency, customers), commands);
             i < |b.invoices| && !b.invoices[i].status.Draft? && !b.invoices[i].status.Void?
    ensures var b := Run(Empty(baseCurrency, customers), commands);
            var net, balance := Tally(b.journal, Summary(i, k)), b.invoices[i].Balance(k);
            && net == balance - Tally(b.journal, OtherShares(i, k)) <= balance
            && (net == balance <==> forall n :: 0 <= n < |b.journal| ==> OwnPaymentsOnly(b.journal[n], i))
  {
    var start := Empty(baseCurrency, customers);
    EmptyIsSound(baseCurrency, customers);
    RunKeeps(start, commands);
    RunsShapePayments(start, commands);
    hide Run, Tally, Drift, ToBase, OwnPaymentsOnly, PaymentsShaped;
    var b := Run(start, commands);
    assert RowAt(b, i);
    assert Conserved(b.journal, i, b.invoices[i], k) by {
      assert Conserved(b.journal, i, b.invoices[i], Transaction) && Conserved(b.journal, i, b.invoices[i], Base);
    }
    SummaryParts(b.journal, i, k);
    OtherSharesVanish(b.journal, i, k);
  }
}
