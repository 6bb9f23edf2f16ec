/** The invariant of each invoice row: what the journal and the documents say about an invoice
    always explains its stored balances, in both currencies. */
module Rows {
  import opened Money
  import opened Sums
  import opened Books
  import opened Commands
  import opened Postings
  import opened TaxSplit

  /** total = balance + paid + credited + written off */
  ghost predicate Conserved(j: seq<Entry>, i: nat, inv: Invoice, k: Column) {
    && Tally(j, Invoiced(i, k)) == inv.Total(k)
    && inv.Total(k) == inv.Balance(k) + Tally(j, Allocated(i, k)) + Tally(j, Query.Credited(i, k)) + Tally(j, Expensed(i, k))
    && inv.Balance(k) <= inv.Total(k)
    && Tally(j, Cancelled(i, k)) == 0
    && Tally(j, Allocated(i, k)) >= 0 && Tally(j, Query.Credited(i, k)) >= 0
    && (!inv.status.WrittenOff? ==> Tally(j, Expensed(i, k)) == 0)
  }

  /** Twice the distance of the base balance from the balance at the locked rate, in 1e-12 units. */
  ghost function Drift(inv: Invoice): nat {
    2 * Abs(inv.baseBalance * SCALE - inv.balance * inv.rate)
  }

  ghost predicate DriftBounded(j: seq<Entry>, i: nat, inv: Invoice) {
    && Drift(inv) <= (Tally(j, Reductions(i)) + 2) * SCALE
    && (inv.rate == RATE_ONE ==> inv.baseBalance == inv.balance)
  }

  /** Credit memos never reverse more revenue or tax than was invoiced. */
  ghost predicate ReversalsFit(j: seq<Entry>, i: nat, inv: Invoice) {
    && 0 <= Tally(j, Reversed(i, Revenue)) <= inv.subtotal
    && 0 <= Tally(j, Reversed(i, TaxPayable)) <= inv.tax
    && Tally(j, Reversed(i, Revenue)) + Tally(j, Reversed(i, TaxPayable)) == Tally(j, MemoTotal(i))
  }

  ghost predicate Posted(j: seq<Entry>, i: nat, inv: Invoice) {
    && Tally(j, Approvals(i)) == 1
    && Conserved(j, i, inv, Transaction) && Conserved(j, i, inv, Base)
    && DriftBounded(j, i, inv)
  }

  /** Never approved, so no document mentions it. */
  ghost predicate Untouched(j: seq<Entry>, i: nat) {
    && Tally(j, Approvals(i)) == 0
    && Tally(j, Reductions(i)) == 0 && Tally(j, MemoTotal(i)) == 0
    && Tally(j, Reversed(i, Revenue)) == 0 && Tally(j, Reversed(i, TaxPayable)) == 0
    && (forall k ::
          && Tally(j, Invoiced(i, k)) == 0 && Tally(j, Allocated(i, k)) == 0
          && Tally(j, Query.Credited(i, k)) == 0 && Tally(j, Expensed(i, k)) == 0
          && Tally(j, Cancelled(i, k)) == 0)
  }

  ghost predicate Unpaid(j: seq<Entry>, i: nat) {
    forall k :: Tally(j, Allocated(i, k)) == 0
  }

  /** A void keeps the history of the invoice it removed. */
  ghost predicate Voided(j: seq<Entry>, i: nat, inv: Invoice) {
    && inv.balance == 0 && inv.baseBalance == 0 && Unpaid(j, i)
    && (|| Untouched(j, i)
        || (&& Tally(j, Approvals(i)) == 1
            && (forall k ::
                  && Tally(j, Invoiced(i, k)) == Tally(j, Cancelled(i, k)) == inv.Total(k)
                  && Tally(j, Expensed(i, k)) == 0
                  && Tally(j, Query.Credited(i, k)) >= 0)))
  }

  ghost predicate RowOk(j: seq<Entry>, i: nat, inv: Invoice) {
    && Postings.Priced(inv)
    && ReversalsFit(j, i, inv)
    && (inv.sentAt.Some? ==> !inv.status.Draft? && !inv.status.Approved?)
    && (inv.status.Sent? ==> inv.sentAt.Some?)
    && match inv.status
       case Draft => Untouched(j, i) && inv.balance == inv.total && inv.baseBalance == inv.baseTotal
       case Approved => Posted(j, i, inv) && inv.balance > 0 && Unpaid(j, i)
       case Sent => Posted(j, i, inv) && inv.balance > 0 && Unpaid(j, i)
       case PartiallyPaid => Posted(j, i, inv) && inv.balance > 0
       case Paid => Posted(j, i, inv) && inv.balance == 0 && inv.baseBalance == 0
       case WrittenOff => Posted(j, i, inv) && inv.balance == 0 && inv.baseBalance == 0
       case Void => Voided(j, i, inv)
  }

  ghost predicate RowAt(b: Books, i: nat) {
    if i < |b.invoices| then RowOk(b.journal, i, b.invoices[i]) else Untouched(b.journal, i)
  }

  ghost predicate AllRows(b: Books) {
    forall i: nat :: RowAt(b, i)
  }

  // ---- Steps that leave an invoice alone ----

  predicate About(q: Query, i: nat) {
    match q
    case ArNet(_) => false
    case _ => q.i == i
  }

  ghost predicate SameTallies(j: seq<Entry>, j': seq<Entry>, i: nat) {
    forall q :: About(q, i) ==> Tally(j', q) == Tally(j, q)
  }

  lemma SameRow(b: Books, b': Books, i: nat)
    requires SameTallies(b.journal, b'.journal, i)
    requires i < |b.invoices| ==> i < |b'.invoices| && b'.invoices[i] == b.invoices[i]
    requires i >= |b.invoices| ==> i >= |b'.invoices|
    requires RowAt(b, i)
    ensures RowAt(b', i)
  {
    hide Postings.Priced, Drift, Tally;
    var j, j' := b.journal, b'.journal;
    assert forall k :: Tally(j', Invoiced(i, k)) == Tally(j, Invoiced(i, k));
    assert forall k :: Tally(j', Allocated(i, k)) == Tally(j, Allocated(i, k));
    assert forall k :: Tally(j', Query.Credited(i, k)) == Tally(j, Query.Credited(i, k));
    assert forall k :: Tally(j', Expensed(i, k)) == Tally(j, Expensed(i, k));
    assert forall k :: Tally(j', Cancelled(i, k)) == Tally(j, Cancelled(i, k));
  }

  lemma NoMention(e: Entry, i: nat)
    requires !e.Concerns(i)
    ensures forall q :: About(q, i) ==> Measure(e, q) == 0
  {
    if e.document.ForPayment? {
      forall k { NotTouched(e.document.payment.allocations, i, k); }
    }
  }

  /** An entry that does not concern an invoice changes none of its tallies. */
  lemma OtherRow(b: Books, b': Books, e: Entry, i: nat)
    requires RowAt(b, i)
    requires b'.journal == b.journal + [e] && !e.Concerns(i)
    requires i < |b.invoices| ==> i < |b'.invoices| && b'.invoices[i] == b.invoices[i]
    requires i >= |b.invoices| ==> i >= |b'.invoices|
    ensures RowAt(b', i)
  {
    NoMention(e, i);
    TallySnoc(b.journal, e);
    SameRow(b, b', i);
  }
}
