/** Tax-inclusive credit memos over whole runs: the abstract series of `TaxSplit` is what the ledger
    does, so its two theorems hold of the journal. */
module CreditRuns {
  import opened Money
  import opened Books
  import opened Commands
  import opened Steps
  import opened Lifecycle
  import Rows
  import TaxSplit

  /** What one command leaves creditable on a posted invoice. */
  lemma StepTracks(b: Books, c: Command, b': Books, i: nat)
    requires Sound(b) && Step(b, c) == Ok(b') && i < |b.invoices| && !b.invoices[i].status.Draft?
    requires c.Credit? && c.i == i ==> c.includeTax
    ensures i < |b'.invoices| && !b'.invoices[i].status.Draft? && Sound(b')
    ensures if c.Credit? && c.i == i
            then && c.amount <= RemainingOn(b, i).Creditable()
                 && RemainingOn(b', i) == TaxSplit.Credit(RemainingOn(b, i), c.amount)
            else RemainingOn(b', i) == RemainingOn(b, i)
  {
    StepKeeps(b, c, b');
    StepMoves(b, c, b', i);
    NeverBinds(b, i);
    NeverBinds(b', i);
    if c.Credit? && c.i == i {
      MemoReverses(b, c, b');
      hide Step, Sound, TaxSplit.Credit, RemainingOn, Tally;
    } else {
      OthersReverseNothing(b, c, b', i);
      hide Step, Sound, RemainingOn, Tally;
    }
  }

  lemma MemoReverses(b: Books, c: Command, b': Books)
    requires Sound(b) && c.Credit? && c.includeTax && Step(b, c) == Ok(b')
    ensures c.i < |b.invoices| == |b'.invoices| && c.amount <= RemainingOn(b, c.i).Creditable()
    ensures var left := RemainingOn(b, c.i);
            var r := TaxSplit.Credit(left, c.amount);
            && Tally(b'.journal, Reversed(c.i, Revenue)) == Tally(b.journal, Reversed(c.i, Revenue)) + left.subtotal - r.subtotal
            && Tally(b'.journal, Reversed(c.i, TaxPayable)) == Tally(b.journal, Reversed(c.i, TaxPayable)) + left.tax - r.tax
  {
    var i := c.i;
    var inv, left := b.invoices[i], RemainingOn(b, i);
    MemoFigures(b, c, b');
    var split := TaxSplit.SplitCredit(left, c.amount, true);
    TaxSplit.OneCreditConserves(left, c.amount);
    TaxSplit.InclusiveCreditFits(left, c.amount);
    var f := FiguresFor(inv, split, c.amount);
    var e := Entry(ForCreditMemo(Memo(i, c.amount, f.baseCredit)), MemoLines(f));
    PaidCarriesNothing(b, i);
    hide Step, Sound, MemoLines, Tally, RemainingOn, TaxSplit.SplitCredit, ToBaseEven, LineSum, FiguresOf;
    CreditTallies(b.journal, i, inv, left, c.amount, f, e);
  }

  lemma PaidCarriesNothing(b: Books, i: nat)
    requires Sound(b) && i < |b.invoices|
    ensures !b.invoices[i].status.Draft? && b.invoices[i].balance == 0 ==> b.invoices[i].baseBalance == 0
  {
    hide Tally, ToBase, Rows.Drift;
    assert Rows.RowAt(b, i);
  }

  /** The entry a tax-inclusive memo posts. */
  lemma MemoFigures(b: Books, c: Command, b': Books)
    requires Sound(b) && c.Credit? && c.includeTax && Step(b, c) == Ok(b')
    ensures c.i < |b.invoices| == |b'.invoices| && c.amount > 0 && c.amount <= RemainingOn(b, c.i).Creditable()
    ensures !b.invoices[c.i].status.Draft?
    ensures var inv, left := b.invoices[c.i], RemainingOn(b, c.i);
            var split := TaxSplit.SplitCredit(left, c.amount, true);
            && split.tax >= 0
            && var f := FiguresFor(inv, split, c.amount);
               && FiguresOf(inv, left, c.amount, f)
               && b'.journal == b.journal + [Entry(ForCreditMemo(Memo(c.i, c.amount, f.baseCredit)), MemoLines(f))]
  {
    hide ToBaseEven, HalfEven, RemainingOn, FiguresOf, TaxSplit.SplitCredit, MemoLines, AllPostable, CreditApplied;
    AcceptedFigures(b.invoices[c.i], RemainingOn(b, c.i), c.amount, true);
  }

  lemma OthersReverseNothing(b: Books, c: Command, b': Books, i: nat)
    requires Sound(b) && Step(b, c) == Ok(b') && !(c.Credit? && c.i == i)
    ensures forall a :: Tally(b'.journal, Reversed(i, a)) == Tally(b.journal, Reversed(i, a))
  {
    hide Step, Sound, Tally, LineSum;
    if b'.journal != b.journal {
      var e := NewEntry(b, c, b', i);
      TallySnoc(b.journal, e);
    }
  }

  lemma NewEntry(b: Books, c: Command, b': Books, i: nat) returns (e: Entry)
    requires Sound(b) && Step(b, c) == Ok(b') && !(c.Credit? && c.i == i) && b'.journal != b.journal
    ensures b'.journal == b.journal + [e]
    ensures e.document.ForCreditMemo? ==> e.document.memo.invoice != i
  {
    hide Sound, ToBase, ToBaseEven, Tally, AllPostable, PaymentLines, MemoLines, TaxSplit.SplitCredit, SettleAll,
      CheckItems, AutoItems, RemainingOn;
    e := b'.journal[|b.journal|];
  }

  // ---- Runs ----

  /** The amounts a run credits to one invoice, refused ones left out. */
  function Credits(start: Books, commands: seq<Command>, i: nat): seq<nat> {
    if commands == [] then []
    else
      var before, c := Run(start, commands[..|commands| - 1]), commands[|commands| - 1];
      Credits(start, commands[..|commands| - 1], i)
      + if c.Credit? && c.i == i && Step(before, c).Ok? then [c.amount] else []
  }

  predicate TaxInclusive(commands: seq<Command>, i: nat) {
    forall n | 0 <= n < |commands| :: commands[n].Credit? && commands[n].i == i ==> commands[n].includeTax
  }

  /** Whatever else a run does in between, what it leaves creditable on a posted invoice is what the
      series of its credits leaves. */
  lemma {:induction false} RunTracks(start: Books, commands: seq<Command>, i: nat)
    requires Sound(start) && i < |start.invoices| && !start.invoices[i].status.Draft? && TaxInclusive(commands, i)
    ensures var b, amounts := Run(start, commands), Credits(start, commands, i);
            && Sound(b) && i < |b.invoices| && !b.invoices[i].status.Draft?
            && TaxSplit.Total(amounts) <= RemainingOn(start, i).Creditable()
            && RemainingOn(b, i) == TaxSplit.CreditAll(RemainingOn(start, i), amounts)
  {
    hide Step, Sound, RemainingOn, TaxSplit.Credit;
    if commands != [] {
      var n := |commands| - 1;
      var earlier, c := commands[..n], commands[n];
      var before := Run(start, earlier);
      assert TaxInclusive(earlier, i) by { assert forall m :: 0 <= m < n ==> earlier[m] == commands[m]; }
      RunTracks(start, earlier, i);
      var r := Step(before, c);
      if r.Ok? { StepTracks(before, c, r.value, i); }
      if r.Ok? && c.Credit? && c.i == i {
        OneMoreCredit(RemainingOn(start, i), Credits(start, earlier, i), c.amount);
      } else {
        assert Credits(start, commands, i) == Credits(start, earlier, i);
      }
    }
  }

  lemma OneMoreCredit(left: TaxSplit.Remaining, amounts: seq<nat>, amount: nat)
    requires TaxSplit.Total(amounts) <= left.Creditable()
    requires amount <= TaxSplit.CreditAll(left, amounts).Creditable()
    ensures TaxSplit.Total(amounts + [amount]) <= left.Creditable()
    ensures TaxSplit.CreditAll(left, amounts + [amount]) == TaxSplit.Credit(TaxSplit.CreditAll(left, amounts), amount)
  {
    hide TaxSplit.Credit;
    assert (amounts + [amount])[..|amounts|] == amounts;
  }

  /** After n tax-inclusive credits in a run, the tax not yet reversed is within n/2 quanta of the
      original tax share of what is not yet credited. */
  lemma RunsKeepTaxShare(start: Books, commands: seq<Command>, i: nat)
    requires Sound(start) && i < |start.invoices| && !start.invoices[i].status.Draft? && TaxInclusive(commands, i)
    ensures i < |Run(start, commands).invoices|
    ensures var left := RemainingOn(start, i);
            2 * TaxSplit.ShareError(left, RemainingOn(Run(start, commands), i))
            <= |Credits(start, commands, i)| * left.Creditable()
  {
    hide *;
    RunTracks(start, commands, i);
    TaxSplit.RepeatedCreditsKeepShare(RemainingOn(start, i), Credits(start, commands, i));
  }

  /** A run whose credits add up to all that was creditable has reversed, in the journal, exactly the
      invoice's subtotal and exactly its tax. */
  lemma RunsReverseExactly(start: Books, commands: seq<Command>, i: nat)
    requires Sound(start) && i < |start.invoices| && !start.invoices[i].status.Draft? && TaxInclusive(commands, i)
    requires TaxSplit.Total(Credits(start, commands, i)) == RemainingOn(start, i).Creditable()
    ensures var b := Run(start, commands);
            && i < |b.invoices|
            && Tally(b.journal, Reversed(i, Revenue)) == b.invoices[i].subtotal
            && Tally(b.journal, Reversed(i, TaxPayable)) == b.invoices[i].tax
  {
    hide *;
    RunTracks(start, commands, i);
    AllReversed(Run(start, commands), i);
  }

  lemma AllReversed(b: Books, i: nat)
    requires Sound(b) && i < |b.invoices| && RemainingOn(b, i).Creditable() == 0
    ensures Tally(b.journal, Reversed(i, Revenue)) == b.invoices[i].subtotal
    ensures Tally(b.journal, Reversed(i, TaxPayable)) == b.invoices[i].tax
  {
    NeverBinds(b, i);
    hide Sound, RemainingOn, Tally;
  }
}
