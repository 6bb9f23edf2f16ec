/** The credit limit is checked when a draft is created or edited, against an exposure summed
    earlier.  Exactly when that keeps customers within their limits. */
module CreditLimit {
  import opened Money
  import opened Sums
  import opened Books
  import opened Commands
  import opened Lifecycle
  import opened Interleaving
  import Rows
  import Steps

  predicate Within(b: Books, customer: nat)
    requires customer in b.customers
  {
    b.customers[customer].creditLimit > 0 ==>
      Exposure(b.invoices, customer, None) <= b.customers[customer].creditLimit
  }

  ghost predicate AllWithin(b: Books) {
    forall customer :: customer in b.customers ==> Within(b, customer)
  }

  predicate Drafts(c: Command) { c.Create? || c.Patch? }

  /** Whose draft it is. */
  function DraftCustomer(b: Books, c: Command): nat
    requires c.Create? || (c.Patch? && c.i < |b.invoices|)
  {
    if c.Create? then c.customer else b.invoices[c.i].customer
  }

  /** The base total a create or a patch writes. */
  function DraftTotal(b: Books, c: Command): nat
    requires c.Create? || (c.Patch? && c.i < |b.invoices|)
  {
    var currency := if c.Create? then c.currency
                    else if c.newCurrency.Some? then c.newCurrency.value else b.invoices[c.i].currency;
    var subtotal := if c.Create? then SubtotalOf(c.items)
                    else if c.newItems.Some? then SubtotalOf(c.newItems.value) else b.invoices[c.i].subtotal;
    var tax := if c.Create? then TaxOf(c.items)
               else if c.newItems.Some? then TaxOf(c.newItems.value) else b.invoices[c.i].tax;
    match LockedRate(b, currency, c.quote)
    case Ok(rate) => ToBase(subtotal, rate) + ToBase(tax, rate)
    case Err(_) => 0
  }

  /** The exposure at the moment of the commit, plus what it writes, fits the limit. */
  predicate Fits(b: Books, c: Command) {
    c.Create? || (c.Patch? && c.i < |b.invoices|) ==>
      var customer := DraftCustomer(b, c);
      customer in b.customers && b.customers[customer].creditLimit > 0 ==>
        Outstanding(b, c) + DraftTotal(b, c) <= b.customers[customer].creditLimit
  }

  lemma OtherCustomer(invoices: seq<Invoice>, i: nat, row: Invoice, customer: nat)
    requires i < |invoices| && row.customer == invoices[i].customer != customer
    ensures Exposure(invoices[i := row], customer, None) == Exposure(invoices, customer, None)
  {
    hide Sum;
    assert Exposures(invoices[i := row], customer, None) == Exposures(invoices, customer, None);
  }

  /** The guard leaves the edited invoice out of the sum and adds its new total instead. */
  lemma WithoutRow(invoices: seq<Invoice>, i: nat, row: Invoice)
    requires i < |invoices| && row.status.Draft?
    ensures Exposure(invoices[i := row], row.customer, None)
         == Exposure(invoices, row.customer, Some(i)) + row.baseBalance
  {
    hide Sum;
    SumChange(Exposures(invoices, row.customer, Some(i)), Exposures(invoices[i := row], row.customer, None), i);
  }

  lemma WithOneMore(invoices: seq<Invoice>, row: Invoice, customer: nat)
    requires row.status.Draft?
    ensures Exposure(invoices + [row], customer, None)
         == Exposure(invoices, customer, None) + if row.customer == customer then row.baseBalance else 0
  {
    hide Sum;
    var before, after := Exposures(invoices, customer, None), Exposures(invoices + [row], customer, None);
    var more: int := after[|invoices|];
    SumSnoc(before, more);
    assert after == before + [more];
  }

  lemma PatchedRow(b: Books, c: Command, b': Books)
    requires c.Patch? && Step(b, c) == Ok(b')
    ensures c.i < |b.invoices| == |b'.invoices| && b'.customers == b.customers
    ensures var row := b'.invoices[c.i];
            && b'.invoices == b.invoices[c.i := row]
            && row.status.Draft? && row.customer == b.invoices[c.i].customer
            && row.baseBalance == row.baseTotal == DraftTotal(b, c)
            && row.customer in b.customers && !OverLimit(b, row.customer, c.outstanding, row.baseTotal)
  {
    hide ToBase, SubtotalOf, TaxOf;
  }

  lemma CreatedRow(b: Books, c: Command, b': Books)
    requires c.Create? && Step(b, c) == Ok(b')
    ensures |b'.invoices| == |b.invoices| + 1 && b'.customers == b.customers
    ensures var row := b'.invoices[|b.invoices|];
            && b'.invoices == b.invoices + [row]
            && row.status.Draft? && row.customer == c.customer
            && row.baseBalance == row.baseTotal == DraftTotal(b, c)
            && c.customer in b.customers && !OverLimit(b, c.customer, c.outstanding, row.baseTotal)
  {
    hide ToBase, SubtotalOf, TaxOf;
  }

  /** What a commit does to everybody's exposure: its customer's becomes the sum the limit is meant
      for, and nobody else's changes. */
  lemma ExposureAfter(b: Books, c: Command, b': Books)
    requires Drafts(c) && Step(b, c) == Ok(b')
    ensures c.Patch? ==> c.i < |b.invoices|
    ensures b'.customers == b.customers && DraftCustomer(b, c) in b.customers
    ensures Exposure(b'.invoices, DraftCustomer(b, c), None) == Outstanding(b, c) + DraftTotal(b, c)
    ensures forall d :: d != DraftCustomer(b, c) ==> Exposure(b'.invoices, d, None) == Exposure(b.invoices, d, None)
  {
    if c.Create? { ExposureAfterCreate(b, c, b'); } else { ExposureAfterPatch(b, c, b'); }
  }

  lemma ExposureAfterCreate(b: Books, c: Command, b': Books)
    requires c.Create? && Step(b, c) == Ok(b')
    ensures b'.customers == b.customers && c.customer in b.customers
    ensures Exposure(b'.invoices, c.customer, None) == Outstanding(b, c) + DraftTotal(b, c)
    ensures forall d :: d != c.customer ==> Exposure(b'.invoices, d, None) == Exposure(b.invoices, d, None)
  {
    CreatedRow(b, c, b');
    hide Step, Exposure, DraftTotal;
    var row := b'.invoices[|b.invoices|];
    WithOneMore(b.invoices, row, c.customer);
    forall d | d != c.customer { WithOneMore(b.invoices, row, d); }
  }

  lemma ExposureAfterPatch(b: Books, c: Command, b': Books)
    requires c.Patch? && Step(b, c) == Ok(b')
    ensures c.i < |b.invoices| && b'.customers == b.customers && b.invoices[c.i].customer in b.customers
    ensures Exposure(b'.invoices, b.invoices[c.i].customer, None) == Outstanding(b, c) + DraftTotal(b, c)
    ensures forall d :: d != b.invoices[c.i].customer ==>
              Exposure(b'.invoices, d, None) == Exposure(b.invoices, d, None)
  {
    PatchedRow(b, c, b');
    hide Step, Exposure, DraftTotal, OverLimit, LockedRate;
    WithoutRow(b.invoices, c.i, b'.invoices[c.i]);
    OtherCustomers(b.invoices, c.i, b'.invoices[c.i]);
  }

  lemma OtherCustomers(invoices: seq<Invoice>, i: nat, row: Invoice)
    requires i < |invoices| && row.customer == invoices[i].customer
    ensures forall d :: d != row.customer ==> Exposure(invoices[i := row], d, None) == Exposure(invoices, d, None)
  {
    hide Exposure;
    forall d | d != row.customer { OtherCustomer(invoices, i, row, d); }
  }

  /** The commit of a create or a patch leaves its customer within the limit if and only if the
      exposure at that moment plus the new total fits; other customers do not change. */
  lemma DraftKeepsLimitIff(b: Books, c: Command, b': Books)
    requires Drafts(c) && Step(b, c) == Ok(b')
    ensures c.Patch? ==> c.i < |b.invoices|
    ensures b'.customers == b.customers && DraftCustomer(b, c) in b.customers
    ensures Within(b', DraftCustomer(b, c)) <==> Fits(b, c)
    ensures forall d :: d in b.customers && d != DraftCustomer(b, c) ==> (Within(b', d) <==> Within(b, d))
  {
    ExposureAfter(b, c, b');
    hide Step, Exposure, DraftTotal, Outstanding;
  }

  /** Everything a customer's invoices carry, closed ones included. */
  function Owed(invoices: seq<Invoice>, customer: nat): seq<int> {
    seq(|invoices|, i requires 0 <= i < |invoices| =>
      if invoices[i].customer == customer then invoices[i].baseBalance else 0)
  }

  /** The statuses the exposure query leaves out carry nothing: in every reachable state the exposure is
      all that the customer's invoices carry, drafts included. */
  lemma ExposureIsOwed(baseCurrency: string, customers: map<nat, Customer>, commands: seq<Command>, customer: nat)
    ensures var b := Run(Empty(baseCurrency, customers), commands);
            Exposure(b.invoices, customer, None) == Sum(Owed(b.invoices, customer))
  {
    Steps.EmptyIsSound(baseCurrency, customers);
    Steps.RunKeeps(Empty(baseCurrency, customers), commands);
    hide Run, Steps.Sound;
    AllIsOwed(Run(Empty(baseCurrency, customers), commands), customer);
  }

  lemma AllIsOwed(b: Books, customer: nat)
    requires Steps.Sound(b)
    ensures Exposure(b.invoices, customer, None) == Sum(Owed(b.invoices, customer))
  {
    forall i: nat | i < |b.invoices| { ClosedCarryNothing(b, i); }
    hide Steps.Sound, Sum;
    assert Exposures(b.invoices, customer, None) == Owed(b.invoices, customer);
  }

  lemma ClosedCarryNothing(b: Books, i: nat)
    requires Steps.Sound(b) && i < |b.invoices|
    ensures b.invoices[i].Exposed() || b.invoices[i].baseBalance == 0
  {
    hide Tally, ToBase, Rows.Drift, Rows.Posted, Rows.Untouched;
    assert Rows.RowAt(b, i);
  }

  lemma ExposureFalls(inv: Invoice, inv': Invoice)
    requires Moves(inv, inv') && inv'.baseBalance <= inv.baseBalance
    ensures inv'.customer == inv.customer && (inv'.Exposed() ==> inv.Exposed())
  {}

  lemma OtherWithin(b: Books, c: Command, b': Books, customer: nat)
    requires !c.Patch? && !c.Create? && Step(b, c) == Ok(b') && customer in b.customers && Within(b, customer)
    ensures b'.customers == b.customers && Within(b', customer)
  {
    hide Sum, Step, Moves;
    SameCustomers(b, c, b');
    var before, after := Exposures(b.invoices, customer, None), Exposures(b'.invoices, customer, None);
    forall i | 0 <= i < |b.invoices| ensures after[i] <= before[i] {
      StepMoves(b, c, b', i);
      ExposureFalls(b.invoices[i], b'.invoices[i]);
    }
    hide Exposures;
    SumMonotone(after, before);
  }

  lemma SameCustomers(b: Books, c: Command, b': Books)
    requires Step(b, c) == Ok(b')
    ensures b'.customers == b.customers
    ensures !c.Create? ==> |b'.invoices| == |b.invoices|
  {
    hide ToBase, AllPostable, PaymentLines, Exposure, Tally, CheckItems, AutoItems, TaxSplit.SplitCredit;
  }

  lemma StepWithinIff(b: Books, c: Command, b': Books)
    requires AllWithin(b) && Step(b, c) == Ok(b')
    ensures AllWithin(b') <==> Fits(b, c)
  {
    SameCustomers(b, c, b');
    if Drafts(c) {
      DraftKeepsLimitIff(b, c, b');
      hide Step, Within, Fits;
    } else {
      hide Step, Within;
      forall customer | customer in b'.customers { OtherWithin(b, c, b', customer); }
    }
  }

  /** A sum that was not too low when the draft was written makes the guard enough. */
  lemma FreshSumsFit(b: Books, c: Command, b': Books)
    requires Step(b, c) == Ok(b') && (Drafts(c) ==> c.outstanding >= Outstanding(b, c))
    ensures Fits(b, c)
  {
    if Drafts(c) {
      if c.Create? { CreatedRow(b, c, b'); } else { PatchedRow(b, c, b'); }
      hide Step, Exposure, DraftTotal;
    }
  }

  predicate FitsAt(b: Books, c: Command) {
    Step(b, c).Ok? ==> Fits(b, c)
  }

  /** Over a run: nobody is ever beyond a limit if and only if every commit of a draft fits at the
      moment it is made. */
  lemma RunsStayWithinIff(start: Books, commands: seq<Command>)
    requires AllWithin(start)
    ensures (forall n: nat :: n <= |commands| ==> AllWithin(Run(start, commands[..n])))
       <==> (forall n: nat :: n < |commands| ==> FitsAt(Run(start, commands[..n]), commands[n]))
  {
    hide Run, AllWithin, FitsAt;
    if forall n: nat :: n <= |commands| ==> AllWithin(Run(start, commands[..n])) {
      forall n: nat | n < |commands| ensures FitsAt(Run(start, commands[..n]), commands[n]) {
        assert AllWithin(Run(start, commands[..n])) && AllWithin(Run(start, commands[..n + 1]));
        PrefixStep(start, commands, n);
      }
    } else if forall n: nat :: n < |commands| ==> FitsAt(Run(start, commands[..n]), commands[n]) {
      forall n: nat | n <= |commands| ensures AllWithin(Run(start, commands[..n])) {
        PrefixWithin(start, commands, n);
      }
    }
  }

  lemma PrefixStep(start: Books, commands: seq<Command>, n: nat)
    requires n < |commands| && AllWithin(Run(start, commands[..n]))
    ensures AllWithin(Run(start, commands[..n + 1])) <==> FitsAt(Run(start, commands[..n]), commands[n])
  {
    hide Step, AllWithin, FitsAt;
    assert commands[..n + 1][..n] == commands[..n];
    LastStepIff(Run(start, commands[..n]), commands[n]);
  }

  lemma {:induction false} PrefixWithin(start: Books, commands: seq<Command>, n: nat)
    requires AllWithin(start) && n <= |commands|
    requires forall k: nat :: k < n ==> FitsAt(Run(start, commands[..k]), commands[k])
    ensures AllWithin(Run(start, commands[..n]))
  {
    hide Step, AllWithin, FitsAt;
    if n > 0 {
      PrefixWithin(start, commands, n - 1);
      PrefixStep(start, commands, n - 1);
    }
  }

  lemma LastStepIff(b: Books, c: Command)
    ensures AllWithin(b) ==> (AllWithin(After(Step(b, c), b)) <==> FitsAt(b, c))
  {
    hide AllWithin, Fits, Step;
    var r := Step(b, c);
    if AllWithin(b) && r.Ok? { StepWithinIff(b, c, r.value); }
  }

  /** The sums of a run are in time: nothing raised the exposure between the query and the write. */
  ghost predicate SumsInTime(start: Books, commands: seq<Command>) {
    forall n: nat :: n < |commands| && Drafts(commands[n]) ==>
      commands[n].outstanding >= Outstanding(Run(start, commands[..n]), commands[n])
  }

  /** Then no run takes a customer with a limit beyond it. */
  lemma RunsStayWithin(start: Books, commands: seq<Command>)
    requires AllWithin(start) && SumsInTime(start, commands)
    ensures AllWithin(Run(start, commands))
  {
    hide Step, AllWithin, FitsAt, Outstanding;
    forall n: nat | n < |commands| ensures FitsAt(Run(start, commands[..n]), commands[n]) {
      FitInTime(Run(start, commands[..n]), commands[n]);
    }
    RunsStayWithinIff(start, commands);
    assert commands[..|commands|] == commands;
  }

  lemma FitInTime(b: Books, c: Command)
    requires Drafts(c) ==> c.outstanding >= Outstanding(b, c)
    ensures FitsAt(b, c)
  {
    hide Step, Outstanding, Fits;
    if Step(b, c).Ok? { FreshSumsFit(b, c, Step(b, c).value); }
  }

  // ---- A run that is not in time ----

  const LIMITED: map<nat, Customer> := map[0 := Customer(true, 100)]
  const SIXTY := Create(1, 0, "INR", None, [LineTotals(60, 0)], 0, 0)

  lemma CreatesSixty(b: Books)
    requires b.baseCurrency == "INR" && b.customers == LIMITED
    ensures var r := Step(b, SIXTY);
            && r.Ok? && r.value.customers == LIMITED && r.value.baseCurrency == "INR"
            && |r.value.invoices| == |b.invoices| + 1 && r.value.invoices[..|b.invoices|] == b.invoices
            && Exposure(r.value.invoices, 0, None) == Exposure(b.invoices, 0, None) + 60
  {
    UnitRate(60);
    UnitRate(0);
    var items := [LineTotals(60, 0)];
    assert items[..0] == [];
    assert SubtotalOf(items) == SubtotalOf(items[..0]) + 60 && TaxOf(items) == TaxOf(items[..0]);
    hide ToBase, Exposure, SubtotalOf, TaxOf;
    var r := Step(b, SIXTY);
    assert r.Ok?;
    CreatedRow(b, SIXTY, r.value);
    hide Step;
    WithOneMore(b.invoices, r.value.invoices[|b.invoices|], 0);
  }

  lemma Happens(start: Books, events: seq<Event>, e: Event)
    ensures Worlds(start, events + [e]) == Next(Worlds(start, events), e)
  {
    hide Next;
    assert (events + [e])[..|events|] == events;
  }

  /** Two creates of 60 against a limit of 100, both summed before either is written: both commit,
      and the customer ends at 120. */
  lemma TwoDraftsOverrunTheLimit() returns (events: seq<Event>)
    ensures var b := Worlds(Empty("INR", LIMITED), events).books;
            && |b.invoices| == 2 && 0 in b.customers && !Within(b, 0) && Exposure(b.invoices, 0, None) == 120
  {
    var start := Empty("INR", LIMITED);
    NobodyOwes("INR", LIMITED);
    hide Step, Exposure, Worlds, Next;
    CreatesSixty(start);
    var one := Step(start, SIXTY).value;
    CreatesSixty(one);
    var first := [Begin(0, SIXTY), Begin(1, SIXTY)];
    TwoBegin(start);
    var reading := map[0 := Read(SIXTY, None), 1 := Read(SIXTY, None)];
    Happens(start, first, Finish(0));
    FinishesSixty(start, reading, 0);
    Happens(start, first + [Finish(0)], Finish(1));
    FinishesSixty(one, reading - {0}, 1);
    events := first + [Finish(0)] + [Finish(1)];
  }

  lemma FinishesSixty(b: Books, inFlight: map<nat, Read>, t: nat)
    requires t in inFlight && inFlight[t] == Read(SIXTY, None) && Step(b, SIXTY).Ok?
    ensures Next(World(b, inFlight), Finish(t)) == World(Step(b, SIXTY).value, inFlight - {t})
  {
    CreateConcludes(b);
    hide Step, Concluded;
  }

  lemma CreateConcludes(b: Books)
    ensures Concluded(b, Read(SIXTY, None)) == Step(b, SIXTY)
  {
    hide CreateInvoice;
  }

  lemma NobodyOwes(baseCurrency: string, customers: map<nat, Customer>)
    ensures Exposure(Empty(baseCurrency, customers).invoices, 0, None) == 0
    ensures AllWithin(Empty(baseCurrency, customers))
  {}

  lemma TwoBegin(start: Books)
    requires start == Empty("INR", LIMITED)
    ensures Worlds(start, [Begin(0, SIXTY), Begin(1, SIXTY)])
         == World(start, map[0 := Read(SIXTY, None), 1 := Read(SIXTY, None)])
  {
    NobodyOwes("INR", LIMITED);
    hide Exposure;
    assert Summed(start, SIXTY) == SIXTY;
    Happens(start, [], Begin(0, SIXTY));
    Happens(start, [Begin(0, SIXTY)], Begin(1, SIXTY));
    assert [] + [Begin(0, SIXTY)] == [Begin(0, SIXTY)];
    assert [Begin(0, SIXTY)] + [Begin(1, SIXTY)] == [Begin(0, SIXTY), Begin(1, SIXTY)];
  }
}
