/** AUTO allocation: a payment is poured over the open invoices, oldest due date first. */
module Fifo {
  import opened Money
  import opened Sums

  /** The amounts `auto_allocate` gives to invoices with these balances, in order. */
  function Pour(balances: seq<int>, payment: int): (amounts: seq<int>)
    ensures |amounts| <= |balances|
  {
    if balances == [] then []
    else
      var n := |balances| - 1;
      var before := Pour(balances[..n], payment);
      var remaining := payment - Sum(before);
      if remaining <= 0 then before else before + [Min(remaining, balances[n])]
  }

  ghost predicate AllPositive(s: seq<int>) {
    forall k :: 0 <= k < |s| ==> s[k] > 0
  }

  /** The promise of FIFO, without saying how: positive amounts go to a prefix of the invoices,
      every one but the last of them is paid off in full, none is overpaid, and as much is
      allocated as the payment and the balances allow. */
  ghost predicate OldestFirst(balances: seq<int>, payment: int, amounts: seq<int>) {
    && |amounts| <= |balances|
    && (forall k :: 0 <= k < |amounts| ==> 0 < amounts[k] <= balances[k])
    && (forall k :: 0 <= k < |amounts| - 1 ==> amounts[k] == balances[k])
    && Sum(amounts) == Min(payment, Sum(balances))
  }

  lemma {:induction false} PourShape(balances: seq<int>, payment: int)
    requires AllPositive(balances) && payment >= 0
    ensures OldestFirst(balances, payment, Pour(balances, payment))
    ensures Sum(Pour(balances, payment)) == Min(payment, Sum(balances))
    ensures Sum(Pour(balances, payment)) < payment ==> Pour(balances, payment) == balances
  {
    hide Sum, OldestFirst, Min, Pour;
    if balances == [] {
      PourNothing(payment);
    } else {
      var n := |balances| - 1;
      var older, next := balances[..n], balances[n];
      assert balances == older + [next];
      PourShape(older, payment);
      PourUnfolds(balances, payment);
      if Sum(Pour(older, payment)) < payment {
        PourOneMore(older, next, payment);
      } else {
        PourNoMore(older, next, payment, Pour(older, payment));
      }
    }
  }

  lemma PourNothing(payment: int)
    requires payment >= 0
    ensures Pour([], payment) == [] && OldestFirst([], payment, []) && Sum([]) == Min(payment, Sum([]))
  {}

  lemma PourUnfolds(balances: seq<int>, payment: int)
    requires balances != []
    ensures var n := |balances| - 1;
            var before := Pour(balances[..n], payment);
            Pour(balances, payment) ==
              if Sum(before) >= payment then before else before + [Min(payment - Sum(before), balances[n])]
  {
    hide Sum, Min;
  }

  lemma PourOneMore(older: seq<int>, next: int, payment: int)
    requires next > 0 && Sum(older) < payment && AllPositive(older)
    ensures var allocate := Min(payment - Sum(older), next);
            && OldestFirst(older + [next], payment, older + [allocate])
            && Sum(older + [allocate]) == Min(payment, Sum(older + [next]))
            && (Sum(older + [allocate]) < payment ==> allocate == next)
  {
    SumSnoc(older, next);
    SumSnoc(older, Min(payment - Sum(older), next));
  }

  lemma PourNoMore(older: seq<int>, next: int, payment: int, amounts: seq<int>)
    requires next > 0 && OldestFirst(older, payment, amounts) && Sum(amounts) >= payment
    ensures OldestFirst(older + [next], payment, amounts)
    ensures Sum(amounts) == payment == Min(payment, Sum(older + [next]))
  {
    SumSnoc(older, next);
  }

  lemma {:induction false} PositiveSum(s: seq<int>)
    requires AllPositive(s)
    ensures Sum(s) >= 0 && (s != [] ==> Sum(s) > 0)
  {
    if s != [] { PositiveSum(s[..|s| - 1]); }
  }

  /** Two oldest-first allocations of one payment cannot have different lengths ... */
  lemma NoLongerAllocation(balances: seq<int>, payment: int, a: seq<int>, b: seq<int>)
    requires OldestFirst(balances, payment, a) && OldestFirst(balances, payment, b)
    ensures |a| >= |b|
  {
    if |a| < |b| {
      var m := |a|;
      SumMonotone(a, b[..m]);
      assert b == b[..m] + b[m..];
      SumConcat(b[..m], b[m..]);
      PositiveSum(b[m..]);
    }
  }

  /** ... and those of one length agree, since all but the last amount are the balances ... */
  lemma EqualLengthsAgree(balances: seq<int>, payment: int, a: seq<int>, b: seq<int>)
    requires OldestFirst(balances, payment, a) && OldestFirst(balances, payment, b) && |a| == |b|
    ensures a == b
  {
    if a != [] {
      var n := |a| - 1;
      assert a[..n] == b[..n];
      SumSnoc(a[..n], a[n]);
      SumSnoc(b[..n], b[n]);
      assert a == a[..n] + [a[n]] && b == b[..n] + [b[n]];
    }
  }

  /** ... so the promise has exactly one solution, and it is the one the loop computes. */
  lemma PourIsTheOnlyOne(balances: seq<int>, payment: int, amounts: seq<int>)
    requires AllPositive(balances) && payment >= 0
    ensures OldestFirst(balances, payment, amounts) <==> amounts == Pour(balances, payment)
  {
    hide Sum, OldestFirst, Min, Pour;
    var p := Pour(balances, payment);
    PourShape(balances, payment);
    if OldestFirst(balances, payment, amounts) {
      NoLongerAllocation(balances, payment, amounts, p);
      NoLongerAllocation(balances, payment, p, amounts);
      EqualLengthsAgree(balances, payment, amounts, p);
    }
  }

  /** The loop of `auto_allocate`. */
  method AutoAllocate(balances: seq<int>, payment: int) returns (amounts: seq<int>, remaining: int)
    requires AllPositive(balances) && payment >= 0
    ensures amounts == Pour(balances, payment)
    ensures OldestFirst(balances, payment, amounts)
    ensures remaining == payment - Sum(amounts) == Max(payment - Sum(balances), 0)
  {
    hide Sum, Min, Max, OldestFirst;
    PourShape(balances, payment);
    Leftover(balances, payment);
    amounts, remaining := [], payment;
    EmptySum();
    var i := 0;
    while i < |balances|
      invariant 0 <= i <= |balances|
      invariant amounts == Pour(balances[..i], payment)
      invariant remaining == payment - Sum(amounts)
    {
      assert balances[..i + 1][..i] == balances[..i];
      if remaining <= 0 {
        PourStops(balances, payment, i);
        break;
      }
      var allocate := Min(remaining, balances[i]);
      SumSnoc(amounts, allocate);
      amounts := amounts + [allocate];
      remaining := remaining - allocate;
      i := i + 1;
    }
    assert i == |balances| ==> balances[..i] == balances;
  }

  lemma EmptySum()
    ensures Sum([]) == 0
  {}

  lemma Leftover(balances: seq<int>, payment: int)
    requires AllPositive(balances) && payment >= 0
    ensures payment - Sum(Pour(balances, payment)) == Max(payment - Sum(balances), 0)
  {
    hide Sum, OldestFirst;
    PourShape(balances, payment);
  }

  /** Leaving the loop early loses nothing: an exhausted payment allocates no more. */
  lemma {:induction false} PourStops(balances: seq<int>, payment: int, i: nat)
    requires i <= |balances| && payment <= Sum(Pour(balances[..i], payment))
    ensures Pour(balances, payment) == Pour(balances[..i], payment)
  {
    hide Sum, Min;
    if i == |balances| {
      assert balances[..i] == balances;
    } else {
      var n := |balances| - 1;
      assert balances[..n][..i] == balances[..i];
      PourStops(balances[..n], payment, i);
    }
  }
}
