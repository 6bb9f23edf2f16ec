/** How a credit memo is divided between revenue and tax, and what a series of memos does. */
module TaxSplit {
  import opened Money

  /** What is still creditable on an invoice: unreversed revenue and unreversed tax. */
  datatype Remaining = Remaining(subtotal: nat, tax: nat) {
    function Creditable(): nat { subtotal + tax }
  }

  datatype Split = Split(subtotal: int, tax: int)

  /** The division made by `create_credit_memo`; `tax / creditable * amount` is taken exactly
      and rounded once, half to even. */
  function SplitCredit(left: Remaining, amount: nat, includeTax: bool): Split {
    if includeTax && left.Creditable() > 0 then
      if amount == left.Creditable() then Split(left.subtotal, left.tax)
      else
        Product(amount, left.tax);
        var tax := HalfEven(amount * left.tax, left.Creditable());
        Split(amount - tax, tax)
    else Split(amount, 0)
  }

  /** The CREDIT_COMPONENT_EXCEEDED guard. */
  predicate ComponentExceeded(left: Remaining, s: Split) {
    s.subtotal > left.subtotal || s.tax > left.tax
  }

  /** A tax-inclusive credit within the creditable amount never trips the component guard, and
      both its parts are non-negative. */
  lemma InclusiveCreditFits(left: Remaining, amount: nat)
    requires amount <= left.Creditable()
    ensures var s := SplitCredit(left, amount, true);
            && s.subtotal + s.tax == amount
            && 0 <= s.subtotal && 0 <= s.tax
            && !ComponentExceeded(left, s)
  {
    hide HalfEven;
    var c := left.Creditable();
    if 0 < c && amount < c {
      Product(amount, left.tax);
      var n := amount * left.tax;
      HalfEvenIsNearest(n, c);
      ShareBounds(left.subtotal, left.tax, amount, HalfEven(n, c));
    }
  }

  /** The share lies between what must be taken as tax and what can be. */
  lemma ShareBounds(subtotal: nat, tax: nat, amount: nat, t: nat)
    requires amount < subtotal + tax
    requires 2 * Abs(amount * tax - t * (subtotal + tax)) <= subtotal + tax
    ensures amount - subtotal <= t <= tax && t <= amount
  {
    ShareProducts(subtotal, tax, amount);
    NearestWithin(amount * tax, subtotal + tax, t, tax);
    NearestWithin(amount * tax, subtotal + tax, t, amount);
    NearestAbove(amount * tax, subtotal + tax, t, amount - subtotal);
  }

  lemma ShareProducts(subtotal: nat, tax: nat, amount: nat)
    requires amount < subtotal + tax
    ensures var c, n := subtotal + tax, amount * tax;
            c * (amount - subtotal) <= n && n <= c * tax && n <= c * amount
  {
    var c, n := subtotal + tax, amount * tax;
    assert c * tax - n == (c - amount) * tax;
    Product(c - amount, tax);
    assert c * amount - n == subtotal * amount;
    Product(subtotal, amount);
    assert n - c * (amount - subtotal) == subtotal * (c - amount);
    Product(subtotal, c - amount);
  }

  /** A nearest integer to n/c cannot jump over an integer bound of n/c. */
  lemma NearestWithin(n: int, c: nat, t: int, bound: int)
    requires c > 0 && n <= c * bound
    requires 2 * Abs(n - t * c) <= c
    ensures t <= bound
  {
    if t > bound {
      assert t * c - bound * c >= c by { Distance(bound, t, c); }
    }
  }

  lemma NearestAbove(n: int, c: nat, t: int, bound: int)
    requires c > 0 && n >= c * bound
    requires 2 * Abs(n - t * c) <= c
    ensures t >= bound
  {
    if t < bound {
      assert bound * c - t * c >= c by { Distance(t, bound, c); }
    }
  }

  function After(left: Remaining, s: Split): Remaining
    requires 0 <= s.subtotal <= left.subtotal && 0 <= s.tax <= left.tax
  {
    Remaining(left.subtotal - s.subtotal, left.tax - s.tax)
  }

  /** What is left after one tax-inclusive credit. */
  function Credit(left: Remaining, amount: nat): (r: Remaining)
    requires amount <= left.Creditable()
    ensures r.Creditable() == left.Creditable() - amount
  {
    InclusiveCreditFits(left, amount);
    After(left, SplitCredit(left, amount, true))
  }

  function Total(amounts: seq<nat>): nat {
    if amounts == [] then 0 else Total(amounts[..|amounts| - 1]) + amounts[|amounts| - 1]
  }

  /** What is left after a series of tax-inclusive credits. */
  function CreditAll(left: Remaining, amounts: seq<nat>): (r: Remaining)
    requires Total(amounts) <= left.Creditable()
    ensures r.Creditable() == left.Creditable() - Total(amounts)
  {
    if amounts == [] then left
    else Credit(CreditAll(left, amounts[..|amounts| - 1]), amounts[|amounts| - 1])
  }

  /** The distance of `left.tax` from the original share `tax * creditable' / creditable`,
      multiplied through by the original creditable amount. */
  function ShareError(start: Remaining, left: Remaining): nat {
    Abs(left.tax * start.Creditable() - start.tax * left.Creditable())
  }

  /** One credit moves the remaining tax at most half a quantum further from its share. */
  lemma CreditKeepsShare(start: Remaining, left: Remaining, amount: nat)
    requires amount <= left.Creditable() <= start.Creditable()
    ensures 2 * ShareError(start, Credit(left, amount)) <= 2 * ShareError(start, left) + start.Creditable()
  {
    hide HalfEven, ShareError;
    var c := left.Creditable();
    InclusiveCreditFits(left, amount);
    if c == 0 || amount == c {
      NothingLeftNoError(start, Credit(left, amount));
    } else {
      Product(amount, left.tax);
      var t := HalfEven(amount * left.tax, c);
      assert Credit(left, amount) == Remaining(left.subtotal - (amount - t), left.tax - t);
      HalfEvenIsNearest(amount * left.tax, c);
      PartialCreditError(start, left, amount, t);
    }
  }

  lemma NothingLeftNoError(start: Remaining, left: Remaining)
    requires left.Creditable() == 0
    ensures ShareError(start, left) == 0
  {
    assert left.tax * start.Creditable() == 0 by { Zero(start.Creditable()); }
    assert start.tax * left.Creditable() == 0 by { Zero(start.tax); }
  }

  lemma Zero(x: int)
    ensures 0 * x == 0 && x * 0 == 0
  {}

  lemma PartialCreditError(start: Remaining, left: Remaining, amount: nat, t: nat)
    requires amount < left.Creditable() && t <= left.tax && amount - t <= left.subtotal
    requires IsNearestEven(amount * left.tax, left.Creditable(), t)
    ensures 2 * ShareError(start, Remaining(left.subtotal - (amount - t), left.tax - t))
         <= 2 * ShareError(start, left) + start.Creditable()
  {
    ShareStep(left.tax, start.tax, start.Creditable(), left.Creditable(), amount, t);
  }

  /** The old error shrunk by c'/c, plus the fresh rounding error. */
  lemma ShareStep(tax: nat, share: nat, big: nat, c: nat, amount: nat, t: nat)
    requires amount < c
    requires 2 * Abs(amount * tax - t * c) <= c
    ensures 2 * Abs((tax - t) * big - share * (c - amount)) <= 2 * Abs(tax * big - share * c) + big
  {
    var e, r := tax * big - share * c, amount * tax - t * c;
    ErrorStep(tax, share, big, c, amount, t);
    ScaledBound(c, c - amount, e, (tax - t) * big - share * (c - amount), big, r);
  }

  lemma ErrorStep(tax: int, share: int, big: int, c: int, amount: int, t: int)
    ensures c * ((tax - t) * big - share * (c - amount))
         == (c - amount) * (tax * big - share * c) + big * (amount * tax - t * c)
  {
    var x, y := tax * big, share * c;
    assert c * ((tax - t) * big) == c * x - c * (t * big);
    assert c * (share * (c - amount)) == (c - amount) * y;
    assert (c - amount) * (x - y) == (c - amount) * x - (c - amount) * y;
    assert (c - amount) * x == c * x - amount * x;
    assert big * (amount * tax - t * c) == amount * x - c * (t * big);
  }

  lemma ScaledBound(c: nat, c': nat, e: int, e': int, big: nat, r: int)
    requires 0 < c && c' <= c
    requires 2 * Abs(r) <= c
    requires c * e' == c' * e + big * r
    ensures 2 * Abs(e') <= 2 * Abs(e) + big
  {
    var bound := 2 * Abs(e) + big;
    ProductBound(c', c, e, Abs(e));
    ProductBound(big, big, 2 * r, c);
    Twice(big, r);
    Twice(c, e');
    Twice(c, -e');
    Spread(c, Abs(e), big);
    Negate(c, e');
    Cancel(c, 2 * e', bound);
    Cancel(c, 2 * -e', bound);
  }

  lemma Twice(a: int, x: int)
    ensures a * (2 * x) == 2 * (a * x)
  {}

  lemma Negate(a: int, x: int)
    ensures a * -x == -(a * x)
  {}

  lemma Spread(a: int, x: int, y: int)
    ensures a * (2 * x + y) == 2 * (a * x) + y * a
  {}

  lemma ProductBound(a: nat, b: nat, x: int, y: nat)
    requires a <= b && Abs(x) <= y
    ensures -(b * y) <= a * x <= b * y
  {
    assert b * y - a * x == (b - a) * y + a * (y - x);
    assert b * y + a * x == (b - a) * y + a * (y + x);
    Product(b - a, y);
    Product(a, y - x);
    Product(a, y + x);
  }

  lemma Cancel(c: nat, x: int, y: int)
    requires c > 0 && c * x <= c * y
    ensures x <= y
  {
    if x > y { Distance(y, x, c); }
  }

  lemma NoErrorAtStart(start: Remaining)
    ensures ShareError(start, start) == 0
  {}

  /** After n tax-inclusive credits the remaining tax is within n/2 quanta of the original tax
      share of what remains. */
  lemma {:induction false} RepeatedCreditsKeepShare(start: Remaining, amounts: seq<nat>)
    requires Total(amounts) <= start.Creditable()
    ensures 2 * ShareError(start, CreditAll(start, amounts)) <= |amounts| * start.Creditable()
  {
    hide Credit, ShareError;
    var c := start.Creditable();
    if amounts == [] {
      NoErrorAtStart(start);
    } else {
      var before, last := amounts[..|amounts| - 1], amounts[|amounts| - 1];
      RepeatedCreditsKeepShare(start, before);
      CreditKeepsShare(start, CreditAll(start, before), last);
      OneMore(|before|, c);
    }
  }

  lemma OneMore(n: nat, c: nat)
    ensures (n + 1) * c == n * c + c
  {}

  /** What one credit reverses. */
  function Reverses(left: Remaining, amount: nat): Split { SplitCredit(left, amount, true) }

  function ReversesAll(left: Remaining, amounts: seq<nat>): Split
    requires Total(amounts) <= left.Creditable()
  {
    if amounts == [] then Split(0, 0)
    else
      var before := amounts[..|amounts| - 1];
      var s, t := ReversesAll(left, before), Reverses(CreditAll(left, before), amounts[|amounts| - 1]);
      Split(s.subtotal + t.subtotal, s.tax + t.tax)
  }

  /** Reversed and remaining always add up to the invoice, component by component; so a series
      that credits the whole invoice reverses exactly its subtotal and exactly its tax. */
  lemma {:induction false} CreditsConserve(start: Remaining, amounts: seq<nat>)
    requires Total(amounts) <= start.Creditable()
    ensures var s, left := ReversesAll(start, amounts), CreditAll(start, amounts);
            s.subtotal + left.subtotal == start.subtotal && s.tax + left.tax == start.tax
    ensures Total(amounts) == start.Creditable() ==>
              ReversesAll(start, amounts) == Split(start.subtotal, start.tax)
  {
    hide Reverses, Credit, SplitCredit, HalfEven;
    if amounts != [] {
      var before, last := amounts[..|amounts| - 1], amounts[|amounts| - 1];
      CreditsConserve(start, before);
      OneCreditConserves(CreditAll(start, before), last);
    }
  }

  lemma OneCreditConserves(left: Remaining, amount: nat)
    requires amount <= left.Creditable()
    ensures var s, r := Reverses(left, amount), Credit(left, amount);
            s.subtotal + r.subtotal == left.subtotal && s.tax + r.tax == left.tax
  {
    hide HalfEven;
    InclusiveCreditFits(left, amount);
  }
}
