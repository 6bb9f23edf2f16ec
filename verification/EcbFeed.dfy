/** Reading one ECB batch: foreign-per-EUR quotes validated and turned into INR-per-foreign rates. */
module EcbFeed {
  import opened Money

  const BASE := "INR"
  const ANCHOR := "EUR"
  const SUPPORTED := ["INR", "USD", "EUR", "CNY", "GBP", "JPY", "CHF", "CAD"]

  /** The quotes a batch must contain. */
  const EXPECTED: set<string> := (set c | c in SUPPORTED) - {ANCHOR}

  const COLUMNS := {"CURRENCY", "CURRENCY_DENOM", "TIME_PERIOD", "OBS_VALUE", "OBS_STATUS"}

  /** What the csv and decimal libraries make of one row; None is text they reject. */
  datatype Value = Finite(value: real) | NotFinite
  datatype CsvRow = CsvRow(currency: string, denominator: string, date: Option<int>, value: Option<Value>, status: string)

  datatype Problem =
    | MissingColumns | WrongDenominator | Duplicate | Invalid | NotPositive | NotAvailable | MissingCurrency | Incoherent

  datatype Batch = Batch(date: int, quotes: map<string, real>)
  datatype Parsed = Accepted(batch: Batch) | Rejected(problem: Problem)

  /** A row's own validity. */
  predicate Good(r: CsvRow) {
    && r.denominator == ANCHOR
    && r.date.Some? && r.value.Some? && r.value.value.Finite? && r.value.value.value > 0.0
    && (r.status == "A" || r.status == "")
  }

  /** The rows of one currency, in order. */
  function Of(rows: seq<CsvRow>, currency: string): (r: seq<CsvRow>)
    ensures |r| <= |rows|
  {
    if rows == [] then []
    else
      var last := rows[|rows| - 1];
      Of(rows[..|rows| - 1], currency) + if last.currency == currency then [last] else []
  }

  /** What an acceptable batch is: every expected currency has exactly one row, that row is good,
      and all of them bear one date.  Other currencies do not matter. */
  ghost predicate Reads(rows: seq<CsvRow>, batch: Batch) {
    && batch.quotes.Keys == EXPECTED
    && forall c :: c in EXPECTED ==>
         var r := Of(rows, c);
         |r| == 1 && Good(r[0]) && r[0].date.value == batch.date && r[0].value.value.value == batch.quotes[c]
  }

  lemma ReadsOneBatch(rows: seq<CsvRow>, a: Batch, b: Batch)
    requires Reads(rows, a) && Reads(rows, b)
    ensures a == b
  {
    assert "INR" in EXPECTED;
    assert forall c :: c in EXPECTED ==> a.quotes[c] == b.quotes[c];
  }

  /** The n-th row is the only one of its currency. */
  ghost predicate Sole(rows: seq<CsvRow>, c: string, n: nat) {
    && n < |rows| && rows[n].currency == c
    && forall m :: 0 <= m < |rows| && m != n ==> rows[m].currency != c
  }

  lemma {:induction false} OfSole(rows: seq<CsvRow>, c: string)
    ensures |Of(rows, c)| == 0 <==> forall m :: 0 <= m < |rows| ==> rows[m].currency != c
    ensures |Of(rows, c)| == 1 <==> exists n: nat :: Sole(rows, c, n)
    ensures forall n: nat :: Sole(rows, c, n) ==> Of(rows, c) == [rows[n]]
  {
    if rows != [] {
      var last := |rows| - 1;
      var earlier := rows[..last];
      OfSole(earlier, c);
      forall n: nat | n < last ensures Sole(rows, c, n) <==> Sole(earlier, c, n) && rows[last].currency != c {
        assert forall m :: 0 <= m < last ==> earlier[m] == rows[m];
      }
      assert Sole(rows, c, last) <==> rows[last].currency == c && |Of(earlier, c)| == 0 by {
        assert forall m :: 0 <= m < last ==> earlier[m] == rows[m];
      }
      if |Of(rows, c)| == 1 && rows[last].currency != c {
        var n: nat :| Sole(earlier, c, n);
        assert Sole(rows, c, n);
      }
    }
  }

  /** One row of the currency, per euro, with this date and positive value, not marked unavailable. */
  ghost predicate QuotedOnce(rows: seq<CsvRow>, c: string, date: int, value: real) {
    exists n: nat :: Sole(rows, c, n) && Quotes(rows[n], date, value)
  }

  ghost predicate Quotes(r: CsvRow, date: int, value: real) {
    && r.denominator == "EUR" && r.date == Some(date) && r.value == Some(Finite(value)) && value > 0.0
    && (r.status == "A" || r.status == "")
  }

  /** Spelled out: a batch is read exactly when it quotes the seven currencies, each of them once. */
  lemma ReadsIff(rows: seq<CsvRow>, batch: Batch)
    ensures Reads(rows, batch) <==>
              && batch.quotes.Keys == {"INR", "USD", "CNY", "GBP", "JPY", "CHF", "CAD"}
              && forall c :: c in batch.quotes ==> QuotedOnce(rows, c, batch.date, batch.quotes[c])
  {
    Currencies();
    hide Of, Sole, Good, QuotedOnce;
    forall c | c in batch.quotes { OneQuote(rows, c, batch.date, batch.quotes[c]); }
  }

  lemma OneQuote(rows: seq<CsvRow>, c: string, date: int, value: real)
    ensures var r := Of(rows, c);
            |r| == 1 && Good(r[0]) && r[0].date.value == date && r[0].value.value.value == value <==>
              QuotedOnce(rows, c, date, value)
  {
    OfSole(rows, c);
    hide Of;
    if |Of(rows, c)| == 1 {
      var n: nat :| Sole(rows, c, n);
      assert Of(rows, c) == [rows[n]];
      assert Good(rows[n]) && rows[n].date.value == date && rows[n].value.value.value == value <==>
               Quotes(rows[n], date, value);
    }
  }

  lemma Currencies()
    ensures EXPECTED == {"INR", "USD", "CNY", "GBP", "JPY", "CHF", "CAD"}
  {
    var all := set c | c in SUPPORTED;
    forall c: string ensures c in all <==> c in {"INR", "USD", "EUR", "CNY", "GBP", "JPY", "CHF", "CAD"} {
      assert SUPPORTED[0] in all && SUPPORTED[1] in all && SUPPORTED[2] in all && SUPPORTED[3] in all;
      assert SUPPORTED[4] in all && SUPPORTED[5] in all && SUPPORTED[6] in all && SUPPORTED[7] in all;
    }
  }

  // ---- Row order ----

  lemma {:induction false} OfCounts(rows: seq<CsvRow>, currency: string, x: CsvRow)
    ensures multiset(Of(rows, currency))[x] == if x.currency == currency then multiset(rows)[x] else 0
  {
    if rows != [] {
      var n := |rows| - 1;
      OfCounts(rows[..n], currency, x);
      assert rows == rows[..n] + [rows[n]];
      var before, after := Of(rows[..n], currency), if rows[n].currency == currency then [rows[n]] else [];
      assert multiset(before + after) == multiset(before) + multiset(after);
    }
  }

  lemma SameRows(rows: seq<CsvRow>, rows': seq<CsvRow>, currency: string)
    requires multiset(rows) == multiset(rows')
    ensures multiset(Of(rows, currency)) == multiset(Of(rows', currency))
    ensures |Of(rows, currency)| == |Of(rows', currency)|
    ensures |Of(rows, currency)| == 1 ==> Of(rows, currency) == Of(rows', currency)
  {
    hide Of;
    var a, b := Of(rows, currency), Of(rows', currency);
    forall x: CsvRow ensures multiset(a)[x] == multiset(b)[x] {
      OfCounts(rows, currency, x);
      OfCounts(rows', currency, x);
    }
    assert multiset(a) == multiset(b);
    assert |multiset(a)| == |a| && |multiset(b)| == |b|;
    if |a| == 1 { assert a[0] in multiset(b) && b[0] in multiset(a); }
  }

  /** The batch read does not depend on the order of the rows. */
  lemma OrderDoesNotMatter(rows: seq<CsvRow>, rows': seq<CsvRow>, batch: Batch)
    requires multiset(rows) == multiset(rows')
    ensures Reads(rows, batch) <==> Reads(rows', batch)
  {
    hide Of;
    forall c | c in EXPECTED { SameRows(rows, rows', c); }
  }

  // ---- The parser ----

  lemma {:induction false} OfPrefix(rows: seq<CsvRow>, n: nat, currency: string)
    requires n <= |rows|
    ensures Of(rows[..n], currency) <= Of(rows, currency)
  {
    if n == |rows| {
      assert rows[..n] == rows;
    } else {
      assert rows[..|rows| - 1][..n] == rows[..n];
      OfPrefix(rows[..|rows| - 1], n, currency);
    }
  }

  /** What the loop's dictionary and set hold of one currency. */
  ghost predicate Kept(rows: seq<CsvRow>, c: string, quotes: map<string, real>, dates: set<int>) {
    var r := Of(rows, c);
    && |r| == (if c in quotes then 1 else 0)
    && (c in quotes ==> Good(r[0]) && r[0].value.value.value == quotes[c] && r[0].date.value in dates)
  }

  /** ... and of all the rows read so far. */
  ghost predicate SoFar(rows: seq<CsvRow>, quotes: map<string, real>, dates: set<int>) {
    && quotes.Keys <= EXPECTED
    && (forall c :: c in EXPECTED ==> Kept(rows, c, quotes, dates))
    && (forall d :: d in dates ==> exists c :: c in quotes && Bears(rows, c, d))
  }

  /** The first row of a currency has this date. */
  predicate Bears(rows: seq<CsvRow>, currency: string, date: int) {
    var r := Of(rows, currency);
    |r| > 0 && r[0].date == Some(date)
  }

  lemma StillBears(rows: seq<CsvRow>, row: CsvRow, currency: string, date: int)
    requires Bears(rows, currency, date)
    ensures Bears(rows + [row], currency, date)
  {
    OfSnoc(rows, row, currency);
    hide Of;
  }

  lemma BadRow(rows: seq<CsvRow>, n: nat, quotes: map<string, real>, dates: set<int>)
    requires n < |rows| && SoFar(rows[..n], quotes, dates) && rows[n].currency in EXPECTED
    requires rows[n].currency in quotes || !Good(rows[n])
    ensures forall batch :: !Reads(rows, batch)
  {
    var c := rows[n].currency;
    assert rows[..n + 1][..n] == rows[..n];
    OfPrefix(rows, n + 1, c);
    assert Of(rows[..n + 1], c) == Of(rows[..n], c) + [rows[n]];
    hide Of;
    assert Of(rows[..n], c) == [] || |Of(rows[..n], c)| == 1;
  }

  lemma StillKept(rows: seq<CsvRow>, row: CsvRow, c: string, quotes: map<string, real>, dates: set<int>,
                  quotes': map<string, real>, dates': set<int>)
    requires Kept(rows, c, quotes, dates) && c != row.currency && dates <= dates'
    requires c in quotes <==> c in quotes'
    requires c in quotes ==> quotes'[c] == quotes[c]
    ensures Kept(rows + [row], c, quotes', dates')
  {
    OfSnoc(rows, row, c);
    hide Of, Good;
  }

  lemma NewlyKept(rows: seq<CsvRow>, row: CsvRow, quotes: map<string, real>, dates: set<int>)
    requires Kept(rows, row.currency, quotes, dates) && row.currency !in quotes && Good(row)
    ensures Kept(rows + [row], row.currency, quotes[row.currency := row.value.value.value], dates + {row.date.value})
    ensures Bears(rows + [row], row.currency, row.date.value)
  {
    OfSnoc(rows, row, row.currency);
    hide Of;
  }

  lemma GoodRow(rows: seq<CsvRow>, row: CsvRow, quotes: map<string, real>, dates: set<int>)
    requires SoFar(rows, quotes, dates) && row.currency in EXPECTED && row.currency !in quotes && Good(row)
    ensures SoFar(rows + [row], quotes[row.currency := row.value.value.value], dates + {row.date.value})
  {
    assert row.date.Some? && row.value.Some? && row.value.value.Finite?;
    hide Good, Bears, Kept, Of;
    var quotes', dates' := quotes[row.currency := row.value.value.value], dates + {row.date.value};
    NewlyKept(rows, row, quotes, dates);
    forall c | c in EXPECTED ensures Kept(rows + [row], c, quotes', dates') {
      if c != row.currency { StillKept(rows, row, c, quotes, dates, quotes', dates'); }
    }
    forall d | d in dates' ensures exists c :: c in quotes' && Bears(rows + [row], c, d) {
      if d in dates {
        var c :| c in quotes && Bears(rows, c, d);
        StillBears(rows, row, c, d);
        assert c in quotes';
      } else {
        assert row.currency in quotes';
      }
    }
  }

  lemma OfSnoc(rows: seq<CsvRow>, row: CsvRow, c: string)
    ensures Of(rows + [row], c) == Of(rows, c) + if row.currency == c then [row] else []
  {
    assert (rows + [row])[..|rows|] == rows;
  }

  lemma OtherRow(rows: seq<CsvRow>, row: CsvRow, quotes: map<string, real>, dates: set<int>)
    requires SoFar(rows, quotes, dates) && row.currency !in EXPECTED
    ensures SoFar(rows + [row], quotes, dates)
  {
    hide Good, Bears, Kept, Of;
    forall c | c in EXPECTED ensures Kept(rows + [row], c, quotes, dates) {
      StillKept(rows, row, c, quotes, dates, quotes, dates);
    }
    forall d | d in dates ensures exists c :: c in quotes && Bears(rows + [row], c, d) {
      var c :| c in quotes && Bears(rows, c, d);
      StillBears(rows, row, c, d);
    }
  }

  /** parse_ecb_csv accepts a batch exactly when it reads one, and returns that one. */
  method ParseEcb(columns: set<string>, rows: seq<CsvRow>) returns (parsed: Parsed)
    ensures parsed == Rejected(MissingColumns) <==> !(COLUMNS <= columns)
    ensures COLUMNS <= columns ==>
              match parsed
              case Accepted(batch) => Reads(rows, batch)
              case Rejected(_) => forall batch :: !Reads(rows, batch)
  {
    hide Of, Good, SoFar, Reads;
    if !(COLUMNS <= columns) { return Rejected(MissingColumns); }
    var quotes: map<string, real>, dates: set<int> := map[], {};
    NothingRead();
    for n := 0 to |rows|
      invariant SoFar(rows[..n], quotes, dates)
    {
      var row := rows[n];
      assert rows[..n + 1] == rows[..n] + [row];
      if row.currency !in EXPECTED {
        OtherRow(rows[..n], row, quotes, dates);
        continue;
      }
      var problem := Examine(row, quotes);
      if problem.Some? {
        BadRow(rows, n, quotes, dates);
        return Rejected(problem.value);
      }
      GoodRow(rows[..n], row, quotes, dates);
      quotes := quotes[row.currency := row.value.value.value];
      dates := dates + {row.date.value};
    }
    assert rows[..|rows|] == rows;
    if EXPECTED - quotes.Keys != {} {
      Incomplete(rows, quotes, dates);
      return Rejected(MissingCurrency);
    }
    if |dates| != 1 {
      NotOneDate(rows, quotes, dates);
      return Rejected(Incoherent);
    }
    SomeDate(rows, quotes, dates);
    var date :| date in dates;
    Complete(rows, quotes, dates, date);
    return Accepted(Batch(date, quotes));
  }

  /** The checks made on one row of an expected currency, in order. */
  method Examine(row: CsvRow, quotes: map<string, real>) returns (problem: Option<Problem>)
    ensures problem == None <==> row.currency !in quotes && Good(row)
    ensures problem != Some(MissingColumns)
    ensures problem == None ==> row.date.Some? && row.value.Some? && row.value.value.Finite?
  {
    if row.denominator != ANCHOR { return Some(WrongDenominator); }
    if row.currency in quotes { return Some(Duplicate); }
    if row.date.None? || row.value.None? { return Some(Invalid); }
    if row.value.value.NotFinite? || row.value.value.value <= 0.0 { return Some(NotPositive); }
    if row.status != "A" && row.status != "" { return Some(NotAvailable); }
    return None;
  }

  lemma SomeDate(rows: seq<CsvRow>, quotes: map<string, real>, dates: set<int>)
    requires SoFar(rows, quotes, dates) && EXPECTED - quotes.Keys == {}
    ensures exists d :: d in dates
  {
    hide Of;
    assert "INR" in EXPECTED && "INR" in quotes;
    var d: int := Of(rows, "INR")[0].date.value;
    assert d in dates;
  }

  lemma NothingRead()
    ensures SoFar([], map[], {})
  {}

  lemma Incomplete(rows: seq<CsvRow>, quotes: map<string, real>, dates: set<int>)
    requires SoFar(rows, quotes, dates) && EXPECTED - quotes.Keys != {}
    ensures forall batch :: !Reads(rows, batch)
  {
    hide Of;
    var c :| c in EXPECTED && c !in quotes;
    assert |Of(rows, c)| == 0;
  }

  lemma NotOneDate(rows: seq<CsvRow>, quotes: map<string, real>, dates: set<int>)
    requires SoFar(rows, quotes, dates) && EXPECTED - quotes.Keys == {} && |dates| != 1
    ensures forall batch :: !Reads(rows, batch)
  {
    hide Of;
    forall batch ensures !Reads(rows, batch) {
      if Reads(rows, batch) { OneDate(rows, quotes, dates, batch); }
    }
  }

  lemma OneDate(rows: seq<CsvRow>, quotes: map<string, real>, dates: set<int>, batch: Batch)
    requires SoFar(rows, quotes, dates) && EXPECTED - quotes.Keys == {} && Reads(rows, batch)
    ensures dates == {batch.date}
  {
    hide Of;
    assert "INR" in EXPECTED && "INR" in quotes;
    assert Of(rows, "INR")[0].date.value in dates;
    forall d | d in dates ensures d == batch.date {
      var c :| c in quotes && Bears(rows, c, d);
      assert c in EXPECTED;
    }
  }

  lemma Complete(rows: seq<CsvRow>, quotes: map<string, real>, dates: set<int>, date: int)
    requires SoFar(rows, quotes, dates) && EXPECTED - quotes.Keys == {} && |dates| == 1 && date in dates
    ensures Reads(rows, Batch(date, quotes))
  {
    hide Of;
    assert dates == {date} by {
      assert |dates - {date}| == 0;
    }
    assert quotes.Keys == EXPECTED;
  }

  // ---- Derived rates ----

  /** Rates are stored in 1e-8 units. */
  const QUANTUM := 100_000_000.0

  /** ROUND_HALF_EVEN */
  function Round(y: real): int {
    var q := y.Floor;
    var rest := y - q as real;
    if rest < 0.5 || (rest == 0.5 && q % 2 == 0) then q else q + 1
  }

  function Quantize(x: real): int { Round(x * QUANTUM) }

  /** Within half a unit, and the even neighbour when exactly between two. */
  predicate IsNearest(y: real, r: int) {
    var d := y - r as real;
    -0.5 <= d <= 0.5 && (d == 0.5 || d == -0.5 ==> r % 2 == 0)
  }

  lemma RoundIsNearest(y: real, r: int)
    ensures IsNearest(y, r) <==> r == Round(y)
  {}

  datatype Rate = Rate(rate: int, rawQuote: int, derived: bool)

  function RateFor(quotes: map<string, real>, currency: string): Rate
    requires "INR" in quotes && (currency == ANCHOR || currency in quotes) && forall c :: c in quotes ==> quotes[c] > 0.0
  {
    if currency == ANCHOR then Rate(Quantize(quotes["INR"]), Quantize(quotes["INR"]), false)
    else Rate(Quantize(quotes["INR"] / quotes[currency]), Quantize(quotes[currency]), true)
  }

  /** Each derived rate, multiplied back by its quote, is INR per EUR to within half a quantum of
      the quote. */
  lemma RatesInvertQuotes(quotes: map<string, real>, currency: string)
    requires "INR" in quotes && currency in quotes && currency != ANCHOR && forall c :: c in quotes ==> quotes[c] > 0.0
    ensures var r, q, inr := RateFor(quotes, currency).rate as real, quotes[currency], quotes["INR"] * QUANTUM;
            -q <= 2.0 * (r * q - inr) <= q
  {
    var y := DerivedRate(quotes, currency);
    var rate := RateFor(quotes, currency).rate;
    assert -1.0 <= 2.0 * (rate as real - y) <= 1.0;
    hide RateFor, Round, IsNearest;
    Bands(rate as real, y, rate as real - y, quotes[currency], quotes["INR"] * QUANTUM);
  }

  lemma Bands(r: real, y: real, t: real, q: real, scaled: real)
    requires q > 0.0 && r == y + t && -1.0 <= 2.0 * t <= 1.0 && y * q == scaled
    ensures -q <= 2.0 * (r * q - scaled) <= q
  {
    Spread(r, y, t, q);
    Stretch(t, q);
    Shift(r * q, y * q, t * q, q);
  }

  lemma Shift(rq: real, yq: real, tq: real, q: real)
    requires rq == yq + tq && -q <= 2.0 * tq <= q
    ensures -q <= 2.0 * (rq - yq) <= q
  {}

  lemma Spread(r: real, y: real, t: real, q: real)
    requires r == y + t
    ensures r * q == y * q + t * q
  {}

  lemma Stretch(t: real, q: real)
    requires q > 0.0 && -1.0 <= 2.0 * t <= 1.0
    ensures -q <= 2.0 * (t * q) <= q
  {
    NonNegative(1.0 - 2.0 * t, q);
    NonNegative(1.0 + 2.0 * t, q);
  }

  lemma NonNegative(a: real, b: real)
    requires a >= 0.0 && b >= 0.0
    ensures a * b >= 0.0
  {}

  /** The quotient, in units of the stored rate, before rounding. */
  lemma DerivedRate(quotes: map<string, real>, currency: string) returns (y: real)
    requires "INR" in quotes && currency in quotes && currency != ANCHOR && forall c :: c in quotes ==> quotes[c] > 0.0
    ensures y > 0.0 && y * quotes[currency] == quotes["INR"] * QUANTUM
    ensures RateFor(quotes, currency).rate == Round(y) && IsNearest(y, Round(y))
  {
    hide Round, IsNearest;
    var x := quotes["INR"] / quotes[currency];
    assert x * quotes[currency] == quotes["INR"];
    y := x * QUANTUM;
    Regroup(x, quotes[currency], QUANTUM);
    RoundIsNearest(y, Round(y));
  }

  lemma Regroup(x: real, q: real, k: real)
    ensures x * k * q == x * q * k
  {}

  lemma Times(a: real, b: real, q: real)
    requires a <= b && q > 0.0
    ensures a * q <= b * q
  {}

  /** A rate is stored as zero, which the table refuses, exactly when INR per EUR is no more than
      half a quantum of the quote. */
  lemma ZeroRateIff(quotes: map<string, real>, currency: string)
    requires "INR" in quotes && currency in quotes && currency != ANCHOR && forall c :: c in quotes ==> quotes[c] > 0.0
    ensures RateFor(quotes, currency).rate >= 0
    ensures RateFor(quotes, currency).rate == 0 <==> 2.0 * (quotes["INR"] * QUANTUM) <= quotes[currency]
  {
    var y := DerivedRate(quotes, currency);
    RoundIsNearest(y, 0);
    hide RateFor, Round;
    assert y <= 0.5 <==> IsNearest(y, 0);
    Halves(y, quotes[currency], quotes["INR"] * QUANTUM);
  }

  lemma Halves(y: real, q: real, scaled: real)
    requires q > 0.0 && y * q == scaled
    ensures 2.0 * scaled <= q <==> y <= 0.5
  {
    if y <= 0.5 { Times(y, 0.5, q); } else { TimesLess(0.5, y, q); }
  }

  lemma TimesLess(a: real, b: real, q: real)
    requires a < b && q > 0.0
    ensures a * q < b * q
  {
    assert (b - a) * q > 0.0;
  }

  /** derive_base_rates */
  method DeriveBaseRates(quotes: map<string, real>) returns (rates: Option<map<string, Rate>>)
    requires forall c :: c in quotes ==> quotes[c] > 0.0
    ensures rates.Some? <==> EXPECTED <= quotes.Keys
    ensures rates.Some? ==>
              && rates.value.Keys == (set c | c in SUPPORTED) - {BASE}
              && forall c :: c in rates.value ==> rates.value[c] == RateFor(quotes, c)
  {
    hide Quantize;
    if "INR" !in quotes { return None; }
    var inrPerEur := quotes["INR"];
    var derived: map<string, Rate> := map[];
    for n := 0 to |SUPPORTED|
      invariant forall c :: c in EXPECTED && c in SUPPORTED[..n] ==> c in quotes
      invariant derived.Keys == (set c | c in SUPPORTED[..n]) - {BASE}
      invariant forall c :: c in derived ==> (c == ANCHOR || c in quotes) && derived[c] == RateFor(quotes, c)
    {
      var currency := SUPPORTED[n];
      assert SUPPORTED[..n + 1] == SUPPORTED[..n] + [currency];
      if currency == BASE { continue; }
      if currency == ANCHOR {
        derived := derived[currency := Rate(Quantize(inrPerEur), Quantize(inrPerEur), false)];
      } else if currency !in quotes {
        return None;
      } else {
        var raw := quotes[currency];
        derived := derived[currency := Rate(Quantize(inrPerEur / raw), Quantize(raw), true)];
      }
    }
    assert SUPPORTED[..|SUPPORTED|] == SUPPORTED;
    return Some(derived);
  }
}
