/**
 The suggested price of an incoming-invoice line (financial/web/src/financialSupervisor.js:18-53).
 Names are taken as already normalised, dates as keys that compare like the source's date strings,
 ids as their rank in the collation order, and numbers as exact reals.
 */
module PriceSuggestion {
  import opened Common
  import opened Sorting

  datatype Incoming = Incoming(
    id: int,
    date: Option<int>,
    item: string,
    customer: string,
    inventoryType: string,
    unit: string,
    currency: string,
    chelleIn: bool,
    nonFinancial: bool,
    unitPrice: real,
    quantity: real,
    subtotal: real,
    amount: real,
    taxAmount: real)

  datatype Sample = Sample(id: int, date: int, customer: string, price: real)

  datatype Confidence = High | Medium | Low | NoHistory

  datatype Suggestion = Suggestion(price: int, samples: seq<Sample>, confidence: Confidence, min: real, max: real)

  const NOTHING := Suggestion(0, [], NoHistory, 0.0, 0.0)

  function OrElse(s: string, fallback: string): string {
    if s == "" then fallback else s
  }

  predicate Matches(draft: Incoming, row: Incoming) {
    && row.id != draft.id
    && !row.nonFinancial
    && row.item == draft.item
    && OrElse(row.inventoryType, "yarn") == OrElse(draft.inventoryType, "yarn")
    && row.unit == draft.unit
    && OrElse(row.currency, "IRT") == OrElse(draft.currency, "IRT")
    && row.chelleIn == draft.chelleIn
    && draft.date.Some? && row.date.Some? && row.date.value <= draft.date.value
  }

  function RowPrice(row: Incoming): real {
    if row.unitPrice != 0.0 then row.unitPrice
    else if row.quantity > 0.0 then
      (if row.subtotal != 0.0 then row.subtotal else row.amount - row.taxAmount) / row.quantity
    else 0.0
  }

  /** A row that counts towards the suggestion: it matches the draft and has a positive price. */
  predicate Eligible(draft: Incoming, row: Incoming) {
    Matches(draft, row) && RowPrice(row) > 0.0
  }

  function Samples(draft: Incoming, rows: seq<Incoming>): seq<Sample> {
    if rows == [] then []
    else
      var r := rows[0];
      (if Eligible(draft, r) then [Sample(r.id, r.date.value, r.customer, RowPrice(r))] else [])
      + Samples(draft, rows[1..])
  }

  /** Newest first, then by id. */
  predicate Newer(a: Sample, b: Sample) {
    if a.date != b.date then a.date > b.date else a.id < b.id
  }

  function OfCustomer(samples: seq<Sample>, customer: string): seq<Sample> {
    if samples == [] then []
    else (if samples[0].customer == customer then [samples[0]] else []) + OfCustomer(samples[1..], customer)
  }

  /** slice(0, limit): a negative limit counts from the end. */
  function Slice<T>(s: seq<T>, limit: int): seq<T> {
    var end := if limit < 0 then |s| + limit else limit;
    if end <= 0 then [] else if end >= |s| then s else s[..end]
  }

  predicate Cheaper(a: real, b: real) { a < b }

  function Prices(samples: seq<Sample>): (p: seq<real>)
    ensures |p| == |samples|
  {
    seq(|samples|, i requires 0 <= i < |samples| => samples[i].price)
  }

  function Median(ordered: seq<real>): real
    requires ordered != []
  {
    var middle := |ordered| / 2;
    if |ordered| % 2 == 1 then ordered[middle] else (ordered[middle - 1] + ordered[middle]) / 2.0
  }

  /** Math.round. */
  function Round(x: real): int { (x + 0.5).Floor }

  /** The samples the price is taken from: the customer's own history if there is any. */
  function Pool(sorted: seq<Sample>, customer: string): seq<Sample> {
    var exact := OfCustomer(sorted, customer);
    if exact != [] then exact else sorted
  }

  function Grade(exact: nat): Confidence {
    if exact >= 2 then High else if exact == 1 then Medium else Low
  }

  function Priced(selected: seq<Sample>, grade: Confidence): Suggestion {
    if selected == [] then NOTHING
    else
      var ordered := Sort(Prices(selected), Cheaper);
      Suggestion(Round(Median(ordered)), selected, grade, ordered[0], ordered[|ordered| - 1])
  }

  function SuggestFrom(sorted: seq<Sample>, customer: string, limit: int): Suggestion {
    Priced(Slice(Pool(sorted, customer), limit), Grade(|OfCustomer(sorted, customer)|))
  }

  function Suggest(draft: Incoming, rows: seq<Incoming>, limit: int): Suggestion {
    if draft.item == "" then NOTHING
    else SuggestFrom(Sort(Samples(draft, rows), Newer), draft.customer, limit)
  }

  // ---------------------------------------------------------------- order does not matter

  lemma {:induction false} SamplesConcat(draft: Incoming, a: seq<Incoming>, b: seq<Incoming>)
    ensures Samples(draft, a + b) == Samples(draft, a) + Samples(draft, b)
  {
    if a == [] {
      assert a + b == b;
    } else {
      assert (a + b)[1..] == a[1..] + b;
      SamplesConcat(draft, a[1..], b);
    }
  }

  lemma {:induction false} SamplesOfPermutation(draft: Incoming, a: seq<Incoming>, b: seq<Incoming>)
    requires multiset(a) == multiset(b)
    ensures multiset(Samples(draft, a)) == multiset(Samples(draft, b))
  {
    if a == [] {
      assert |b| == |multiset(b)| == 0;
    } else {
      var j := RemoveHead(a, b);
      SamplesOfPermutation(draft, a[1..], b[..j] + b[j + 1..]);
      MoveToFront(draft, b[..j], a[0], b[j + 1..]);
      MoveToFront(draft, [], a[0], a[1..]);
      assert [] + ([a[0]] + a[1..]) == a && [] + a[1..] == a[1..];
    }
  }

  lemma MoveToFront(draft: Incoming, front: seq<Incoming>, x: Incoming, back: seq<Incoming>)
    ensures multiset(Samples(draft, front + ([x] + back)))
         == multiset(Samples(draft, [x])) + multiset(Samples(draft, front + back))
  {
    SamplesConcat(draft, front, [x] + back);
    SamplesConcat(draft, [x], back);
    SamplesConcat(draft, front, back);
  }

  ghost predicate DistinctIds(samples: seq<Sample>) {
    forall x, y | x in samples && y in samples :: x.id == y.id ==> x == y
  }

  lemma NewerOrders(samples: seq<Sample>)
    requires DistinctIds(samples)
    ensures OrderedOn(samples, Newer) && Total(samples, Newer)
  {
  }

  /** Rows with the same eligible samples, in whatever order, give the same suggestion. */
  lemma SuggestionIgnoresOrder(draft: Incoming, a: seq<Incoming>, b: seq<Incoming>, limit: int)
    requires multiset(Samples(draft, a)) == multiset(Samples(draft, b)) && DistinctIds(Samples(draft, a))
    ensures Suggest(draft, a, limit) == Suggest(draft, b, limit)
  {
    NewerOrders(Samples(draft, a));
    SortIgnoresOrder(Samples(draft, a), Samples(draft, b), Newer);
  }

  lemma SuggestionIgnoresPermutation(draft: Incoming, a: seq<Incoming>, b: seq<Incoming>, limit: int)
    requires multiset(a) == multiset(b) && DistinctIds(Samples(draft, a))
    ensures Suggest(draft, a, limit) == Suggest(draft, b, limit)
  {
    SamplesOfPermutation(draft, a, b);
    SuggestionIgnoresOrder(draft, a, b, limit);
  }

  /** A row dated later, of another item, non-financial, or otherwise not eligible has no influence. */
  lemma IneligibleRowHasNoInfluence(draft: Incoming, before: seq<Incoming>, row: Incoming, after: seq<Incoming>,
      limit: int)
    requires !Eligible(draft, row)
    ensures Suggest(draft, before + [row] + after, limit) == Suggest(draft, before + after, limit)
  {
    SamplesConcat(draft, before + [row], after);
    SamplesConcat(draft, before, [row]);
    SamplesConcat(draft, before, after);
    assert Samples(draft, [row]) == [] by {
      assert [row][1..] == [];
    }
    assert Samples(draft, before + [row] + after) == Samples(draft, before + after);
  }

  // ---------------------------------------------------------------- which rows, which price

  lemma {:induction false} OfCustomerSorted(samples: seq<Sample>, customer: string)
    requires Sorted(samples, Newer)
    ensures Sorted(OfCustomer(samples, customer), Newer)
    ensures forall x :: x in OfCustomer(samples, customer) <==> x in samples && x.customer == customer
  {
    if samples != [] {
      assert Sorted(samples[1..], Newer);
      OfCustomerSorted(samples[1..], customer);
      assert samples == [samples[0]] + samples[1..];
      var rest := OfCustomer(samples[1..], customer);
      forall j | 0 <= j < |rest| ensures !Newer(rest[j], samples[0]) {
        assert rest[j] in samples[1..];
        var k :| 0 < k < |samples| && samples[k] == rest[j];
      }
    }
  }

  /**
   The price comes from exactly the `limit` most recent samples of the pool: those of the draft's
   customer if it has any, else all eligible ones.
   */
  lemma MostRecentOfPool(draft: Incoming, rows: seq<Incoming>, limit: nat)
    requires DistinctIds(Samples(draft, rows)) && draft.item != ""
    ensures var samples := Samples(draft, rows);
            var pool := Pool(Sort(samples, Newer), draft.customer);
            var selected := Suggest(draft, rows, limit).samples;
            && selected <= pool && |selected| == (if limit < |pool| then limit else |pool|)
            && (forall x :: x in pool <==>
                  x in samples
                  && (x.customer == draft.customer || !exists y :: y in samples && y.customer == draft.customer))
            && (forall i, j | 0 <= i < |selected| <= j < |pool| ::
                  Newer(selected[i], pool[j]) || selected[i] == pool[j])
  {
    NewerOrders(Samples(draft, rows));
    PoolMembers(Samples(draft, rows), draft.customer);
    PoolPrefix(Samples(draft, rows), draft.customer, limit);
  }

  lemma PoolPrefix(samples: seq<Sample>, customer: string, limit: nat)
    requires DistinctIds(samples)
    ensures var pool := Pool(Sort(samples, Newer), customer);
            var selected := SuggestFrom(Sort(samples, Newer), customer, limit).samples;
            && selected <= pool && |selected| == (if limit < |pool| then limit else |pool|)
            && (forall i, j | 0 <= i < |selected| <= j < |pool| ::
                  Newer(selected[i], pool[j]) || selected[i] == pool[j])
  {
    NewerOrders(samples);
    PoolMembers(samples, customer);
    var pool := Pool(Sort(samples, Newer), customer);
    assert SuggestFrom(Sort(samples, Newer), customer, limit).samples == Slice(pool, limit);
    forall i, j | 0 <= i < j < |pool| ensures Newer(pool[i], pool[j]) || pool[i] == pool[j] {
      assert pool[i] in samples && pool[j] in samples;
    }
  }

  lemma PoolMembers(samples: seq<Sample>, customer: string)
    requires OrderedOn(samples, Newer)
    ensures var pool := Pool(Sort(samples, Newer), customer);
            && Sorted(pool, Newer)
            && (forall x :: x in pool <==>
                  x in samples && (x.customer == customer || !exists y :: y in samples && y.customer == customer))
  {
    var sorted := Sort(samples, Newer);
    SortSorted(samples, Newer);
    SameElements(sorted, samples);
    OfCustomerSorted(sorted, customer);
    var exact := OfCustomer(sorted, customer);
    if exact != [] {
      assert exact[0] in exact;
    }
  }

  /** A row that may be compared with the draft, as the form promises. */
  predicate Comparable(draft: Incoming, row: Incoming) {
    && row.id != draft.id && !row.nonFinancial
    && row.item == draft.item && row.unit == draft.unit && row.chelleIn == draft.chelleIn
    && (if row.inventoryType == "" then "yarn" else row.inventoryType)
       == (if draft.inventoryType == "" then "yarn" else draft.inventoryType)
    && (if row.currency == "" then "IRT" else row.currency) == (if draft.currency == "" then "IRT" else draft.currency)
    && row.date.Some? && draft.date.Some? && row.date.value <= draft.date.value
  }

  /** The unit price, or where there is none what the goods cost before tax divided by their quantity. */
  predicate CostsPerUnit(row: Incoming, price: real) {
    && price > 0.0
    && (row.unitPrice != 0.0 ==> price == row.unitPrice)
    && (row.unitPrice == 0.0 ==>
          row.quantity > 0.0
          && price * row.quantity == if row.subtotal == 0.0 then row.amount - row.taxAmount else row.subtotal)
  }

  lemma PriceMeans(row: Incoming, price: real)
    ensures CostsPerUnit(row, price) <==> price == RowPrice(row) && price > 0.0
  {
    if row.unitPrice == 0.0 && row.quantity > 0.0 {
      var cost := if row.subtotal == 0.0 then row.amount - row.taxAmount else row.subtotal;
      assert (cost / row.quantity) * row.quantity == cost;
      if price * row.quantity == cost { assert price == cost / row.quantity; }
    }
  }

  /** The samples are exactly the comparable rows that have a price, each with its own price. */
  lemma {:induction false} SamplesMean(draft: Incoming, rows: seq<Incoming>, x: Sample)
    ensures x in Samples(draft, rows)
       <==> exists i | 0 <= i < |rows| ::
              && Comparable(draft, rows[i]) && CostsPerUnit(rows[i], x.price)
              && x.id == rows[i].id && x.customer == rows[i].customer && rows[i].date == Some(x.date)
  {
    if rows != [] {
      SamplesMean(draft, rows[1..], x);
      PriceMeans(rows[0], x.price);
      assert rows == [rows[0]] + rows[1..];
    }
  }

  function CountOf(samples: seq<Sample>, customer: string): nat {
    if samples == [] then 0 else (if samples[0].customer == customer then 1 else 0) + CountOf(samples[1..], customer)
  }

  lemma {:induction false} OfCustomerCounts(samples: seq<Sample>, customer: string)
    ensures |OfCustomer(samples, customer)| == CountOf(samples, customer)
  {
    if samples != [] {
      OfCustomerCounts(samples[1..], customer);
    }
  }

  /**
   The suggestion is the median of the selected prices, rounded to the nearest whole number with halves going up:
   half of them are not above it and half not below, and with an even number it lies in the middle of the two. It is
   called sure by how many samples the draft's customer has.
   */
  lemma SuggestionIsMedian(draft: Incoming, rows: seq<Incoming>, limit: int)
    requires Suggest(draft, rows, limit).samples != []
    ensures var s := Suggest(draft, rows, limit);
            var own := CountOf(Sort(Samples(draft, rows), Newer), draft.customer);
            && (s.confidence == High <==> own >= 2) && (s.confidence == Medium <==> own == 1)
            && (s.confidence == Low <==> own == 0)
            && exists ordered: seq<real> ::
                 && multiset(ordered) == multiset(Prices(s.samples)) && |ordered| == |s.samples|
                 && (forall i, j | 0 <= i < j < |ordered| :: ordered[i] <= ordered[j])
                 && var twice := ordered[(|ordered| - 1) / 2] + ordered[|ordered| / 2];
                    twice - 1.0 < 2.0 * (s.price as real) <= twice + 1.0
  {
    var sorted := Sort(Samples(draft, rows), Newer);
    var s := SuggestFrom(sorted, draft.customer, limit);
    var selected := Slice(Pool(sorted, draft.customer), limit);
    OfCustomerCounts(sorted, draft.customer);
    var ordered := Sort(Prices(selected), Cheaper);
    SortSorted(Prices(selected), Cheaper);
    forall i, j | 0 <= i < j < |ordered| ensures ordered[i] <= ordered[j] { assert !Cheaper(ordered[j], ordered[i]); }
    MedianRounded(ordered);
  }

  lemma MedianRounded(ordered: seq<real>)
    requires ordered != []
    ensures var twice := ordered[(|ordered| - 1) / 2] + ordered[|ordered| / 2];
            twice - 1.0 < 2.0 * (Round(Median(ordered)) as real) <= twice + 1.0
  {
    var n := |ordered|;
    if n % 2 == 1 { assert (n - 1) / 2 == n / 2; } else { assert (n - 1) / 2 == n / 2 - 1; }
  }

  lemma RoundMonotone(x: real, y: real)
    requires x <= y
    ensures Round(x) <= Round(y)
  {
  }

  /** The least and the greatest price of the samples, both of which occur. */
  predicate Spans(samples: seq<Sample>, least: real, most: real) {
    && (forall i | 0 <= i < |samples| :: least <= samples[i].price <= most)
    && (exists i | 0 <= i < |samples| :: samples[i].price == least)
    && (exists i | 0 <= i < |samples| :: samples[i].price == most)
  }

  /** The suggestion lies between the rounded smallest and largest selected price. */
  lemma PriceWithinSelection(draft: Incoming, rows: seq<Incoming>, limit: int)
    requires Suggest(draft, rows, limit).samples != []
    ensures var s := Suggest(draft, rows, limit);
            && Round(s.min) <= s.price <= Round(s.max)
            && Spans(s.samples, s.min, s.max)
  {
    var sorted := Sort(Samples(draft, rows), Newer);
    var selected := Slice(Pool(sorted, draft.customer), limit);
    var s := SuggestFrom(sorted, draft.customer, limit);
    assert s.samples == selected && Prices(selected) != [];
    PricesWithin(selected);
  }

  /** Smallest, median and largest price of some samples. */
  lemma PricesWithin(selected: seq<Sample>)
    requires Prices(selected) != []
    ensures var ordered := Sort(Prices(selected), Cheaper);
            var least, most := ordered[0], ordered[|ordered| - 1];
            && Round(least) <= Round(Median(ordered)) <= Round(most)
            && Spans(selected, least, most)
  {
    var prices := Prices(selected);
    OrderedPrices(prices);
    var ordered := Sort(prices, Cheaper);
    forall i | 0 <= i < |selected| ensures ordered[0] <= selected[i].price <= ordered[|ordered| - 1] {
      assert prices[i] in prices;
    }
    MedianWithin(ordered);
    RoundMonotone(ordered[0], Median(ordered));
    RoundMonotone(Median(ordered), ordered[|ordered| - 1]);
    assert ordered[0] in prices && ordered[|ordered| - 1] in prices;
  }

  lemma OrderedPrices(prices: seq<real>)
    requires prices != []
    ensures var ordered := Sort(prices, Cheaper);
            && ordered != []
            && (forall x :: x in ordered <==> x in prices)
            && (forall i | 0 <= i < |ordered| :: ordered[0] <= ordered[i] <= ordered[|ordered| - 1])
            && (forall x | x in prices :: ordered[0] <= x <= ordered[|ordered| - 1])
  {
    var ordered := Sort(prices, Cheaper);
    SortSorted(prices, Cheaper);
    SameElements(ordered, prices);
    var n := |ordered|;
    forall i | 0 <= i < n ensures ordered[0] <= ordered[i] <= ordered[n - 1] {
      assert i == 0 || !Cheaper(ordered[i], ordered[0]);
      assert i == n - 1 || !Cheaper(ordered[n - 1], ordered[i]);
    }
  }

  lemma MedianWithin(ordered: seq<real>)
    requires ordered != []
    requires forall i | 0 <= i < |ordered| :: ordered[0] <= ordered[i] <= ordered[|ordered| - 1]
    ensures ordered[0] <= Median(ordered) <= ordered[|ordered| - 1]
  {
  }
}
