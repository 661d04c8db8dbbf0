/**
  The feature aggregator of `load_and_preprocess`: raw transaction rows become
  one (Amount, Frequency, Most_Recent_Engagement) record per customer.
 */
module Aggregation {
  import opened Wrappers
  import opened TextOrder

  /** One day in the timestamp unit: pandas timestamps and timedeltas count nanoseconds. */
  const NanosPerDay: int := 86_400_000_000_000

  /**
    One purchase line item. The customer identity is already the string that
    `astype(str)` produced; an invoice number may be missing (a null cell);
    the invoice timestamp is in nanoseconds.
   */
  datatype Transaction = Transaction(
    customerId: string,
    invoiceNo: Option<string>,
    quantity: real,
    unitPrice: real,
    invoiceDate: int)

  /** One row of the merged per-customer frame. */
  datatype Customer = Customer(
    customerId: string,
    amount: real,
    frequency: nat,
    mostRecentEngagement: int)

  /**
    The derived `Amount` column of a raw row. At a non-negative price a
    returned line (negative quantity) lowers the customer's total and a
    sold one raises it.
   */
  function LineAmount(t: Transaction): (a: real)
    ensures t.unitPrice >= 0.0 && t.quantity >= 0.0 ==> a >= 0.0
    ensures t.unitPrice >= 0.0 && t.quantity <= 0.0 ==> a <= 0.0
    ensures t.quantity == 0.0 || t.unitPrice == 0.0 ==> a == 0.0
  {
    t.quantity * t.unitPrice
  }

  /** Some row belongs to customer `id`. */
  predicate HasCustomer(rows: seq<Transaction>, id: string)
  {
    exists t :: t in rows && t.customerId == id
  }

  /** Group sum of `Amount` for customer `id`: rows of other customers add nothing. */
  function AmountOf(rows: seq<Transaction>, id: string): (a: real)
    ensures !HasCustomer(rows, id) ==> a == 0.0
    ensures (forall t :: t in rows && t.customerId == id ==> LineAmount(t) >= 0.0) ==> a >= 0.0
    decreases |rows|
  {
    if rows == [] then 0.0
    else
      assert rows == [rows[0]] + rows[1..]; (if rows[0].customerId == id then LineAmount(rows[0]) else 0.0) + AmountOf(rows[1..], id)
  }

  /** Group count of `InvoiceNo` for customer `id`: rows of that customer whose invoice number is present. */
  function FrequencyOf(rows: seq<Transaction>, id: string): (n: nat)
    ensures n <= |rows|
    ensures n > 0 <==> exists t :: t in rows && t.customerId == id && t.invoiceNo.Some?
    decreases |rows|
  {
    if rows == [] then 0
    else
      assert rows == [rows[0]] + rows[1..]; (if rows[0].customerId == id && rows[0].invoiceNo.Some? then 1 else 0) + FrequencyOf(rows[1..], id)
  }

  /** Number of rows (line items) of customer `id`. */
  function LineItems(rows: seq<Transaction>, id: string): (n: nat)
    ensures n > 0 <==> HasCustomer(rows, id)
    ensures n <= |rows|
    decreases |rows|
  {
    if rows == [] then 0
    else
      assert rows == [rows[0]] + rows[1..];
      (if rows[0].customerId == id then 1 else 0) + LineItems(rows[1..], id)
  }

  /** `max(data['InvoiceDate'])`: undefined on an empty frame, where Python's `max` raises. */
  function MaxDate(rows: seq<Transaction>): (m: int)
    requires |rows| > 0
    ensures forall t :: t in rows ==> t.invoiceDate <= m
    ensures exists t :: t in rows && t.invoiceDate == m
    decreases |rows|
  {
    if |rows| == 1 then rows[0].invoiceDate
    else
      assert rows == [rows[0]] + rows[1..];
      var rest := MaxDate(rows[1..]);
      if rows[0].invoiceDate >= rest then rows[0].invoiceDate else rest
  }

  /** The latest invoice timestamp of customer `id`. */
  function LatestDate(rows: seq<Transaction>, id: string): (d: int)
    requires HasCustomer(rows, id)
    ensures forall t :: t in rows && t.customerId == id ==> t.invoiceDate <= d
    ensures exists t :: t in rows && t.customerId == id && t.invoiceDate == d
    decreases |rows|
  {
    assert rows == [rows[0]] + rows[1..];
    if !HasCustomer(rows[1..], id) then rows[0].invoiceDate
    else
      var rest := LatestDate(rows[1..], id);
      if rows[0].customerId == id && rows[0].invoiceDate >= rest then rows[0].invoiceDate else rest
  }

  /** Group minimum of `Diff = maxDate - InvoiceDate` over the rows of customer `id`. */
  function EarliestGap(rows: seq<Transaction>, id: string, maxDate: int): (g: int)
    requires HasCustomer(rows, id)
    ensures forall t :: t in rows && t.customerId == id ==> g <= maxDate - t.invoiceDate
    ensures exists t :: t in rows && t.customerId == id && g == maxDate - t.invoiceDate
    decreases |rows|
  {
    assert rows == [rows[0]] + rows[1..];
    if !HasCustomer(rows[1..], id) then maxDate - rows[0].invoiceDate
    else
      var rest := EarliestGap(rows[1..], id, maxDate);
      if rows[0].customerId == id && maxDate - rows[0].invoiceDate <= rest then maxDate - rows[0].invoiceDate else rest
  }

  /**
    `Most_Recent_Engagement` of customer `id`: the group minimum of the gaps to
    the global latest timestamp, then `.dt.days`, which floors to whole days.
    The reference timestamp is taken over all raw rows.
   */
  function RecencyOf(rows: seq<Transaction>, id: string): (days: int)
    requires HasCustomer(rows, id)
    ensures days >= 0
    ensures days == (MaxDate(rows) - LatestDate(rows, id)) / NanosPerDay
    ensures days * NanosPerDay <= MaxDate(rows) - LatestDate(rows, id) < (days + 1) * NanosPerDay
  {
    var gap := EarliestGap(rows, id, MaxDate(rows));
    GapToLatest(rows, id, MaxDate(rows));
    gap / NanosPerDay
  }

  /** Smallest gap to `maxDate` is the gap to the customer's latest invoice. */
  lemma GapToLatest(rows: seq<Transaction>, id: string, maxDate: int)
    requires HasCustomer(rows, id)
    ensures EarliestGap(rows, id, maxDate) == maxDate - LatestDate(rows, id)
  {
    var latest := LatestDate(rows, id);
    var t :| t in rows && t.customerId == id && t.invoiceDate == latest;
    var u :| u in rows && u.customerId == id && EarliestGap(rows, id, maxDate) == maxDate - u.invoiceDate;
    assert u.invoiceDate <= latest;
  }

  /** The distinct customer identities, in the ascending order a group-by lists its keys. */
  function CustomerIds(rows: seq<Transaction>): (ids: seq<string>)
    ensures StrictlyAscending(ids)
    ensures forall id :: id in ids <==> HasCustomer(rows, id)
    decreases |rows|
  {
    if rows == [] then []
    else
      assert rows == [rows[0]] + rows[1..];
      InsertKey(CustomerIds(rows[1..]), rows[0].customerId)
  }

  /** One merged row per listed customer, in the listed order. */
  function Summaries(rows: seq<Transaction>, ids: seq<string>): (cs: seq<Customer>)
    requires forall id :: id in ids ==> HasCustomer(rows, id)
    ensures |cs| == |ids|
    ensures forall i :: 0 <= i < |ids| ==>
      cs[i] == Customer(ids[i], AmountOf(rows, ids[i]), FrequencyOf(rows, ids[i]), RecencyOf(rows, ids[i]))
  {
    if ids == [] then []
    else
      [Customer(ids[0], AmountOf(rows, ids[0]), FrequencyOf(rows, ids[0]), RecencyOf(rows, ids[0]))]
      + Summaries(rows, ids[1..])
  }

  /**
    Lines 28-39: the three group-bys joined on the customer identity. An empty
    input has no latest timestamp, so there is no result.
   */
  function Aggregate(rows: seq<Transaction>): (r: Option<seq<Customer>>)
    ensures r.None? <==> rows == []
    ensures r.Some? ==> |r.value| > 0
    ensures r.Some? ==> StrictlyAscending(KeysOf(r.value)) && Distinct(KeysOf(r.value))
    ensures r.Some? ==> |r.value| == |CustomerIds(rows)|
    ensures r.Some? ==> forall id :: HasCustomer(rows, id) <==> exists c :: c in r.value && c.customerId == id
    ensures r.Some? ==> forall c :: c in r.value ==>
      && HasCustomer(rows, c.customerId)
      && c.amount == AmountOf(rows, c.customerId)
      && c.frequency == FrequencyOf(rows, c.customerId)
      && c.mostRecentEngagement == RecencyOf(rows, c.customerId)
  {
    if rows == [] then None
    else
      var ids := CustomerIds(rows);
      assert HasCustomer(rows, rows[0].customerId);
      var cs := Summaries(rows, ids);
      assert KeysOf(cs) == ids;
      AscendingIsDistinct(ids);
      Some(cs)
  }

  /** The customer identities of merged rows, in row order. */
  function KeysOf(cs: seq<Customer>): (ks: seq<string>)
    ensures |ks| == |cs| && forall i :: 0 <= i < |cs| ==> ks[i] == cs[i].customerId
  {
    seq(|cs|, i requires 0 <= i < |cs| => cs[i].customerId)
  }

  /** Counting `InvoiceNo` counts line items, not distinct invoices: only a missing invoice number is not counted. */
  lemma {:induction false} FrequencyCountsLineItems(rows: seq<Transaction>, id: string)
    ensures FrequencyOf(rows, id) <= LineItems(rows, id)
    ensures (forall t :: t in rows ==> t.invoiceNo.Some?) ==> FrequencyOf(rows, id) == LineItems(rows, id)
    decreases |rows|
  {
    if rows != [] {
      assert rows == [rows[0]] + rows[1..];
      FrequencyCountsLineItems(rows[1..], id);
    }
  }

  /** Sum of the `Amount` column of the raw rows. */
  function TotalAmount(rows: seq<Transaction>): real
    decreases |rows|
  {
    if rows == [] then 0.0 else LineAmount(rows[0]) + TotalAmount(rows[1..])
  }

  /** Number of raw rows whose invoice number is present. */
  function InvoicedRows(rows: seq<Transaction>): nat
    decreases |rows|
  {
    if rows == [] then 0 else (if rows[0].invoiceNo.Some? then 1 else 0) + InvoicedRows(rows[1..])
  }

  /** Sum of the `Amount` column of merged rows. */
  function SumAmounts(cs: seq<Customer>): real
  {
    if cs == [] then 0.0 else cs[0].amount + SumAmounts(cs[1..])
  }

  /** Sum of the `Frequency` column of merged rows. */
  function SumFrequencies(cs: seq<Customer>): nat
  {
    if cs == [] then 0 else cs[0].frequency + SumFrequencies(cs[1..])
  }

  function AmountOver(ids: seq<string>, rows: seq<Transaction>): real
  {
    if ids == [] then 0.0 else AmountOf(rows, ids[0]) + AmountOver(ids[1..], rows)
  }

  function FrequencyOver(ids: seq<string>, rows: seq<Transaction>): nat
  {
    if ids == [] then 0 else FrequencyOf(rows, ids[0]) + FrequencyOver(ids[1..], rows)
  }

  /** Peeling the first raw row off every group at once. */
  lemma {:induction false} OverHead(ids: seq<string>, rows: seq<Transaction>)
    requires Distinct(ids) && |rows| > 0
    ensures AmountOver(ids, rows)
      == AmountOver(ids, rows[1..]) + (if rows[0].customerId in ids then LineAmount(rows[0]) else 0.0)
    ensures FrequencyOver(ids, rows)
      == FrequencyOver(ids, rows[1..]) + (if rows[0].customerId in ids && rows[0].invoiceNo.Some? then 1 else 0)
  {
    if ids != [] {
      assert Distinct(ids[1..]);
      OverHead(ids[1..], rows);
      assert rows[0].customerId in ids <==> rows[0].customerId == ids[0] || rows[0].customerId in ids[1..] by {
        assert ids == [ids[0]] + ids[1..];
      }
      assert ids[0] !in ids[1..];
    }
  }

  /** Every raw row is counted in exactly one group of a list of distinct keys covering all rows. */
  lemma {:induction false} OverCoveringKeys(ids: seq<string>, rows: seq<Transaction>)
    requires Distinct(ids)
    requires forall t :: t in rows ==> t.customerId in ids
    ensures AmountOver(ids, rows) == TotalAmount(rows)
    ensures FrequencyOver(ids, rows) == InvoicedRows(rows)
    decreases |rows|
  {
    if rows == [] {
      OverNoRows(ids);
    } else {
      assert rows[0] in rows;
      OverHead(ids, rows);
      OverCoveringKeys(ids, rows[1..]);
    }
  }

  lemma {:induction false} OverNoRows(ids: seq<string>)
    ensures AmountOver(ids, []) == 0.0 && FrequencyOver(ids, []) == 0
  {
    if ids != [] {
      OverNoRows(ids[1..]);
    }
  }

  lemma {:induction false} SummariesSum(rows: seq<Transaction>, ids: seq<string>)
    requires forall id :: id in ids ==> HasCustomer(rows, id)
    ensures SumAmounts(Summaries(rows, ids)) == AmountOver(ids, rows)
    ensures SumFrequencies(Summaries(rows, ids)) == FrequencyOver(ids, rows)
  {
    if ids != [] {
      var cs := Summaries(rows, ids);
      assert cs[1..] == Summaries(rows, ids[1..]);
      SummariesSum(rows, ids[1..]);
    }
  }

  /**
    Grouping neither loses nor duplicates a raw row: the per-customer amounts
    add up to the total of the `Amount` column, and the per-customer
    frequencies to the number of rows with an invoice number.
   */
  lemma AggregateConservesTotals(rows: seq<Transaction>)
    requires rows != []
    ensures SumAmounts(Aggregate(rows).value) == TotalAmount(rows)
    ensures SumFrequencies(Aggregate(rows).value) == InvoicedRows(rows)
  {
    var ids := CustomerIds(rows);
    AscendingIsDistinct(ids);
    SummariesSum(rows, ids);
    OverCoveringKeys(ids, rows);
  }
}
