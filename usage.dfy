/**
 * Overall month-to-date usage totals: the reduction `get_usage_totals`
 * performs over the line items returned by the usage API.
 */
module Usage {
  import opened Wrappers

  /** One summarized-usage line item. Every field is nullable in the API response. */
  datatype LineItem = LineItem(
    service: Option<string>,
    computedAmount: Option<real>,
    computedQuantity: Option<real>)

  /** The two numeric columns that are accumulated, independently of each other. */
  datatype Measure = Amount | Quantity

  function Field(item: LineItem, m: Measure): Option<real>
  {
    match m
    case Amount => item.computedAmount
    case Quantity => item.computedQuantity
  }

  /** What a present value adds to a running total; a null adds nothing. */
  function Contribution(v: Option<real>): real
  {
    match v
    case None => 0.0
    case Some(x) => x
  }

  /**
   * The running total after the loop has visited `items` in order:
   * a null field is skipped, a present one is added.
   */
  function Total(items: seq<LineItem>, m: Measure): real
  {
    if items == [] then 0.0
    else
      var rest := Total(items[..|items| - 1], m);
      match Field(items[|items| - 1], m)
      case None => rest
      case Some(v) => rest + v
  }

  /** Reference definition: the present (non-null) values of one column, in order. */
  function Present(items: seq<LineItem>, m: Measure): seq<real>
  {
    if items == [] then []
    else
      (match Field(items[0], m) case None => [] case Some(v) => [v]) + Present(items[1..], m)
  }

  /** Plain sum of a sequence of reals. */
  function Sum(xs: seq<real>): real
  {
    if xs == [] then 0.0 else xs[0] + Sum(xs[1..])
  }

  lemma {:induction false} SumAppend(xs: seq<real>, ys: seq<real>)
    ensures Sum(xs + ys) == Sum(xs) + Sum(ys)
  {
    if xs == [] {
      assert xs + ys == ys;
    } else {
      assert (xs + ys)[1..] == xs[1..] + ys;
      SumAppend(xs[1..], ys);
    }
  }

  lemma {:induction false} PresentAppend(items: seq<LineItem>, item: LineItem, m: Measure)
    ensures Present(items + [item], m) == Present(items, m) + Present([item], m)
  {
    if items != [] {
      assert (items + [item])[1..] == items[1..] + [item];
      PresentAppend(items[1..], item, m);
    }
  }

  /** Visiting one more item adds exactly that item's contribution to the total. */
  lemma TotalAppend(items: seq<LineItem>, item: LineItem, m: Measure)
    ensures Total(items + [item], m) == Total(items, m) + Contribution(Field(item, m))
  {
    assert (items + [item])[..|items|] == items;
  }

  /** No items, no usage: both totals are 0.0. */
  lemma EmptyTotals()
    ensures Total([], Amount) == 0.0 && Total([], Quantity) == 0.0
  {
  }

  /**
   * The total of a column is the sum of exactly its non-null values:
   * nulls are skipped, never treated as an error.
   */
  lemma {:induction false} TotalIsSumOfPresent(items: seq<LineItem>, m: Measure)
    ensures Total(items, m) == Sum(Present(items, m))
  {
    if items != [] {
      var prefix, last := items[..|items| - 1], items[|items| - 1];
      assert items == prefix + [last];
      TotalIsSumOfPresent(prefix, m);
      PresentAppend(prefix, last, m);
      SumAppend(Present(prefix, m), Present([last], m));
      assert Present([last], m) == (match Field(last, m) case None => [] case Some(v) => [v]) by {
        assert [last][1..] == [];
      }
    }
  }

  /**
   * Amount and quantity accumulate independently: the total of one column
   * depends on that column alone, whatever the other column and the
   * service labels hold.
   */
  lemma {:induction false} TotalDependsOnlyOnItsColumn(items: seq<LineItem>, others: seq<LineItem>, m: Measure)
    requires |items| == |others|
    requires forall i :: 0 <= i < |items| ==> Field(items[i], m) == Field(others[i], m)
    ensures Total(items, m) == Total(others, m)
  {
    if items != [] {
      var n := |items| - 1;
      TotalDependsOnlyOnItsColumn(items[..n], others[..n], m);
      assert Field(items[n], m) == Field(others[n], m);
    }
  }

  /**
   * An item whose amount is null still counts towards the quantity total,
   * and the reverse.
   */
  lemma NullAmountStillAddsQuantity(items: seq<LineItem>, item: LineItem)
    requires item.computedAmount.None? && item.computedQuantity.Some?
    ensures Total(items + [item], Amount) == Total(items, Amount)
    ensures Total(items + [item], Quantity) == Total(items, Quantity) + item.computedQuantity.value
  {
    TotalAppend(items, item, Amount);
    TotalAppend(items, item, Quantity);
  }

  lemma NullQuantityStillAddsAmount(items: seq<LineItem>, item: LineItem)
    requires item.computedQuantity.None? && item.computedAmount.Some?
    ensures Total(items + [item], Quantity) == Total(items, Quantity)
    ensures Total(items + [item], Amount) == Total(items, Amount) + item.computedAmount.value
  {
    TotalAppend(items, item, Amount);
    TotalAppend(items, item, Quantity);
  }

  /**
   * `get_usage_totals`, with the API response replaced by its item list:
   * two running totals, each skipping null values.
   */
  method GetUsageTotals(items: seq<LineItem>) returns (totalComputedAmount: real, totalComputedQuantity: real)
    ensures totalComputedAmount == Total(items, Amount)
    ensures totalComputedQuantity == Total(items, Quantity)
    ensures totalComputedAmount == Sum(Present(items, Amount))
    ensures totalComputedQuantity == Sum(Present(items, Quantity))
    ensures items == [] ==> totalComputedAmount == 0.0 && totalComputedQuantity == 0.0
  {
    totalComputedAmount := 0.0;
    totalComputedQuantity := 0.0;
    for i := 0 to |items|
      invariant totalComputedAmount == Total(items[..i], Amount)
      invariant totalComputedQuantity == Total(items[..i], Quantity)
    {
      var item := items[i];
      assert items[..i + 1] == items[..i] + [item];
      TotalAppend(items[..i], item, Amount);
      TotalAppend(items[..i], item, Quantity);
      if item.computedAmount.Some? {
        totalComputedAmount := totalComputedAmount + item.computedAmount.value;
      }
      if item.computedQuantity.Some? {
        totalComputedQuantity := totalComputedQuantity + item.computedQuantity.value;
      }
    }
    assert items[..|items|] == items;
    TotalIsSumOfPresent(items, Amount);
    TotalIsSumOfPresent(items, Quantity);
  }
}
