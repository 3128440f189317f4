/**
 * Per-service usage totals: the two dictionaries `get_usage_totals_by_service`
 * fills in place, both keyed by the item's (possibly absent) service label.
 */
module ServiceUsage {
  import opened Wrappers
  import opened Usage

  /** A service label; the API may leave it out (`None`), and `None` is then a key like any other. */
  type Label = Option<string>

  /**
   * A Python dict from labels to floats. Dicts remember insertion order, so
   * the model keeps the keys in the order they were first stored.
   */
  datatype Dict = Dict(keys: seq<Label>, entries: map<Label, real>)
  {
    ghost predicate Valid()
    {
      Distinct(keys) && forall k :: k in entries <==> k in keys
    }

    /** `d[k] = v`: a new key goes to the end of the order, an existing key keeps its place. */
    function Put(k: Label, v: real): (r: Dict)
      ensures Valid() ==> r.Valid()
      ensures r.entries.Keys == entries.Keys + {k} && r.entries[k] == v
      ensures forall j :: j in entries && j != k ==> r.entries[j] == entries[j]
      ensures r.keys == if k in entries then keys else keys + [k]
    {
      Dict(if k in entries then keys else keys + [k], entries[k := v])
    }
  }

  ghost predicate Distinct<T>(s: seq<T>)
  {
    forall i, j :: 0 <= i < j < |s| ==> s[i] != s[j]
  }

  /** The items carrying label `s`, in their original order. */
  function ForService(items: seq<LineItem>, s: Label): seq<LineItem>
  {
    if items == [] then []
    else
      var rest := ForService(items[..|items| - 1], s);
      if items[|items| - 1].service == s then rest + [items[|items| - 1]] else rest
  }

  /** The per-service total of one column: the overall total restricted to that service's items. */
  function ServiceTotal(items: seq<LineItem>, s: Label, m: Measure): real
  {
    Total(ForService(items, s), m)
  }

  /** Every label that occurs in the item list. */
  function Labels(items: seq<LineItem>): set<Label>
  {
    set i | 0 <= i < |items| :: items[i].service
  }

  /** The labels in order of first appearance: the key order of the dictionaries the loop builds. */
  function FirstAppearance(items: seq<LineItem>): seq<Label>
  {
    if items == [] then []
    else
      var rest := FirstAppearance(items[..|items| - 1]);
      var s := items[|items| - 1].service;
      if s in rest then rest else rest + [s]
  }

  /** The sum of the entries of `d`, taken in key order. */
  function SumEntries(keys: seq<Label>, entries: map<Label, real>): real
    requires forall k :: k in keys ==> k in entries
  {
    if keys == [] then 0.0 else entries[keys[0]] + SumEntries(keys[1..], entries)
  }

  /** The sum, over a list of labels, of their per-service totals. */
  function SumOfServiceTotals(labels: seq<Label>, items: seq<LineItem>, m: Measure): real
  {
    if labels == [] then 0.0
    else ServiceTotal(items, labels[0], m) + SumOfServiceTotals(labels[1..], items, m)
  }

  lemma LabelsAppend(items: seq<LineItem>, item: LineItem)
    ensures Labels(items + [item]) == Labels(items) + {item.service}
  {
    var all := items + [item];
    forall s | s in Labels(all) ensures s in Labels(items) + {item.service} {
      var i :| 0 <= i < |all| && all[i].service == s;
      if i < |items| { assert items[i] == all[i]; }
    }
    forall s | s in Labels(items) ensures s in Labels(all) {
      var i :| 0 <= i < |items| && items[i].service == s;
      assert all[i] == items[i];
    }
    assert all[|items|] == item;
  }

  lemma ForServiceAppend(items: seq<LineItem>, item: LineItem, s: Label)
    ensures ForService(items + [item], s)
         == if item.service == s then ForService(items, s) + [item] else ForService(items, s)
  {
    assert (items + [item])[..|items|] == items;
  }

  /** Visiting one item changes the total of its own label only. */
  lemma ServiceTotalAppend(items: seq<LineItem>, item: LineItem, s: Label, m: Measure)
    ensures ServiceTotal(items + [item], s, m)
         == ServiceTotal(items, s, m) + (if item.service == s then Contribution(Field(item, m)) else 0.0)
  {
    ForServiceAppend(items, item, s);
    if item.service == s {
      TotalAppend(ForService(items, s), item, m);
    }
  }

  /** An item leaves the totals of every other label unchanged. */
  lemma OtherLabelsUnchanged(items: seq<LineItem>, item: LineItem, s: Label, m: Measure)
    requires s != item.service
    ensures ServiceTotal(items + [item], s, m) == ServiceTotal(items, s, m)
  {
    ServiceTotalAppend(items, item, s, m);
  }

  /** A label that does not occur has no items. */
  lemma {:induction false} ForServiceAbsent(items: seq<LineItem>, s: Label)
    requires s !in Labels(items)
    ensures ForService(items, s) == []
  {
    if items != [] {
      var n := |items| - 1;
      assert items == items[..n] + [items[n]];
      LabelsAppend(items[..n], items[n]);
      ForServiceAbsent(items[..n], s);
    }
  }

  /**
   * A label whose items all carry a null value in a column maps to 0.0 in that
   * column: the entry was created with 0.0 and nothing was added.
   */
  lemma {:induction false} AllNullServiceIsZero(items: seq<LineItem>, s: Label, m: Measure)
    requires forall i :: 0 <= i < |items| && items[i].service == s ==> Field(items[i], m).None?
    ensures ServiceTotal(items, s, m) == 0.0
  {
    if items != [] {
      var n := |items| - 1;
      assert items == items[..n] + [items[n]];
      AllNullServiceIsZero(items[..n], s, m);
      ServiceTotalAppend(items[..n], items[n], s, m);
    }
  }

  /** The key order holds every label of the items exactly once. */
  lemma {:induction false} FirstAppearanceIsLabels(items: seq<LineItem>)
    ensures Distinct(FirstAppearance(items))
    ensures forall s :: s in FirstAppearance(items) <==> s in Labels(items)
  {
    if items != [] {
      var n := |items| - 1;
      assert items == items[..n] + [items[n]];
      FirstAppearanceIsLabels(items[..n]);
      LabelsAppend(items[..n], items[n]);
    }
  }

  lemma {:induction false} SumOfServiceTotalsStep(labels: seq<Label>, items: seq<LineItem>, item: LineItem, m: Measure)
    requires Distinct(labels)
    ensures SumOfServiceTotals(labels, items + [item], m)
         == SumOfServiceTotals(labels, items, m)
            + (if item.service in labels then Contribution(Field(item, m)) else 0.0)
  {
    if labels != [] {
      ServiceTotalAppend(items, item, labels[0], m);
      assert Distinct(labels[1..]) by {
        forall i, j | 0 <= i < j < |labels[1..]| ensures labels[1..][i] != labels[1..][j] {
          assert labels[1..][i] == labels[i + 1] && labels[1..][j] == labels[j + 1];
        }
      }
      SumOfServiceTotalsStep(labels[1..], items, item, m);
      assert labels[0] !in labels[1..] by {
        forall j | 0 <= j < |labels[1..]| ensures labels[1..][j] != labels[0] {
          assert labels[1..][j] == labels[j + 1];
        }
      }
      assert item.service in labels <==> item.service == labels[0] || item.service in labels[1..] by {
        assert labels == [labels[0]] + labels[1..];
      }
    }
  }

  lemma {:induction false} SumOfServiceTotalsSnoc(labels: seq<Label>, s: Label, items: seq<LineItem>, m: Measure)
    ensures SumOfServiceTotals(labels + [s], items, m)
         == SumOfServiceTotals(labels, items, m) + ServiceTotal(items, s, m)
  {
    if labels == [] {
      assert labels + [s] == [s];
      assert [s][1..] == [];
    } else {
      assert (labels + [s])[1..] == labels[1..] + [s];
      SumOfServiceTotalsSnoc(labels[1..], s, items, m);
    }
  }

  /**
   * Consistency of the two aggregations on one list of items: summing the
   * per-service totals over all labels gives the overall total of the same items.
   */
  lemma {:induction false} ServiceTotalsSumToTotal(items: seq<LineItem>, m: Measure)
    ensures SumOfServiceTotals(FirstAppearance(items), items, m) == Total(items, m)
  {
    if items != [] {
      var n := |items| - 1;
      var prefix, item := items[..n], items[n];
      assert items == prefix + [item];
      var labels := FirstAppearance(prefix);
      ServiceTotalsSumToTotal(prefix, m);
      FirstAppearanceIsLabels(prefix);
      TotalAppend(prefix, item, m);
      if item.service in labels {
        SumOfServiceTotalsStep(labels, prefix, item, m);
      } else {
        SumOfServiceTotalsSnoc(labels, item.service, items, m);
        SumOfServiceTotalsStep(labels, prefix, item, m);
        ServiceTotalAppend(prefix, item, item.service, m);
        ForServiceAbsent(prefix, item.service);
      }
    }
  }

  lemma {:induction false} SumEntriesOfTotals(labels: seq<Label>, entries: map<Label, real>, items: seq<LineItem>, m: Measure)
    requires forall k :: k in labels ==> k in entries && entries[k] == ServiceTotal(items, k, m)
    ensures SumEntries(labels, entries) == SumOfServiceTotals(labels, items, m)
  {
    if labels != [] {
      SumEntriesOfTotals(labels[1..], entries, items, m);
    }
  }

  /**
   * What the loop keeps true of one dictionary after visiting `items`: its keys are
   * the labels in order of first appearance, and each entry is that label's total.
   */
  ghost predicate Accumulated(d: Dict, items: seq<LineItem>, m: Measure)
  {
    && d.Valid()
    && d.keys == FirstAppearance(items)
    && d.entries.Keys == Labels(items)
    && forall s :: s in d.entries ==> d.entries[s] == ServiceTotal(items, s, m)
  }

  /**
   * One iteration on one dictionary: create the entry with 0.0 if the label is new,
   * then add the item's value if it is present. Only that label's entry changes.
   */
  function Step(d: Dict, item: LineItem, m: Measure): (r: Dict)
    ensures d.Valid() ==> r.Valid()
    ensures r.entries.Keys == d.entries.Keys + {item.service}
    ensures r.entries[item.service]
         == (if item.service in d.entries then d.entries[item.service] else 0.0) + Contribution(Field(item, m))
    ensures forall j :: j in d.entries && j != item.service ==> r.entries[j] == d.entries[j]
    ensures r.keys == if item.service in d.entries then d.keys else d.keys + [item.service]
  {
    AddPresent(CreateIfMissing(d, item.service), item.service, Field(item, m))
  }

  /** Lines 103-106: a label seen for the first time starts at 0.0; a known label is left alone. */
  function CreateIfMissing(d: Dict, k: Label): (r: Dict)
    ensures d.Valid() ==> r.Valid()
    ensures r.entries.Keys == d.entries.Keys + {k}
    ensures r.entries[k] == if k in d.entries then d.entries[k] else 0.0
    ensures forall j :: j in d.entries && j != k ==> r.entries[j] == d.entries[j]
    ensures r.keys == if k in d.entries then d.keys else d.keys + [k]
  {
    if k in d.entries then d else d.Put(k, 0.0)
  }

  /** Lines 108-111: a present value is added to the label's entry, a null one is skipped. */
  function AddPresent(d: Dict, k: Label, v: Option<real>): (r: Dict)
    requires k in d.entries
    ensures d.Valid() ==> r.Valid()
    ensures r.entries.Keys == d.entries.Keys && r.keys == d.keys
    ensures r.entries[k] == d.entries[k] + Contribution(v)
    ensures forall j :: j in d.entries && j != k ==> r.entries[j] == d.entries[j]
  {
    if v.Some? then d.Put(k, d.entries[k] + v.value) else d
  }

  /** The dictionary the loop has built for one column after visiting `items` in order. */
  function Breakdown(items: seq<LineItem>, m: Measure): Dict
  {
    if items == [] then Dict([], map[])
    else Step(Breakdown(items[..|items| - 1], m), items[|items| - 1], m)
  }

  /**
   * The dictionary built from `items` holds, in order of first appearance, exactly
   * their labels, and each label's entry is its total.
   */
  lemma {:induction false} BreakdownIsAccumulated(items: seq<LineItem>, m: Measure)
    ensures Accumulated(Breakdown(items, m), items, m)
  {
    if items != [] {
      var n := |items| - 1;
      var prefix, item := items[..n], items[n];
      assert items == prefix + [item];
      BreakdownIsAccumulated(prefix, m);
      var d, next := Breakdown(prefix, m), Breakdown(items, m);
      assert next == Step(d, item, m);
      assert next.keys == FirstAppearance(items);
      assert next.entries.Keys == Labels(items) by {
        LabelsAppend(prefix, item);
      }
      StepKeepsTotals(d, prefix, item, m);
    }
  }

  /** After one iteration every entry is the total of its label over one more item. */
  lemma StepKeepsTotals(d: Dict, items: seq<LineItem>, item: LineItem, m: Measure)
    requires Accumulated(d, items, m)
    ensures forall s :: s in Step(d, item, m).entries ==>
      Step(d, item, m).entries[s] == ServiceTotal(items + [item], s, m)
  {
    var next := Step(d, item, m);
    forall s | s in next.entries ensures next.entries[s] == ServiceTotal(items + [item], s, m) {
      ServiceTotalAppend(items, item, s, m);
      if s == item.service && item.service !in d.entries {
        ForServiceAbsent(items, s);
      }
    }
  }

  /** A dictionary built from all the items has entries that add up to the overall total. */
  lemma AccumulatedSumsToTotal(d: Dict, items: seq<LineItem>, m: Measure)
    requires Accumulated(d, items, m)
    ensures SumEntries(d.keys, d.entries) == Total(items, m)
  {
    ServiceTotalsSumToTotal(items, m);
    SumEntriesOfTotals(d.keys, d.entries, items, m);
  }

  /**
   * `get_usage_totals_by_service`, with the API response replaced by its item list.
   * Both dictionaries get exactly the labels of the items, in order of first appearance;
   * each entry is that service's sum of non-null values, and the entries of each sum to
   * the overall total of that column.
   */
  method GetUsageTotalsByService(items: seq<LineItem>)
    returns (totalComputedAmountsByService: Dict, totalComputedQuantitiesByService: Dict)
    ensures totalComputedAmountsByService == Breakdown(items, Amount)
    ensures totalComputedQuantitiesByService == Breakdown(items, Quantity)
    ensures totalComputedAmountsByService.Valid() && totalComputedQuantitiesByService.Valid()
    ensures totalComputedAmountsByService.keys == FirstAppearance(items)
    ensures totalComputedQuantitiesByService.keys == FirstAppearance(items)
    ensures totalComputedAmountsByService.entries.Keys == Labels(items)
    ensures totalComputedQuantitiesByService.entries.Keys == Labels(items)
    ensures forall s :: s in totalComputedAmountsByService.entries ==>
      totalComputedAmountsByService.entries[s] == ServiceTotal(items, s, Amount)
    ensures forall s :: s in totalComputedQuantitiesByService.entries ==>
      totalComputedQuantitiesByService.entries[s] == ServiceTotal(items, s, Quantity)
    ensures SumEntries(totalComputedAmountsByService.keys, totalComputedAmountsByService.entries) == Total(items, Amount)
    ensures SumEntries(totalComputedQuantitiesByService.keys, totalComputedQuantitiesByService.entries) == Total(items, Quantity)
  {
    var amounts := Dict([], map[]);
    var quantities := Dict([], map[]);
    for i := 0 to |items|
      invariant amounts == Breakdown(items[..i], Amount)
      invariant quantities == Breakdown(items[..i], Quantity)
    {
      var item := items[i];
      assert items[..i + 1][..i] == items[..i];
      // a new label starts at 0.0 in both dictionaries
      amounts := CreateIfMissing(amounts, item.service);
      quantities := CreateIfMissing(quantities, item.service);
      // present values are added, nulls skipped
      amounts := AddPresent(amounts, item.service, item.computedAmount);
      quantities := AddPresent(quantities, item.service, item.computedQuantity);
    }
    assert items[..|items|] == items;
    BreakdownIsAccumulated(items, Amount);
    BreakdownIsAccumulated(items, Quantity);
    AccumulatedSumsToTotal(amounts, items, Amount);
    AccumulatedSumsToTotal(quantities, items, Quantity);
    totalComputedAmountsByService, totalComputedQuantitiesByService := amounts, quantities;
  }
}
