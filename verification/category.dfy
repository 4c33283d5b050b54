/**
 * The allocation doughnut (src/components/portfolio/CategoryBreakdown.jsx): the
 * sats of the shown records grouped by category, with records that have no
 * category counted under "Uncategorized".
 */
module CategoryBreakdown {
  import opened Wrappers
  import opened Records
  import opened Seqs

  const Uncategorized: string := "Uncategorized"

  /** `item.category || 'Uncategorized'` */
  function Label(category: string): string {
    if category == "" then Uncategorized else category
  }

  function Labels(items: seq<SavedItem>): (r: seq<string>)
    ensures |r| == |items| && forall i :: 0 <= i < |items| ==> r[i] == Label(items[i].category)
  {
    seq(|items|, i requires 0 <= i < |items| => Label(items[i].category))
  }

  /** The sum of the sats of the records counted under `tag`. */
  function SatsIn(items: seq<SavedItem>, tag: string): int
    decreases |items|
  {
    if |items| == 0 then 0
    else
      var last := items[|items| - 1];
      SatsIn(items[..|items| - 1], tag) + (if Label(last.category) == tag then last.sats else 0)
  }

  /** The test for being filed under `tag`. */
  function FiledUnder(tag: string): SavedItem -> bool {
    (r: SavedItem) => Label(r.category) == tag
  }

  /** A category's total is the total of exactly the records filed under it. */
  lemma {:induction false} SatsInIsFilteredTotal(items: seq<SavedItem>, tag: string)
    ensures SatsIn(items, tag) == TotalSats(Filter(items, FiledUnder(tag)))
    decreases |items|
  {
    if |items| > 0 {
      var init := items[..|items| - 1];
      var x := items[|items| - 1];
      var p := FiledUnder(tag);
      SatsInIsFilteredTotal(init, tag);
      assert items == init + [x];
      FilterConcat(init, [x], p);
      var tail := if p(x) then [x] else [];
      assert Filter([x], p) == tail by {
        assert [x][..0] == [];
      }
      TotalSatsConcat(Filter(init, p), tail);
      assert TotalSats(tail) == if p(x) then x.sats else 0 by {
        assert tail == [] || tail[..0] == [];
      }
    }
  }

  /** The totals listed in the order of `labels` (`Object.values` beside `Object.keys`). */
  function TotalsFor(items: seq<SavedItem>, labels: seq<string>): (r: seq<int>)
    ensures |r| == |labels| && forall i :: 0 <= i < |labels| ==> r[i] == SatsIn(items, labels[i])
  {
    seq(|labels|, i requires 0 <= i < |labels| => SatsIn(items, labels[i]))
  }

  function Sum(s: seq<int>): int
    decreases |s|
  {
    if |s| == 0 then 0 else Sum(s[..|s| - 1]) + s[|s| - 1]
  }

  /** The doughnut's input: parallel arrays of labels and totals. */
  datatype Chart = Chart(labels: seq<string>, data: seq<int>)

  /** Nothing to draw: no labels, or a single "Uncategorized" tag whose total is 0. */
  predicate Blank(labels: seq<string>, data: seq<int>)
    requires |labels| == |data|
  {
    |labels| == 0 || (|labels| == 1 && labels[0] == Uncategorized && data[0] == 0)
  }

  /**
   * The `useMemo` body: fill `categoryTotals` record by record (an entry
   * is reset to 0 while missing or falsy, then increased by the record's
   * sats), then read back its keys and values; no chart when blank.
   */
  method ChartData(items: seq<SavedItem>) returns (chart: Option<Chart>)
    ensures var labels := Distinct(Labels(items));
      chart == if Blank(labels, TotalsFor(items, labels)) then None
               else Some(Chart(labels, TotalsFor(items, labels)))
  {
    var keys: seq<string> := [];
    var totals: map<string, int> := map[];
    var k := 0;
    while k < |items|
      invariant 0 <= k <= |items|
      invariant Tallied(items, k, keys, totals)
    {
      ghost var keys0, totals0 := keys, totals;
      var category := Label(items[k].category);
      if category !in totals || totals[category] == 0 {
        if category !in totals {
          keys := keys + [category];
        }
        totals := totals[category := 0];
      }
      totals := totals[category := totals[category] + items[k].sats];
      TallyStep(items, k, keys0, totals0, keys, totals);
      k := k + 1;
    }
    assert items[..k] == items;
    var data := seq(|keys|, i requires 0 <= i < |keys| => totals[keys[i]]);
    assert data == TotalsFor(items, keys);
    if |keys| == 0 || (|keys| == 1 && keys[0] == Uncategorized && data[0] == 0) {
      return None;
    }
    return Some(Chart(keys, data));
  }

  /**
   * After the first `k` records: the keys are the labels met so far in order
   * of first appearance, each holding the sats filed under it.
   */
  ghost predicate Tallied(items: seq<SavedItem>, k: int, keys: seq<string>, totals: map<string, int>)
    requires 0 <= k <= |items|
  {
    && keys == Distinct(Labels(items[..k]))
    && (forall l :: l in totals <==> l in keys)
    && (forall l :: l in totals ==> totals[l] == SatsIn(items[..k], l))
  }

  /** One more record: its label joins the label sequence. */
  lemma LabelsStep(items: seq<SavedItem>, k: int)
    requires 0 <= k < |items|
    ensures Labels(items[..k + 1]) == Labels(items[..k]) + [Label(items[k].category)]
  {
  }

  /** One more record: its sats join its own label's total only. */
  lemma SatsInStep(items: seq<SavedItem>, k: int, l: string)
    requires 0 <= k < |items|
    ensures SatsIn(items[..k + 1], l)
      == SatsIn(items[..k], l) + (if Label(items[k].category) == l then items[k].sats else 0)
  {
    assert items[..k + 1][..k] == items[..k];
  }

  /** A label not met among the first `k` records has nothing filed under it there. */
  lemma AbsentLabel(items: seq<SavedItem>, k: int, l: string)
    requires 0 <= k <= |items| && l !in Distinct(Labels(items[..k]))
    ensures SatsIn(items[..k], l) == 0
  {
    DistinctMembers(Labels(items[..k]));
    SatsInAbsent(items[..k], l);
  }

  /** One record's step on the keys: a label met for the first time is appended. */
  lemma TallyKeys(items: seq<SavedItem>, k: int, keys: seq<string>, keys': seq<string>)
    requires 0 <= k < |items| && keys == Distinct(Labels(items[..k]))
    requires var l := Label(items[k].category);
      keys' == if l in keys then keys else keys + [l]
    ensures keys' == Distinct(Labels(items[..k + 1]))
  {
    LabelsStep(items, k);
    DistinctSnoc(Labels(items[..k]), Label(items[k].category));
  }

  /** One record's step on the totals: the record's sats are added to its label's entry. */
  lemma TallyTotals(items: seq<SavedItem>, k: int, keys: seq<string>, totals: map<string, int>,
                    totals': map<string, int>)
    requires 0 <= k < |items| && keys == Distinct(Labels(items[..k]))
    requires forall l :: l in totals <==> l in keys
    requires forall l :: l in totals ==> totals[l] == SatsIn(items[..k], l)
    requires var l := Label(items[k].category);
      totals' == totals[l := (if l in totals then totals[l] else 0) + items[k].sats]
    ensures forall l :: l in totals' ==> totals'[l] == SatsIn(items[..k + 1], l)
  {
    var c := Label(items[k].category);
    if c !in totals {
      AbsentLabel(items, k, c);
    }
    forall l | l in totals' ensures totals'[l] == SatsIn(items[..k + 1], l) {
      SatsInStep(items, k, l);
    }
  }

  /**
   * One record's step: a label met for the first time gets a key, and the
   * record's sats are added to its label's entry.
   */
  lemma TallyStep(items: seq<SavedItem>, k: int, keys: seq<string>, totals: map<string, int>,
                  keys': seq<string>, totals': map<string, int>)
    requires 0 <= k < |items| && Tallied(items, k, keys, totals)
    requires var l := Label(items[k].category);
      keys' == (if l in totals then keys else keys + [l])
      && totals' == totals[l := (if l in totals then totals[l] else 0) + items[k].sats]
    ensures Tallied(items, k + 1, keys', totals')
  {
    TallyKeys(items, k, keys, keys');
    TallyTotals(items, k, keys, totals, totals');
  }

  /** A tag no record carries has a zero total. */
  lemma {:induction false} SatsInAbsent(items: seq<SavedItem>, tag: string)
    requires tag !in Labels(items)
    ensures SatsIn(items, tag) == 0
    decreases |items|
  {
    if |items| > 0 {
      assert Labels(items[..|items| - 1]) == Labels(items)[..|items| - 1];
      SatsInAbsent(items[..|items| - 1], tag);
    }
  }

  /**
   * The labels are distinct, are exactly the records' labels (a missing
   * category showing as "Uncategorized"), and the data run parallel to them.
   */
  lemma LabelsSpec(items: seq<SavedItem>)
    ensures NoDuplicates(Distinct(Labels(items)))
    ensures forall l :: l in Distinct(Labels(items)) <==>
      exists i :: 0 <= i < |items| && Label(items[i].category) == l
    ensures forall i :: 0 <= i < |items| && items[i].category == "" ==>
      Uncategorized in Distinct(Labels(items))
  {
    DistinctMembers(Labels(items));
    forall l | l in Distinct(Labels(items))
      ensures exists i :: 0 <= i < |items| && Label(items[i].category) == l
    {
      var i := IndexOf(Labels(items), l);
      assert Label(items[i].category) == l;
    }
    forall i | 0 <= i < |items| && items[i].category == ""
      ensures Uncategorized in Distinct(Labels(items))
    {
      assert Labels(items)[i] == Uncategorized;
    }
  }

  /** Adding one record to the end adds its sats to the totals of a distinct tag list that holds its tag once. */
  lemma {:induction false} SumTotalsStep(items: seq<SavedItem>, x: SavedItem, labels: seq<string>)
    requires NoDuplicates(labels)
    ensures Sum(TotalsFor(items + [x], labels))
      == Sum(TotalsFor(items, labels)) + (if Label(x.category) in labels then x.sats else 0)
    decreases |labels|
  {
    if |labels| > 0 {
      var init := labels[..|labels| - 1];
      var l := labels[|labels| - 1];
      assert TotalsFor(items + [x], labels)[..|labels| - 1] == TotalsFor(items + [x], init);
      assert TotalsFor(items, labels)[..|labels| - 1] == TotalsFor(items, init);
      assert (items + [x])[..|items|] == items;
      assert NoDuplicates(init);
      SumTotalsStep(items, x, init);
      assert Label(x.category) in labels <==> Label(x.category) in init || Label(x.category) == l;
      assert !(Label(x.category) in init && Label(x.category) == l);
    } else {
      assert TotalsFor(items + [x], labels) == [];
      assert TotalsFor(items, labels) == [];
    }
  }

  /** Over distinct labels that cover every record, the totals sum to the records' total. */
  lemma {:induction false} SumTotalsCovers(items: seq<SavedItem>, labels: seq<string>)
    requires NoDuplicates(labels)
    requires forall i :: 0 <= i < |items| ==> Label(items[i].category) in labels
    ensures Sum(TotalsFor(items, labels)) == TotalSats(items)
    decreases |items|
  {
    if |items| == 0 {
      var z := TotalsFor(items, labels);
      ZeroTotals(labels, z);
    } else {
      var init := items[..|items| - 1];
      var x := items[|items| - 1];
      assert items == init + [x];
      SumTotalsCovers(init, labels);
      SumTotalsStep(init, x, labels);
    }
  }

  lemma {:induction false} ZeroTotals(labels: seq<string>, z: seq<int>)
    requires z == TotalsFor([], labels)
    ensures Sum(z) == 0
    decreases |labels|
  {
    if |labels| > 0 {
      assert z[..|z| - 1] == TotalsFor([], labels[..|labels| - 1]);
      ZeroTotals(labels[..|labels| - 1], z[..|z| - 1]);
    }
  }

  /** The category totals partition the records: they sum to the total sats of all records. */
  lemma TotalsPartition(items: seq<SavedItem>)
    ensures Sum(TotalsFor(items, Distinct(Labels(items)))) == TotalSats(items)
  {
    DistinctMembers(Labels(items));
    forall i | 0 <= i < |items| ensures Label(items[i].category) in Distinct(Labels(items)) {
      assert Labels(items)[i] == Label(items[i].category);
    }
    SumTotalsCovers(items, Distinct(Labels(items)));
  }

  /** No records, or only uncategorized records whose sats sum to 0, give no chart. */
  lemma BlankCases(items: seq<SavedItem>)
    ensures items == [] ==> Distinct(Labels(items)) == [] && Blank([], [])
    ensures (forall i :: 0 <= i < |items| ==> items[i].category == "") && |items| > 0 ==>
      Distinct(Labels(items)) == [Uncategorized]
      && (Blank(Distinct(Labels(items)), TotalsFor(items, Distinct(Labels(items))))
          <==> TotalSats(items) == 0)
  {
    if (forall i :: 0 <= i < |items| ==> items[i].category == "") && |items| > 0 {
      var ls := Distinct(Labels(items));
      DistinctConstant(Labels(items), Uncategorized);
      TotalsPartition(items);
      assert Sum(TotalsFor(items, ls)) == TotalsFor(items, ls)[0] by {
        assert TotalsFor(items, ls)[..0] == [];
      }
    }
  }
}
