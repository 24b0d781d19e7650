/**
 * The three reports of the reports panel: quantity by item, opening versus
 * closing stock, and the per-branch distribution of quantity shown as a
 * pie with cycling colours.
 */
module Reports {
  import opened Wrappers
  import opened Collections
  import Js

  /** A stock as the reports panel receives it: every field may be missing or falsy. */
  datatype ReportStock = ReportStock(itemName: Option<string>, quantity: Option<int>,
                                     openingStock: Option<int>, closingStock: Option<int>,
                                     branch: Option<string>)

  /** The `stocks` prop when it is an array, or the empty list for anything else (None). */
  function SafeStocks(stocks: Option<seq<ReportStock>>): (r: seq<ReportStock>)
    ensures stocks.Some? ==> r == stocks.value
    ensures stocks.None? ==> r == []
  {
    if stocks.Some? then stocks.value else []
  }

  // ---------------------------------------------------------------------
  // Report 1 and 2: one row per stock
  // ---------------------------------------------------------------------

  datatype QuantityRow = QuantityRow(name: string, quantity: int)

  datatype FlowRow = FlowRow(name: string, opening: int, closing: int)

  /** The shown name of a stock: its item name, or "Unknown" when missing or empty. */
  function ItemLabel(s: ReportStock): string {
    Js.OrString(s.itemName, "Unknown")
  }

  /** The quantity a stock contributes, 0 when missing. */
  function Amount(s: ReportStock): int {
    Js.OrZero(s.quantity)
  }

  /** `quantityData`: one row per stock, in the same order. */
  function QuantityData(xs: seq<ReportStock>): (r: seq<QuantityRow>)
    ensures |r| == |xs|
    ensures forall i :: 0 <= i < |xs| ==>
              && (Js.Truthy(xs[i].itemName) ==> r[i].name == xs[i].itemName.value)
              && (!Js.Truthy(xs[i].itemName) ==> r[i].name == "Unknown")
              && (Js.TruthyNumber(xs[i].quantity) ==> r[i].quantity == xs[i].quantity.value)
              && (!Js.TruthyNumber(xs[i].quantity) ==> r[i].quantity == 0)
  {
    seq(|xs|, i requires 0 <= i < |xs| => QuantityRow(ItemLabel(xs[i]), Amount(xs[i])))
  }

  /** `stockFlowData`: one row per stock, in the same order. */
  function StockFlowData(xs: seq<ReportStock>): (r: seq<FlowRow>)
    ensures |r| == |xs|
    ensures forall i :: 0 <= i < |xs| ==>
              && r[i].name == QuantityData(xs)[i].name
              && (Js.TruthyNumber(xs[i].openingStock) ==> r[i].opening == xs[i].openingStock.value)
              && (!Js.TruthyNumber(xs[i].openingStock) ==> r[i].opening == 0)
              && (Js.TruthyNumber(xs[i].closingStock) ==> r[i].closing == xs[i].closingStock.value)
              && (!Js.TruthyNumber(xs[i].closingStock) ==> r[i].closing == 0)
  {
    seq(|xs|, i requires 0 <= i < |xs| =>
      FlowRow(ItemLabel(xs[i]), Js.OrZero(xs[i].openingStock), Js.OrZero(xs[i].closingStock)))
  }

  // ---------------------------------------------------------------------
  // Report 3: the branch accumulator and the pie
  // ---------------------------------------------------------------------

  /** The accumulator object of `branchData`: its keys in insertion order, and its values. */
  datatype Tally = Tally(keys: seq<string>, totals: map<string, int>)

  /** The keys are listed once each and are exactly the keys of the map. */
  ghost predicate WellFormed(t: Tally) {
    && NoDuplicates(t.keys)
    && (forall k :: k in t.totals <==> k in t.keys)
  }

  /** The key a stock is counted under: its branch, or "Unknown". */
  function BranchKey(s: ReportStock): string {
    Js.OrString(s.branch, "Unknown")
  }

  /** One step of the reduce: `acc[k] = (acc[k] || 0) + q`; a new key goes to the end of the insertion order. */
  function Add(t: Tally, k: string, q: int): (r: Tally)
    ensures WellFormed(t) ==> WellFormed(r)
    ensures k in r.totals && r.totals[k] == (if k in t.totals then t.totals[k] else 0) + q
    ensures forall j :: j in t.totals && j != k ==> j in r.totals && r.totals[j] == t.totals[j]
    ensures forall j :: j in r.totals ==> j in t.totals || j == k
    ensures |t.keys| <= |r.keys| && r.keys[..|t.keys|] == t.keys
  {
    if k in t.totals then Tally(t.keys, t.totals[k := t.totals[k] + q])
    else Tally(t.keys + [k], t.totals[k := q])
  }

  /** `branchData`: the reduce over the stocks, starting from the empty object. */
  function BranchData(xs: seq<ReportStock>): (r: Tally)
    ensures WellFormed(r)
    ensures |r.keys| <= |xs|
  {
    if |xs| == 0 then Tally([], map[])
    else
      var last := xs[|xs| - 1];
      Add(BranchData(xs[..|xs| - 1]), BranchKey(last), Amount(last))
  }

  /** The branch keys of the stocks, one per stock. */
  function BranchKeys(xs: seq<ReportStock>): (r: seq<string>)
    ensures |r| == |xs|
    ensures forall i :: 0 <= i < |xs| ==> r[i] == BranchKey(xs[i])
  {
    if |xs| == 0 then [] else BranchKeys(xs[..|xs| - 1]) + [BranchKey(xs[|xs| - 1])]
  }

  /** The independent reference for a total: the quantities of the stocks counted under `k`, summed. */
  function BranchTotal(xs: seq<ReportStock>, k: string): int {
    if |xs| == 0 then 0
    else
      var last := xs[|xs| - 1];
      BranchTotal(xs[..|xs| - 1], k) + (if BranchKey(last) == k then Amount(last) else 0)
  }

  /** The accumulator's keys are the distinct branch keys, in order of first occurrence. */
  lemma {:induction false} BranchDataOrder(xs: seq<ReportStock>)
    ensures BranchData(xs).keys == Distinct(BranchKeys(xs))
  {
    if |xs| > 0 {
      var n := |xs| - 1;
      var init := xs[..n];
      var key := BranchKey(xs[n]);
      BranchDataOrder(init);
      BranchDataKeysMatch(init);
      var d := Distinct(BranchKeys(init));
      assert BranchKeys(xs)[..n] == BranchKeys(init);
      assert BranchKeys(xs)[n] == key;
      assert Distinct(BranchKeys(xs)) == if key in d then d else d + [key];
      assert (key in BranchData(init).totals) == (key in d);
    }
  }

  /** A key has a total exactly when it is listed among the distinct branch keys. */
  lemma BranchDataKeysMatch(xs: seq<ReportStock>)
    requires BranchData(xs).keys == Distinct(BranchKeys(xs))
    ensures forall k :: k in BranchData(xs).totals <==> k in Distinct(BranchKeys(xs))
  {
  }

  /** Each total of the accumulator is the branch's summed quantity, and a key without a total sums to 0. */
  lemma {:induction false} BranchDataSums(xs: seq<ReportStock>)
    ensures forall k :: k in BranchData(xs).totals ==> BranchData(xs).totals[k] == BranchTotal(xs, k)
    ensures forall k :: k !in BranchData(xs).totals ==> BranchTotal(xs, k) == 0
  {
    if |xs| > 0 {
      var n := |xs| - 1;
      var init := xs[..n];
      var t, key, q := BranchData(init), BranchKey(xs[n]), Amount(xs[n]);
      BranchDataSums(init);
      assert BranchData(xs) == Add(t, key, q);
      forall k
        ensures k in BranchData(xs).totals ==> BranchData(xs).totals[k] == BranchTotal(xs, k)
        ensures k !in BranchData(xs).totals ==> BranchTotal(xs, k) == 0
      {
        assert BranchTotal(xs, k) == BranchTotal(init, k) + (if key == k then q else 0);
      }
    }
  }

  /** The accumulator lists each distinct branch key once, in order of first occurrence, and holds its summed quantity. */
  lemma BranchDataShape(xs: seq<ReportStock>)
    ensures WellFormed(BranchData(xs))
    ensures BranchData(xs).keys == Distinct(BranchKeys(xs))
    ensures forall k :: k in BranchData(xs).totals ==> BranchData(xs).totals[k] == BranchTotal(xs, k)
    ensures forall k :: k !in BranchData(xs).totals ==> BranchTotal(xs, k) == 0
  {
    BranchDataOrder(xs);
    BranchDataSums(xs);
  }

  /** A branch key is in `branchData` exactly when some stock is counted under it. */
  lemma BranchDataKeys(xs: seq<ReportStock>, k: string)
    ensures k in BranchData(xs).totals <==> exists i :: 0 <= i < |xs| && BranchKey(xs[i]) == k
  {
    BranchDataShape(xs);
    DistinctMembers(BranchKeys(xs));
    if k in BranchData(xs).totals {
      var i :| 0 <= i < |xs| && BranchKeys(xs)[i] == k;
      assert BranchKey(xs[i]) == k;
    }
    if exists i :: 0 <= i < |xs| && BranchKey(xs[i]) == k {
      var i :| 0 <= i < |xs| && BranchKey(xs[i]) == k;
      assert BranchKeys(xs)[i] == k;
    }
  }

  datatype Slice = Slice(name: string, value: int)

  /** `Object.entries(branchData).map(...)` over the given keys. */
  function PieSlices(keys: seq<string>, totals: map<string, int>): (r: seq<Slice>)
    requires forall k :: k in keys ==> k in totals
    ensures |r| == |keys|
    ensures forall i :: 0 <= i < |keys| ==> r[i] == Slice(keys[i], totals[keys[i]])
  {
    if |keys| == 0 then []
    else PieSlices(keys[..|keys| - 1], totals) + [Slice(keys[|keys| - 1], totals[keys[|keys| - 1]])]
  }

  /** `pieData` for the stocks. */
  function PieData(xs: seq<ReportStock>): (r: seq<Slice>)
    ensures |r| <= |xs|
    ensures forall i, j :: 0 <= i < j < |r| ==> r[i].name != r[j].name
  {
    BranchDataShape(xs);
    PieSlices(BranchData(xs).keys, BranchData(xs).totals)
  }

  /** One slice per distinct branch key, in order of first occurrence, none repeated, each with the branch's summed quantity. */
  lemma PieSlicesPerBranch(xs: seq<ReportStock>)
    ensures |PieData(xs)| == |Distinct(BranchKeys(xs))|
    ensures forall i :: 0 <= i < |PieData(xs)| ==>
              PieData(xs)[i] == Slice(Distinct(BranchKeys(xs))[i], BranchTotal(xs, Distinct(BranchKeys(xs))[i]))
    ensures forall i, j :: 0 <= i < j < |PieData(xs)| ==> PieData(xs)[i].name != PieData(xs)[j].name
  {
    var t, d := BranchData(xs), Distinct(BranchKeys(xs));
    BranchDataOrder(xs);
    BranchDataSums(xs);
    var pie := PieSlices(t.keys, t.totals);
    assert PieData(xs) == pie;
    forall i | 0 <= i < |pie|
      ensures pie[i] == Slice(d[i], BranchTotal(xs, d[i]))
    {
      assert pie[i] == Slice(t.keys[i], t.totals[t.keys[i]]);
    }
  }

  function SlicesTotal(s: seq<Slice>): int {
    if |s| == 0 then 0 else SlicesTotal(s[..|s| - 1]) + s[|s| - 1].value
  }

  function RowsTotal(rows: seq<QuantityRow>): int {
    if |rows| == 0 then 0 else RowsTotal(rows[..|rows| - 1]) + rows[|rows| - 1].quantity
  }

  /** The total of the map's values at the listed keys. */
  function KeysTotal(keys: seq<string>, totals: map<string, int>): int
    requires forall k :: k in keys ==> k in totals
  {
    if |keys| == 0 then 0 else KeysTotal(keys[..|keys| - 1], totals) + totals[keys[|keys| - 1]]
  }

  lemma {:induction false} SlicesTotalIsKeysTotal(keys: seq<string>, totals: map<string, int>)
    requires forall k :: k in keys ==> k in totals
    ensures SlicesTotal(PieSlices(keys, totals)) == KeysTotal(keys, totals)
  {
    if |keys| > 0 {
      var n := |keys| - 1;
      SlicesTotalIsKeysTotal(keys[..n], totals);
      assert PieSlices(keys, totals)[..n] == PieSlices(keys[..n], totals);
    }
  }

  /** Changing the value at a key listed once moves the total by the same amount; changing an unlisted key leaves it. */
  lemma {:induction false} KeysTotalUpdate(keys: seq<string>, totals: map<string, int>, k: string, v: int)
    requires forall x :: x in keys ==> x in totals
    requires NoDuplicates(keys)
    ensures k in keys ==> KeysTotal(keys, totals[k := v]) == KeysTotal(keys, totals) + v - totals[k]
    ensures k !in keys ==> KeysTotal(keys, totals[k := v]) == KeysTotal(keys, totals)
  {
    if |keys| > 0 {
      var n := |keys| - 1;
      var init := keys[..n];
      assert NoDuplicates(init);
      KeysTotalUpdate(init, totals, k, v);
      if keys[n] == k {
        assert k !in init;
      }
    }
  }

  /** One reduce step adds its quantity to the total of the accumulator. */
  lemma KeysTotalAdd(t: Tally, k: string, q: int)
    requires WellFormed(t)
    ensures WellFormed(Add(t, k, q))
    ensures KeysTotal(Add(t, k, q).keys, Add(t, k, q).totals) == KeysTotal(t.keys, t.totals) + q
  {
    if k in t.totals {
      KeysTotalUpdate(t.keys, t.totals, k, t.totals[k] + q);
    } else {
      KeysTotalUpdate(t.keys, t.totals, k, q);
      var keys' := t.keys + [k];
      assert keys'[..|t.keys|] == t.keys;
    }
  }

  /** The quantity report's total grows by the last stock's defaulted quantity. */
  lemma RowsTotalStep(xs: seq<ReportStock>)
    requires |xs| > 0
    ensures RowsTotal(QuantityData(xs)) == RowsTotal(QuantityData(xs[..|xs| - 1])) + Amount(xs[|xs| - 1])
  {
    var n := |xs| - 1;
    var rows := QuantityData(xs);
    assert rows[..n] == QuantityData(xs[..n]);
    assert rows[n].quantity == Amount(xs[n]);
  }

  /** The accumulator's total grows by the last stock's defaulted quantity. */
  lemma BranchDataStep(xs: seq<ReportStock>)
    requires |xs| > 0
    ensures KeysTotal(BranchData(xs).keys, BranchData(xs).totals)
              == KeysTotal(BranchData(xs[..|xs| - 1]).keys, BranchData(xs[..|xs| - 1]).totals) + Amount(xs[|xs| - 1])
  {
    var n := |xs| - 1;
    var t, k, q := BranchData(xs[..n]), BranchKey(xs[n]), Amount(xs[n]);
    KeysTotalAdd(t, k, q);
    assert BranchData(xs) == Add(t, k, q);
  }

  /** The accumulator's values add up to the defaulted quantities. */
  lemma {:induction false} BranchDataTotal(xs: seq<ReportStock>)
    ensures KeysTotal(BranchData(xs).keys, BranchData(xs).totals) == RowsTotal(QuantityData(xs))
  {
    if |xs| > 0 {
      BranchDataTotal(xs[..|xs| - 1]);
      BranchDataStep(xs);
      RowsTotalStep(xs);
    }
  }

  /** Conservation: the pie shows exactly the total quantity of the first report. */
  lemma PieConservesQuantity(xs: seq<ReportStock>)
    ensures SlicesTotal(PieData(xs)) == RowsTotal(QuantityData(xs))
  {
    BranchDataTotal(xs);
    SlicesTotalIsKeysTotal(BranchData(xs).keys, BranchData(xs).totals);
  }

  /** A `stocks` prop that is not an array gives three empty reports. */
  lemma NonArrayIsEmpty()
    ensures QuantityData(SafeStocks(None)) == []
    ensures StockFlowData(SafeStocks(None)) == []
    ensures PieData(SafeStocks(None)) == []
  {
  }

  // ---------------------------------------------------------------------
  // Slice colours
  // ---------------------------------------------------------------------

  const Colors: seq<string> := ["#4ade80", "#60a5fa", "#f87171", "#fbbf24", "#a78bfa"]

  /** The fill of slice `index`: the palette, cycled. */
  function CellColor(index: nat): (c: string)
    ensures c in Colors
    ensures c == Colors[index % 5]
  {
    Colors[index % |Colors|]
  }

  /** Colours repeat every five slices, and any five consecutive slices get five different colours. */
  lemma ColorsCycle(i: nat, j: nat)
    ensures CellColor(i + 5) == CellColor(i)
    ensures i < j < i + 5 ==> CellColor(i) != CellColor(j)
  {
    if i < j < i + 5 {
      assert i % 5 != j % 5;
    }
  }
}
