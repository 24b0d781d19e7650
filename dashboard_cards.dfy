/**
 * The three summary cards of the dashboard: the total quantity, the
 * distinct branches, and the number of stock records.
 */
module DashboardCards {
  import opened Schema
  import opened Collections
  import Js

  /** The quantities of the records, in order. */
  function Quantities(stocks: seq<Stock>): (r: seq<int>)
    ensures |r| == |stocks|
    ensures forall i :: 0 <= i < |stocks| ==> r[i] == stocks[i].quantity
  {
    seq(|stocks|, i requires 0 <= i < |stocks| => stocks[i].quantity)
  }

  /** `totalStock`: the quantities added up from 0. */
  function TotalStock(stocks: seq<Stock>): (t: int)
    ensures stocks == [] ==> t == 0
  {
    Sum(Quantities(stocks))
  }

  /** The total of two lists of records is the sum of their totals. */
  lemma {:induction false} TotalStockAppend(a: seq<Stock>, b: seq<Stock>)
    ensures TotalStock(a + b) == TotalStock(a) + TotalStock(b)
  {
    if |b| > 0 {
      var n := |b| - 1;
      TotalStockAppend(a, b[..n]);
      assert (a + b)[..|a + b| - 1] == a + b[..n];
      assert Quantities(a + b)[..|a + b| - 1] == Quantities(a + b[..n]);
      assert Quantities(b)[..n] == Quantities(b[..n]);
    } else {
      assert a + b == a;
    }
  }

  /** With no negative quantity the total is at least each record's quantity. */
  lemma TotalStockBounds(stocks: seq<Stock>, i: nat)
    requires i < |stocks|
    requires forall j :: 0 <= j < |stocks| ==> stocks[j].quantity >= 0
    ensures 0 <= stocks[i].quantity <= TotalStock(stocks)
  {
    assert stocks == stocks[..i] + [stocks[i]] + stocks[i + 1..];
    TotalStockAppend(stocks[..i] + [stocks[i]], stocks[i + 1..]);
    TotalStockAppend(stocks[..i], [stocks[i]]);
    NonNegativeTotal(stocks[..i]);
    NonNegativeTotal(stocks[i + 1..]);
    var q := [stocks[i].quantity];
    assert Quantities([stocks[i]]) == q;
    assert q[..0] == [];
    assert Sum(q) == stocks[i].quantity;
    assert TotalStock([stocks[i]]) == stocks[i].quantity;
  }

  lemma {:induction false} NonNegativeTotal(stocks: seq<Stock>)
    requires forall j :: 0 <= j < |stocks| ==> stocks[j].quantity >= 0
    ensures TotalStock(stocks) >= 0
  {
    if |stocks| > 0 {
      var n := |stocks| - 1;
      NonNegativeTotal(stocks[..n]);
      assert Quantities(stocks)[..n] == Quantities(stocks[..n]);
    }
  }

  /** The locations of the records, in order. */
  function Locations(stocks: seq<Stock>): (r: seq<string>)
    ensures |r| == |stocks|
    ensures forall i :: 0 <= i < |stocks| ==> r[i] == stocks[i].location
  {
    seq(|stocks|, i requires 0 <= i < |stocks| => stocks[i].location)
  }

  /** `branches`: the distinct locations. */
  function Branches(stocks: seq<Stock>): (r: seq<string>)
    ensures NoDuplicates(r)
    ensures forall b :: b in r <==> b in Locations(stocks)
    ensures |r| <= |stocks|
  {
    DistinctMembers(Locations(stocks));
    Distinct(Locations(stocks))
  }

  /** No branch is listed twice, every record's location is listed, nothing else is, and they come in order of first occurrence. */
  lemma BranchesListed(stocks: seq<Stock>)
    ensures NoDuplicates(Branches(stocks))
    ensures forall i :: 0 <= i < |stocks| ==> stocks[i].location in Branches(stocks)
    ensures forall b :: b in Branches(stocks) ==> exists i :: 0 <= i < |stocks| && stocks[i].location == b
    ensures |Branches(stocks)| <= |stocks|
    ensures forall i, j :: 0 <= i < j < |Branches(stocks)| ==>
              Branches(stocks)[i] in Locations(stocks) && Branches(stocks)[j] in Locations(stocks) &&
              FirstIndex(Locations(stocks), Branches(stocks)[i]) < FirstIndex(Locations(stocks), Branches(stocks)[j])
  {
    var locs := Locations(stocks);
    DistinctMembers(locs);
    DistinctOrder(locs);
    forall b | b in Branches(stocks)
      ensures exists i :: 0 <= i < |stocks| && stocks[i].location == b
    {
      var i :| 0 <= i < |locs| && locs[i] == b;
      assert stocks[i].location == b;
    }
  }

  /** The "Stock Categories" card: the number of records. */
  function Categories(stocks: seq<Stock>): (n: nat)
    ensures n == 0 <==> stocks == []
    ensures n >= |Branches(stocks)|
  {
    |stocks|
  }

  /** The card counts records, not distinct item names: two records of one item count twice. */
  lemma CategoriesCountRecords(s: Stock)
    ensures Categories([s, s]) == 2
    ensures Categories([s, s]) > |Distinct([s.itemName, s.itemName])|
  {
    assert Distinct([s.itemName]) == [s.itemName];
    assert [s.itemName, s.itemName][..1] == [s.itemName];
  }

  /** The text of the "Branches" card. */
  function BranchesLabel(stocks: seq<Stock>): (r: string)
    ensures stocks == [] ==> r == ""
    ensures |Branches(stocks)| == 1 ==> r == stocks[0].location
  {
    assert |Branches(stocks)| == 1 ==> Locations(stocks)[0] in Branches(stocks);
    Js.Join(Branches(stocks), ", ")
  }

  /** Every record's location appears in the "Branches" card. */
  lemma EveryLocationShown(stocks: seq<Stock>, i: nat)
    requires i < |stocks|
    ensures Js.Includes(BranchesLabel(stocks), stocks[i].location)
  {
    BranchesListed(stocks);
    var b := Branches(stocks);
    var k :| 0 <= k < |b| && b[k] == stocks[i].location;
    Js.JoinShowsEach(b, ", ", k);
  }
}
