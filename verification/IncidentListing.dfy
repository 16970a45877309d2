/** Listing the incident table: any order the table yields, sorted, cut at 100 rows. */
module IncidentListing {
  import opened Sorting
  import opened Incidents

  lemma BeforeIsWeak()
    ensures StrictWeak(Before)
  {
  }

  lemma FirstOfSorted(rows: map<int, Row>, all: seq<Item>, n: nat)
    requires Sorted(Before, all) && Distinct(Ids(all)) && n == (if |rows| < WINDOW then |rows| else WINDOW)
            && n <= |all|
    requires |all| == |rows|
    requires forall k :: 0 <= k < |all| ==> all[k].id in rows && rows[all[k].id] == all[k].row
    requires forall id :: id in rows ==> Listed(all, id)
    ensures IsWindow(rows, all[..n])
  {
    var items := all[..n];
    forall j, k | 0 <= j < k < |items| ensures items[j].id != items[k].id {
      assert Ids(all)[j] != Ids(all)[k];
    }
    forall id, k | id in rows && !Listed(items, id) && 0 <= k < |items| ensures !Before(Item(id, rows[id]), items[k]) {
      var j :| 0 <= j < |all| && all[j].id == id;
      assert forall i :: 0 <= i < |items| ==> items[i].id != id && items[i] == all[i];
      assert all[j] == Item(id, rows[id]) && !Before(all[j], all[k]);
    }
  }

  /** All rows in whatever order the table yields them. */
  method ListRows(rows: map<int, Row>) returns (all: seq<Item>)
    ensures |all| == |rows|
    ensures forall k :: 0 <= k < |all| ==> all[k].id in rows && rows[all[k].id] == all[k].row
    ensures forall j, k :: 0 <= j < k < |all| ==> all[j].id != all[k].id
    ensures forall id :: id in rows ==> Listed(all, id)
  {
    var order := Visit(rows.Keys);
    all := seq(|order|,
               i requires 0 <= i < |order| && forall x :: x in order ==> x in rows => Item(order[i], rows[order[i]]));
    forall k | 0 <= k < |all| ensures all[k].id in rows {
      assert order[k] in order;
    }
    forall id | id in rows ensures Listed(all, id) {
      assert id in order;
      var k :| 0 <= k < |order| && order[k] == id;
      assert all[k].id == id;
    }
  }

  lemma SortedKeepsListing(rows: map<int, Row>, all: seq<Item>, sorted: seq<Item>)
    requires multiset(sorted) == multiset(all) && |sorted| == |all|
    requires forall k :: 0 <= k < |all| ==> all[k].id in rows && rows[all[k].id] == all[k].row
    requires forall id :: id in rows ==> Listed(all, id)
    requires forall j, k :: 0 <= j < k < |all| ==> all[j].id != all[k].id
    ensures forall k :: 0 <= k < |sorted| ==> sorted[k].id in rows && rows[sorted[k].id] == sorted[k].row
    ensures forall id :: id in rows ==> Listed(sorted, id)
    ensures Distinct(Ids(sorted))
  {
    forall k | 0 <= k < |sorted| ensures sorted[k].id in rows && rows[sorted[k].id] == sorted[k].row {
      assert sorted[k] in multiset(all);
      var j :| 0 <= j < |all| && all[j] == sorted[k];
    }
    forall id | id in rows ensures Listed(sorted, id) {
      var k :| 0 <= k < |all| && all[k].id == id;
      assert all[k] in multiset(sorted);
      var j :| 0 <= j < |sorted| && sorted[j] == all[k];
    }
    PermutationDistinct(all, sorted);
    forall j, k | 0 <= j < k < |sorted| ensures sorted[j].id != sorted[k].id {
      assert sorted[j] != sorted[k];
    }
  }
}
