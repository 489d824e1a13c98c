/**
 * The inventory dashboard's estimator: per-kind demand over the requests
 * that are not delivered, paired with stock per inventory row, and the
 * demand distribution over all requests, sorted by count, largest first.
 * Both aggregations fill an insertion-ordered map inside nested loops; the
 * map is modelled as its key order plus a Dafny `map`.
 */
module Inventory {
  import opened Types
  import opened StableSort

  /** The keys of the icon table, a record over every item kind. */
  const ItemIconKeys: set<AidRequestItem> :=
    {Food, Water, Medicine, Blankets, Tents, MedicalHelp, BoatTransport, LifeJackets}

  /** The `item in itemIcons` test. */
  predicate HasIcon(item: AidRequestItem) {
    item in ItemIconKeys
  }

  /** The items the `item in itemIcons` test lets through, in order. */
  function Tracked(items: seq<AidRequestItem>): seq<AidRequestItem> {
    if items == [] then []
    else
      var last := items[|items| - 1];
      Tracked(items[..|items| - 1]) + (if HasIcon(last) then [last] else [])
  }

  /** The tracked items of every request, request by request. */
  function TrackedItems(rs: seq<AidRequest>): seq<AidRequestItem> {
    if rs == [] then [] else TrackedItems(rs[..|rs| - 1]) + Tracked(rs[|rs| - 1].items)
  }

  /** Every item entry of every request, request by request. */
  function AllItems(rs: seq<AidRequest>): seq<AidRequestItem> {
    if rs == [] then [] else AllItems(rs[..|rs| - 1]) + rs[|rs| - 1].items
  }

  /** `requests.filter(r => r.status !== 'delivered')`. */
  function Outstanding(rs: seq<AidRequest>): (out: seq<AidRequest>)
    ensures forall r :: r in out <==> r in rs && r.status != Delivered
  {
    if rs == [] then []
    else
      var last := rs[|rs| - 1];
      assert rs == rs[..|rs| - 1] + [last];
      Outstanding(rs[..|rs| - 1]) + (if last.status != Delivered then [last] else [])
  }

  /** Outstanding demand for kind `k`: its occurrences in the items of non-delivered requests. */
  function Demand(rs: seq<AidRequest>, k: AidRequestItem): nat {
    multiset(TrackedItems(Outstanding(rs)))[k]
  }

  /** How often kind `k` is requested at all, whatever the status. */
  function Requested(rs: seq<AidRequest>, k: AidRequestItem): nat {
    multiset(TrackedItems(rs))[k]
  }

  /** The distinct elements of `s` in order of first occurrence: the key order of a JS `Map`. */
  function FirstOccurrences(s: seq<AidRequestItem>): (keys: seq<AidRequestItem>)
    ensures forall x :: x in keys <==> x in s
    ensures forall i, j :: 0 <= i < j < |keys| ==> keys[i] != keys[j]
  {
    if s == [] then []
    else
      var keys := FirstOccurrences(s[..|s| - 1]);
      assert s == s[..|s| - 1] + [s[|s| - 1]];
      if s[|s| - 1] in keys then keys else keys + [s[|s| - 1]]
  }

  /** Where `x` first occurs in `s`. */
  function FirstIndex(s: seq<AidRequestItem>, x: AidRequestItem): (i: nat)
    requires x in s
    ensures i < |s| && s[i] == x && x !in s[..i]
  {
    if s[0] == x then 0
    else
      var i := 1 + FirstIndex(s[1..], x);
      assert s[..i] == [s[0]] + s[1..][..i - 1];
      i
  }

  /** The first occurrence is the only index holding `x` with no earlier `x`. */
  lemma FirstIndexUnique(s: seq<AidRequestItem>, x: AidRequestItem, i: nat)
    requires i < |s| && s[i] == x && x !in s[..i]
    ensures FirstIndex(s, x) == i
  {
  }

  /**
   * The keys come in the order their kinds are first met in `s`: of two
   * keys, the earlier one occurs first in `s`.
   */
  lemma {:induction false} FirstOccurrencesInOrder(s: seq<AidRequestItem>)
    ensures forall i, j :: 0 <= i < j < |FirstOccurrences(s)| ==>
      FirstIndex(s, FirstOccurrences(s)[i]) < FirstIndex(s, FirstOccurrences(s)[j])
  {
    if s != [] {
      var p := s[..|s| - 1];
      var last := s[|s| - 1];
      FirstOccurrencesInOrder(p);
      var kp := FirstOccurrences(p);
      var keys := FirstOccurrences(s);
      assert s == p + [last];
      forall x | x in p
        ensures FirstIndex(s, x) == FirstIndex(p, x)
      {
        var k := FirstIndex(p, x);
        assert s[..k] == p[..k];
        FirstIndexUnique(s, x, k);
      }
      if last !in kp {
        assert s[..|p|] == p;
        FirstIndexUnique(s, last, |p|);
        assert keys == kp + [last];
        forall i, j | 0 <= i < j < |keys|
          ensures FirstIndex(s, keys[i]) < FirstIndex(s, keys[j])
        {
          assert keys[i] == kp[i] && kp[i] in p;
          assert FirstIndex(s, keys[i]) == FirstIndex(p, kp[i]) < |p|;
          if j < |kp| {
            assert keys[j] == kp[j] && kp[j] in p;
            assert FirstIndex(s, keys[j]) == FirstIndex(p, kp[j]);
            assert FirstIndex(p, kp[i]) < FirstIndex(p, kp[j]);
          } else {
            assert keys[j] == last;
            assert FirstIndex(s, keys[j]) == |p|;
          }
        }
      } else {
        assert keys == kp;
        forall i, j | 0 <= i < j < |keys|
          ensures FirstIndex(s, keys[i]) < FirstIndex(s, keys[j])
        {
          assert kp[i] in p && kp[j] in p;
        }
      }
    }
  }

  /** Every item kind has an icon, so the icon test drops nothing. */
  lemma {:induction false} TrackedDropsNothing(items: seq<AidRequestItem>)
    ensures Tracked(items) == items
  {
    if items != [] {
      TrackedDropsNothing(items[..|items| - 1]);
      var last := items[|items| - 1];
      assert HasIcon(last) by {
        match last
        case Food => case Water => case Medicine => case MedicalHelp =>
        case BoatTransport => case LifeJackets => case Blankets => case Tents =>
      }
      assert items == items[..|items| - 1] + [last];
    }
  }

  lemma {:induction false} TrackedItemsAreAllItems(rs: seq<AidRequest>)
    ensures TrackedItems(rs) == AllItems(rs)
  {
    if rs != [] {
      TrackedItemsAreAllItems(rs[..|rs| - 1]);
      TrackedDropsNothing(rs[|rs| - 1].items);
    }
  }

  /** The count map after counting the items of `s` one by one. */
  function CountMap(s: seq<AidRequestItem>): map<AidRequestItem, nat> {
    if s == [] then map[]
    else
      var m := CountMap(s[..|s| - 1]);
      var x := s[|s| - 1];
      m[x := (if x in m then m[x] else 0) + 1]
  }

  /** The count map holds exactly the items of `s`, each with its number of occurrences. */
  lemma {:induction false} CountMapCounts(s: seq<AidRequestItem>)
    ensures forall k :: k in CountMap(s) <==> k in s
    ensures forall k :: k in CountMap(s) ==> CountMap(s)[k] == multiset(s)[k]
  {
    if s != [] {
      var init := s[..|s| - 1];
      CountMapCounts(init);
      assert s == init + [s[|s| - 1]];
    }
  }

  /** `keys` and `counts` are the insertion-ordered count map of the items in `seen`. */
  ghost predicate CountsOf(keys: seq<AidRequestItem>, counts: map<AidRequestItem, nat>, seen: seq<AidRequestItem>) {
    keys == FirstOccurrences(seen) && counts == CountMap(seen)
  }

  /** One `map.set(item, (map.get(item) || 0) + 1)`: the map stays in step with the items seen. */
  method Record(keys0: seq<AidRequestItem>, counts0: map<AidRequestItem, nat>, ghost seen: seq<AidRequestItem>, item: AidRequestItem)
    returns (keys: seq<AidRequestItem>, counts: map<AidRequestItem, nat>)
    requires CountsOf(keys0, counts0, seen)
    ensures CountsOf(keys, counts, seen + [item])
  {
    assert (seen + [item])[..|seen|] == seen;
    CountMapCounts(seen);
    var current := if item in counts0 then counts0[item] else 0;
    keys := if item in counts0 then keys0 else keys0 + [item];
    counts := counts0[item := current + 1];
  }

  lemma TrackedPrefix(items: seq<AidRequestItem>, j: nat)
    requires j < |items|
    ensures Tracked(items[..j + 1]) == Tracked(items[..j]) + (if HasIcon(items[j]) then [items[j]] else [])
  {
    assert items[..j + 1][..j] == items[..j];
  }

  lemma TrackedItemsPrefix(rs: seq<AidRequest>, i: nat)
    requires i < |rs|
    ensures TrackedItems(rs[..i + 1]) == TrackedItems(rs[..i]) + Tracked(rs[i].items)
  {
    assert rs[..i + 1][..i] == rs[..i];
  }

  /** Counts the items of one request into the map. */
  method CountRequestItems(items: seq<AidRequestItem>, keys0: seq<AidRequestItem>, counts0: map<AidRequestItem, nat>, ghost seen0: seq<AidRequestItem>)
    returns (keys: seq<AidRequestItem>, counts: map<AidRequestItem, nat>)
    requires CountsOf(keys0, counts0, seen0)
    ensures CountsOf(keys, counts, seen0 + Tracked(items))
  {
    keys, counts := keys0, counts0;
    var j := 0;
    assert seen0 + Tracked(items[..0]) == seen0;
    while j < |items|
      invariant 0 <= j <= |items|
      invariant CountsOf(keys, counts, seen0 + Tracked(items[..j]))
    {
      ghost var seen := seen0 + Tracked(items[..j]);
      TrackedPrefix(items, j);
      if HasIcon(items[j]) {
        keys, counts := Record(keys, counts, seen, items[j]);
        assert seen + [items[j]] == seen0 + Tracked(items[..j + 1]);
      } else {
        assert seen == seen0 + Tracked(items[..j + 1]);
      }
      j := j + 1;
    }
    assert items[..j] == items;
  }

  method CountItems(rs: seq<AidRequest>) returns (keys: seq<AidRequestItem>, counts: map<AidRequestItem, nat>)
    ensures CountsOf(keys, counts, TrackedItems(rs))
  {
    keys, counts := [], map[];
    var i := 0;
    while i < |rs|
      invariant 0 <= i <= |rs|
      invariant CountsOf(keys, counts, TrackedItems(rs[..i]))
    {
      keys, counts := CountRequestItems(rs[i].items, keys, counts, TrackedItems(rs[..i]));
      TrackedItemsPrefix(rs, i);
      i := i + 1;
    }
    assert rs[..i] == rs;
  }

  /** One bar pair of the stock-vs-demand chart. */
  datatype StockRow = StockRow(name: string, stock: int, demand: nat)

  /** The stock-vs-demand chart data: one row per inventory item, in inventory order. */
  method StockVsDemand(inventory: seq<InventoryItem>, rs: seq<AidRequest>) returns (rows: seq<StockRow>)
    ensures |rows| == |inventory|
    ensures forall i :: 0 <= i < |inventory| ==>
      rows[i] == StockRow(inventory[i].name, inventory[i].quantity, Demand(rs, inventory[i].id))
  {
    var _, needed := CountItems(Outstanding(rs));
    CountMapCounts(TrackedItems(Outstanding(rs)));
    rows := seq(|inventory|, i requires 0 <= i < |inventory| =>
      var demand := if inventory[i].id in needed then needed[inventory[i].id] else 0;
      StockRow(inventory[i].name, inventory[i].quantity, demand));
  }

  /** The `{ name, value }` entries for the given keys, with the counts of `m`. */
  function EntriesFor(keys: seq<AidRequestItem>, m: multiset<AidRequestItem>): (es: seq<Entry<AidRequestItem>>)
    ensures |es| == |keys|
    ensures forall i :: 0 <= i < |keys| ==> es[i] == Entry(keys[i], m[keys[i]])
  {
    seq(|keys|, i requires 0 <= i < |keys| => Entry(keys[i], m[keys[i]]))
  }

  /** The distribution before sorting: each requested kind with its count, in first-request order. */
  function UnsortedDistribution(rs: seq<AidRequest>): seq<Entry<AidRequestItem>> {
    EntriesFor(FirstOccurrences(TrackedItems(rs)), multiset(TrackedItems(rs)))
  }

  /** The distribution as the chart shows it: sorted by count, largest first. */
  function Distribution(rs: seq<AidRequest>): seq<Entry<AidRequestItem>> {
    SortDesc(UnsortedDistribution(rs))
  }

  /** The demand-distribution chart data, computed with the count map and the sort. */
  method DemandDistribution(rs: seq<AidRequest>) returns (dist: seq<Entry<AidRequestItem>>)
    ensures dist == Distribution(rs)
  {
    var keys, counts := CountItems(rs);
    CountMapCounts(TrackedItems(rs));
    var entries := seq(|keys|, i requires 0 <= i < |keys| => Entry(keys[i], counts[keys[i]] as int));
    assert entries == UnsortedDistribution(rs);
    dist := SortDesc(entries);
  }

  /**
   * The chart lists every requested kind once, with its request count, in
   * decreasing order of count; equal counts keep first-request order and the
   * counts add up to the number of requested items.
   */
  lemma DistributionProperties(rs: seq<AidRequest>)
    ensures IsStableDescSortOf(Distribution(rs), UnsortedDistribution(rs))
    ensures DistinctNames(Distribution(rs))
    ensures forall i :: 0 <= i < |Distribution(rs)| ==>
      Distribution(rs)[i].value == Requested(rs, Distribution(rs)[i].name) >= 1
    ensures forall k :: (exists i :: 0 <= i < |Distribution(rs)| && Distribution(rs)[i].name == k) <==> Requested(rs, k) > 0
    ensures Sum(Distribution(rs)) == |AllItems(rs)|
  {
    SortDescIsStableSort(UnsortedDistribution(rs));
    SortDescDistinct(UnsortedDistribution(rs));
    DistributionFacts(rs);
    DistributionValues(rs);
    DistributionNames(rs);
  }

  lemma DistributionValues(rs: seq<AidRequest>)
    ensures forall i :: 0 <= i < |Distribution(rs)| ==>
      Distribution(rs)[i].value == Requested(rs, Distribution(rs)[i].name) >= 1
  {
    var entries := UnsortedDistribution(rs);
    var dist := Distribution(rs);
    SortDescIsStableSort(entries);
    DistributionFacts(rs);
    forall i | 0 <= i < |dist| ensures dist[i].value == Requested(rs, dist[i].name) >= 1 {
      assert dist[i] in multiset(entries);
    }
  }

  lemma DistributionNames(rs: seq<AidRequest>)
    ensures forall k :: (exists i :: 0 <= i < |Distribution(rs)| && Distribution(rs)[i].name == k) <==> Requested(rs, k) > 0
  {
    var entries := UnsortedDistribution(rs);
    var dist := Distribution(rs);
    var keys := FirstOccurrences(TrackedItems(rs));
    SortDescIsStableSort(entries);
    DistributionValues(rs);
    forall k ensures (exists i :: 0 <= i < |dist| && dist[i].name == k) <==> Requested(rs, k) > 0 {
      if Requested(rs, k) > 0 {
        assert k in keys;
        var j :| 0 <= j < |keys| && keys[j] == k;
        assert entries[j] in multiset(dist);
        var i :| 0 <= i < |dist| && dist[i] == entries[j];
        assert dist[i].name == k;
      }
    }
  }

  /** Facts about the unsorted distribution that the sort then preserves. */
  lemma DistributionFacts(rs: seq<AidRequest>)
    ensures DistinctNames(UnsortedDistribution(rs))
    ensures Sum(UnsortedDistribution(rs)) == |AllItems(rs)|
    ensures forall e :: e in UnsortedDistribution(rs) ==> e.value == Requested(rs, e.name) >= 1
  {
    var s := TrackedItems(rs);
    var keys := FirstOccurrences(s);
    var es := UnsortedDistribution(rs);
    SumOfFirstOccurrenceCounts(s);
    TrackedItemsAreAllItems(rs);
    forall i, j | 0 <= i < j < |es| ensures es[i].name != es[j].name {
      assert es[i].name == keys[i] && es[j].name == keys[j];
    }
    forall e | e in es ensures e.value == Requested(rs, e.name) >= 1 {
      var i :| 0 <= i < |es| && es[i] == e;
      assert e.name == keys[i] && keys[i] in s;
    }
  }

  /** Adding one occurrence of `x` raises the counted sum by one exactly when `x` is a key. */
  lemma {:induction false} SumBump(keys: seq<AidRequestItem>, m: multiset<AidRequestItem>, x: AidRequestItem)
    requires forall i, j :: 0 <= i < j < |keys| ==> keys[i] != keys[j]
    ensures Sum(EntriesFor(keys, m + multiset{x})) == Sum(EntriesFor(keys, m)) + (if x in keys then 1 else 0)
  {
    if keys != [] {
      SumBump(keys[1..], m, x);
      assert EntriesFor(keys, m + multiset{x})[1..] == EntriesFor(keys[1..], m + multiset{x});
      assert EntriesFor(keys, m)[1..] == EntriesFor(keys[1..], m);
      assert x in keys <==> x == keys[0] || x in keys[1..];
      assert x == keys[0] ==> x !in keys[1..];
    }
  }

  /** The counts of the distinct items add up to the number of items. */
  lemma {:induction false} SumOfFirstOccurrenceCounts(s: seq<AidRequestItem>)
    ensures Sum(EntriesFor(FirstOccurrences(s), multiset(s))) == |s|
  {
    if s != [] {
      var init := s[..|s| - 1];
      var x := s[|s| - 1];
      var keys := FirstOccurrences(init);
      SumOfFirstOccurrenceCounts(init);
      assert s == init + [x];
      SumBump(keys, multiset(init), x);
      if x !in keys {
        var m := multiset(s);
        assert EntriesFor(keys + [x], m) == EntriesFor(keys, m) + [Entry(x, m[x])];
        SumAppend(EntriesFor(keys, m), [Entry(x, m[x])]);
        assert multiset(init)[x] == 0;
      }
    }
  }

  lemma {:induction false} OutstandingAppend(a: seq<AidRequest>, b: seq<AidRequest>)
    ensures Outstanding(a + b) == Outstanding(a) + Outstanding(b)
    decreases |b|
  {
    if b != [] {
      var init := b[..|b| - 1];
      OutstandingAppend(a, init);
      assert (a + b)[..|a + b| - 1] == a + init;
    } else {
      assert a + b == a;
    }
  }

  lemma {:induction false} TrackedItemsAppend(a: seq<AidRequest>, b: seq<AidRequest>)
    ensures TrackedItems(a + b) == TrackedItems(a) + TrackedItems(b)
    decreases |b|
  {
    if b != [] {
      var init := b[..|b| - 1];
      TrackedItemsAppend(a, init);
      assert (a + b)[..|a + b| - 1] == a + init;
    } else {
      assert a + b == a;
    }
  }

  /**
   * A delivered request anywhere in the list does not count towards demand:
   * adding it, removing it or replacing it by another delivered request
   * leaves the stock-vs-demand figures as they are.
   */
  lemma DemandIgnoresDelivered(a: seq<AidRequest>, r: AidRequest, b: seq<AidRequest>, k: AidRequestItem)
    requires r.status == Delivered
    ensures Demand(a + [r] + b, k) == Demand(a + b, k)
  {
    OutstandingAppend(a + [r], b);
    OutstandingAppend(a, [r]);
    OutstandingAppend(a, b);
    assert Outstanding([r]) == [];
    assert Outstanding(a + [r]) == Outstanding(a);
  }

  /** The outstanding items are among the requested ones, with no more occurrences. */
  lemma {:induction false} OutstandingItemsIncluded(rs: seq<AidRequest>)
    ensures multiset(TrackedItems(Outstanding(rs))) <= multiset(TrackedItems(rs))
  {
    if rs != [] {
      var init := rs[..|rs| - 1];
      var last := rs[|rs| - 1];
      OutstandingItemsIncluded(init);
      var extra := if last.status != Delivered then [last] else [];
      assert Outstanding(rs) == Outstanding(init) + extra;
      TrackedItemsAppend(Outstanding(init), extra);
      assert TrackedItems([last]) == Tracked(last.items);
      var before := TrackedItems(Outstanding(init));
      var added := TrackedItems(extra);
      assert multiset(before + added) == multiset(before) + multiset(added);
      assert multiset(TrackedItems(rs)) == multiset(TrackedItems(init)) + multiset(Tracked(last.items));
    }
  }

  /** Outstanding demand never exceeds the request count, so a kind nobody asked for has demand 0. */
  lemma DemandAtMostRequested(rs: seq<AidRequest>, k: AidRequestItem)
    ensures Demand(rs, k) <= Requested(rs, k)
    ensures Requested(rs, k) == 0 ==> Demand(rs, k) == 0
  {
    OutstandingItemsIncluded(rs);
  }

  /**
   * The low-stock badge: quantity at or below the threshold. An empty
   * stock always raises it unless the threshold is negative, and stock
   * above the threshold never does.
   */
  predicate IsLow(item: InventoryItem): (low: bool)
    ensures item.quantity <= 0 <= item.threshold ==> low
    ensures item.threshold < item.quantity ==> !low
  {
    item.quantity <= item.threshold
  }

  /** A low item stays low when its stock falls or its threshold rises. */
  lemma LowStockMonotone(item: InventoryItem, quantity: int, threshold: int)
    requires IsLow(item) && quantity <= item.quantity && item.threshold <= threshold
    ensures IsLow(item.(quantity := quantity, threshold := threshold))
  {
  }
}
