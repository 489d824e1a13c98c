/**
 * `Array.prototype.sort` with the comparator `(a, b) => b.value - a.value`:
 * a stable sort by value, largest first. Any stable sort gives the same
 * result for a given comparator, so insertion sort stands for it here.
 */
module StableSort {

  /** A `{ name, value }` pair as the distribution chart receives it. */
  datatype Entry<K> = Entry(name: K, value: int)

  ghost predicate SortedDesc<K>(s: seq<Entry<K>>) {
    forall i, j :: 0 <= i < j < |s| ==> s[i].value >= s[j].value
  }

  ghost predicate DistinctNames<K>(s: seq<Entry<K>>) {
    forall i, j :: 0 <= i < j < |s| ==> s[i].name != s[j].name
  }

  /** The entries whose value is `v`, in their order in `s`. */
  function WithValue<K>(s: seq<Entry<K>>, v: int): seq<Entry<K>> {
    if s == [] then []
    else (if s[0].value == v then [s[0]] else []) + WithValue(s[1..], v)
  }

  function Sum<K>(s: seq<Entry<K>>): int {
    if s == [] then 0 else s[0].value + Sum(s[1..])
  }

  lemma {:induction false} SumAppend<K>(a: seq<Entry<K>>, b: seq<Entry<K>>)
    ensures Sum(a + b) == Sum(a) + Sum(b)
  {
    if a != [] {
      SumAppend(a[1..], b);
      assert a + b == [a[0]] + (a[1..] + b);
      assert Sum(a + b) == a[0].value + Sum(a[1..] + b);
    } else {
      assert a + b == b;
    }
  }

  /** Puts `x` before the first entry whose value is not larger than its own. */
  function Insert<K>(x: Entry<K>, t: seq<Entry<K>>): seq<Entry<K>> {
    if t == [] then [x]
    else if t[0].value <= x.value then [x] + t
    else [t[0]] + Insert(x, t[1..])
  }

  /** The sorted array: each entry is inserted in front of the already sorted later ones. */
  function SortDesc<K>(s: seq<Entry<K>>): seq<Entry<K>> {
    if s == [] then [] else Insert(s[0], SortDesc(s[1..]))
  }

  /** `sorted` is a stable descending sort of `s`. */
  ghost predicate IsStableDescSortOf<K>(sorted: seq<Entry<K>>, s: seq<Entry<K>>) {
    && SortedDesc(sorted)
    && multiset(sorted) == multiset(s)
    && forall v :: WithValue(sorted, v) == WithValue(s, v)
  }

  lemma {:induction false} InsertElements<K>(x: Entry<K>, t: seq<Entry<K>>)
    ensures multiset(Insert(x, t)) == multiset(t) + multiset{x}
    ensures |Insert(x, t)| == |t| + 1
  {
    if t != [] && t[0].value > x.value {
      InsertElements(x, t[1..]);
      assert t == [t[0]] + t[1..];
    }
  }

  /** Every entry of `Insert(x, t)` is `x` or an entry of `t`. */
  lemma {:induction false} InsertMembers<K>(x: Entry<K>, t: seq<Entry<K>>)
    ensures forall j :: 0 <= j < |Insert(x, t)| ==> Insert(x, t)[j] == x || Insert(x, t)[j] in t
  {
    if t != [] && t[0].value > x.value {
      InsertMembers(x, t[1..]);
      var r := Insert(x, t[1..]);
      forall j | 0 <= j < |r| ensures r[j] == x || r[j] in t {
        if r[j] != x {
          assert r[j] in t[1..];
        }
      }
    }
  }

  lemma {:induction false} InsertSorted<K>(x: Entry<K>, t: seq<Entry<K>>)
    requires SortedDesc(t)
    ensures SortedDesc(Insert(x, t))
  {
    if t != [] && t[0].value > x.value {
      var r := Insert(x, t[1..]);
      assert SortedDesc(t[1..]);
      InsertSorted(x, t[1..]);
      InsertMembers(x, t[1..]);
      var s := [t[0]] + r;
      forall i, j | 0 <= i < j < |s| ensures s[i].value >= s[j].value {
        if i > 0 {
          assert s[i] == r[i - 1] && s[j] == r[j - 1];
        } else {
          assert s[j] == r[j - 1];
          if r[j - 1] != x {
            var k :| 0 <= k < |t[1..]| && t[1..][k] == r[j - 1];
            assert t[k + 1] == r[j - 1];
          }
        }
      }
    }
  }

  /** The entries of `[e] + s` with value `v`. */
  lemma WithValueCons<K>(e: Entry<K>, s: seq<Entry<K>>, v: int)
    ensures WithValue([e] + s, v) == (if e.value == v then [e] else []) + WithValue(s, v)
  {
    assert ([e] + s)[0] == e;
    assert ([e] + s)[1..] == s;
  }

  /** Inserting keeps the relative order of entries with equal values: `x` goes before its equals. */
  lemma {:induction false} InsertStable<K>(x: Entry<K>, t: seq<Entry<K>>, v: int)
    ensures WithValue(Insert(x, t), v) == (if x.value == v then [x] else []) + WithValue(t, v)
  {
    if t == [] {
      WithValueCons(x, t, v);
      assert [x] + t == [x];
    } else if t[0].value <= x.value {
      WithValueCons(x, t, v);
    } else {
      var r := Insert(x, t[1..]);
      InsertStable(x, t[1..], v);
      WithValueCons(t[0], r, v);
      WithValueCons(t[0], t[1..], v);
      assert t == [t[0]] + t[1..];
      if x.value == v {
        assert t[0].value != v;
      }
    }
  }

  lemma {:induction false} InsertSum<K>(x: Entry<K>, t: seq<Entry<K>>)
    ensures Sum(Insert(x, t)) == x.value + Sum(t)
  {
    if t == [] {
    } else if t[0].value <= x.value {
      assert ([x] + t)[1..] == t;
    } else {
      InsertSum(x, t[1..]);
      assert ([t[0]] + Insert(x, t[1..]))[1..] == Insert(x, t[1..]);
    }
  }

  lemma {:induction false} InsertDistinct<K>(x: Entry<K>, t: seq<Entry<K>>)
    requires DistinctNames(t)
    requires forall i :: 0 <= i < |t| ==> t[i].name != x.name
    ensures DistinctNames(Insert(x, t))
  {
    if t != [] && t[0].value > x.value {
      var r := Insert(x, t[1..]);
      assert DistinctNames(t[1..]);
      InsertDistinct(x, t[1..]);
      InsertMembers(x, t[1..]);
      var s := [t[0]] + r;
      forall i, j | 0 <= i < j < |s| ensures s[i].name != s[j].name {
        if i > 0 {
          assert s[i] == r[i - 1] && s[j] == r[j - 1];
        } else {
          assert s[j] == r[j - 1];
          if r[j - 1] != x {
            var k :| 0 <= k < |t[1..]| && t[1..][k] == r[j - 1];
            assert t[k + 1] == r[j - 1];
          }
        }
      }
    }
  }

  /** The sort orders by value, largest first, permutes its input and keeps ties in input order. */
  lemma {:induction false} SortDescIsStableSort<K>(s: seq<Entry<K>>)
    ensures IsStableDescSortOf(SortDesc(s), s)
    ensures |SortDesc(s)| == |s|
    ensures Sum(SortDesc(s)) == Sum(s)
  {
    if s != [] {
      var t := SortDesc(s[1..]);
      SortDescIsStableSort(s[1..]);
      InsertSorted(s[0], t);
      InsertElements(s[0], t);
      InsertSum(s[0], t);
      assert multiset(s) == multiset{s[0]} + multiset(s[1..]) by {
        assert s == [s[0]] + s[1..];
      }
      forall v ensures WithValue(SortDesc(s), v) == WithValue(s, v) {
        InsertStable(s[0], t, v);
      }
    }
  }

  /** Sorting keeps entry names distinct. */
  lemma {:induction false} SortDescDistinct<K>(s: seq<Entry<K>>)
    requires DistinctNames(s)
    ensures DistinctNames(SortDesc(s))
  {
    if s != [] {
      var t := SortDesc(s[1..]);
      assert DistinctNames(s[1..]) by {
        forall i, j | 0 <= i < j < |s[1..]| ensures s[1..][i].name != s[1..][j].name {
          assert s[1..][i] == s[i + 1] && s[1..][j] == s[j + 1];
        }
      }
      SortDescDistinct(s[1..]);
      SortDescIsStableSort(s[1..]);
      forall i | 0 <= i < |t| ensures t[i].name != s[0].name {
        assert t[i] in multiset(t);
        assert t[i] in multiset(s[1..]);
        var k :| 0 <= k < |s[1..]| && s[1..][k] == t[i];
        assert s[k + 1] == t[i];
      }
      InsertDistinct(s[0], t);
    }
  }
}
