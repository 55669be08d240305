/**
 * The order in which the export lists items: a copy of the list sorted by
 * EAN with localeCompare (app.js:138). The comparison is modelled as plain
 * lexicographic order on code points, and the library sort, which is stable,
 * as an insertion sort, proved stable in SortIsStable.
 */
module EanOrder {
  import opened Items

  /** At the first position where a and b differ, a holds the smaller code point. */
  predicate FirstDifferenceLower(a: string, b: string) {
    exists k :: 0 <= k < |a| && k < |b| && a[..k] == b[..k] && a[k] < b[k]
  }

  /** With different first characters, the first difference is at position 0. */
  lemma HeadsDiffer(a: string, b: string)
    requires a != [] && b != [] && a[0] != b[0]
    ensures FirstDifferenceLower(a, b) <==> a[0] < b[0]
    ensures !(a <= b)
  {
    assert a[..0] == b[..0];
  }

  /** A first difference of the tails is one of the whole strings, one further on. */
  lemma DifferenceFromTails(a: string, b: string)
    requires a != [] && b != [] && a[0] == b[0]
    requires FirstDifferenceLower(a[1..], b[1..])
    ensures FirstDifferenceLower(a, b)
  {
    var a', b' := a[1..], b[1..];
    var k :| 0 <= k < |a'| && k < |b'| && a'[..k] == b'[..k] && a'[k] < b'[k];
    assert a[..k + 1] == [a[0]] + a'[..k] && b[..k + 1] == [b[0]] + b'[..k];
    assert a[k + 1] < b[k + 1];
  }

  /** A first difference of strings with equal heads lies in their tails. */
  lemma DifferenceInTails(a: string, b: string)
    requires a != [] && b != [] && a[0] == b[0]
    requires FirstDifferenceLower(a, b)
    ensures FirstDifferenceLower(a[1..], b[1..])
  {
    var a', b' := a[1..], b[1..];
    var k :| 0 <= k < |a| && k < |b| && a[..k] == b[..k] && a[k] < b[k];
    assert k > 0;
    assert a'[..k - 1] == a[..k][1..] && b'[..k - 1] == b[..k][1..];
    assert a'[k - 1] < b'[k - 1];
  }

  /** With equal first characters, both orders are decided by the tails. */
  lemma HeadsAgree(a: string, b: string)
    requires a != [] && b != [] && a[0] == b[0]
    ensures FirstDifferenceLower(a, b) <==> FirstDifferenceLower(a[1..], b[1..])
    ensures a <= b <==> a[1..] <= b[1..]
  {
    if FirstDifferenceLower(a, b) {
      DifferenceInTails(a, b);
    }
    if FirstDifferenceLower(a[1..], b[1..]) {
      DifferenceFromTails(a, b);
    }
    assert a == [a[0]] + a[1..] && b == [b[0]] + b[1..];
  }

  /** a comes no later than b: lexicographic order on code points, which puts a
      prefix first and otherwise decides at the first differing character. */
  function EanLe(a: string, b: string): (r: bool)
    ensures r <==> a <= b || FirstDifferenceLower(a, b)
  {
    if a == [] then true
    else if b == [] then false
    else if a[0] != b[0] then HeadsDiffer(a, b); a[0] < b[0]
    else HeadsAgree(a, b); EanLe(a[1..], b[1..])
  }

  lemma {:induction false} EanLeTotal(a: string, b: string)
    ensures EanLe(a, b) || EanLe(b, a)
  {
    if a != [] && b != [] && a[0] == b[0] {
      EanLeTotal(a[1..], b[1..]);
    }
  }

  lemma {:induction false} EanLeAntisymmetric(a: string, b: string)
    requires EanLe(a, b) && EanLe(b, a)
    ensures a == b
  {
    if a != [] {
      EanLeAntisymmetric(a[1..], b[1..]);
      assert a == [a[0]] + a[1..] && b == [b[0]] + b[1..];
    }
  }

  lemma {:induction false} EanLeTransitive(a: string, b: string, c: string)
    requires EanLe(a, b) && EanLe(b, c)
    ensures EanLe(a, c)
  {
    if a != [] && b != [] && c != [] && a[0] == b[0] && b[0] == c[0] {
      EanLeTransitive(a[1..], b[1..], c[1..]);
    }
  }

  /** Ascending by EAN. */
  predicate Sorted(s: seq<Item>) {
    forall i, j :: 0 <= i < j < |s| ==> EanLe(s[i].ean, s[j].ean)
  }

  /** Puts x before the first item it does not come after. */
  function Insert(x: Item, s: seq<Item>): (r: seq<Item>)
    ensures |r| == |s| + 1
  {
    if s == [] || EanLe(x.ean, s[0].ean) then [x] + s
    else [s[0]] + Insert(x, s[1..])
  }

  /** The sorted copy that the export walks: as many items as the list;
      SortByEanSpec shows it is the list's items in ascending order. */
  function SortByEan(s: seq<Item>): (r: seq<Item>)
    ensures |r| == |s|
  {
    if s == [] then [] else Insert(s[0], SortByEan(s[1..]))
  }

  lemma SortedTail(s: seq<Item>)
    requires Sorted(s) && s != []
    ensures Sorted(s[1..])
  {
    var t := s[1..];
    forall p, q | 0 <= p < q < |t| ensures EanLe(t[p].ean, t[q].ean) {
      assert t[p] == s[p + 1] && t[q] == s[q + 1];
    }
  }

  lemma SortedCons(y: Item, t: seq<Item>)
    requires Sorted(t)
    requires forall j :: 0 <= j < |t| ==> EanLe(y.ean, t[j].ean)
    ensures Sorted([y] + t)
  {
    var r := [y] + t;
    forall p, q | 0 <= p < q < |r| ensures EanLe(r[p].ean, r[q].ean) {
      assert r[q] == t[q - 1];
      if p > 0 {
        assert r[p] == t[p - 1];
      }
    }
  }

  lemma {:induction false} InsertSorted(x: Item, s: seq<Item>)
    requires Sorted(s)
    ensures Sorted(Insert(x, s))
    ensures multiset(Insert(x, s)) == multiset(s) + multiset{x}
  {
    if s == [] || EanLe(x.ean, s[0].ean) {
      forall j | 0 <= j < |s| ensures EanLe(x.ean, s[j].ean) {
        if j > 0 { EanLeTransitive(x.ean, s[0].ean, s[j].ean); }
      }
      SortedCons(x, s);
    } else {
      var tail := s[1..];
      SortedTail(s);
      InsertSorted(x, tail);
      var t := Insert(x, tail);
      InsertMembers(x, tail);
      EanLeTotal(x.ean, s[0].ean);
      forall j | 0 <= j < |t| ensures EanLe(s[0].ean, t[j].ean) {
        assert t[j] in t;
        if t[j] != x {
          var k :| 0 <= k < |tail| && tail[k] == t[j];
          assert tail[k] == s[k + 1];
        }
      }
      SortedCons(s[0], t);
      assert s == [s[0]] + tail;
    }
  }

  /** The export order is ascending by EAN and a permutation of the list. */
  lemma {:induction false} SortByEanSpec(s: seq<Item>)
    ensures Sorted(SortByEan(s))
    ensures multiset(SortByEan(s)) == multiset(s)
  {
    if s != [] {
      var t := SortByEan(s[1..]);
      SortByEanSpec(s[1..]);
      InsertSorted(s[0], t);
      assert SortByEan(s) == Insert(s[0], t);
      assert s == [s[0]] + s[1..];
      assert multiset(s) == multiset(s[1..]) + multiset{s[0]};
    }
  }

  /** The items holding the given EAN, in list order. */
  function WithEan(s: seq<Item>, ean: string): (r: seq<Item>)
    ensures |r| <= |s|
  {
    if s == [] then [] else (if s[0].ean == ean then [s[0]] else []) + WithEan(s[1..], ean)
  }

  lemma {:induction false} EanLeReflexive(a: string)
    ensures EanLe(a, a)
  {
    if a != [] {
      EanLeReflexive(a[1..]);
    }
  }

  /** An inserted item goes before every item with the same EAN. */
  lemma {:induction false} InsertWithEan(x: Item, t: seq<Item>, ean: string)
    ensures WithEan(Insert(x, t), ean) == if x.ean == ean then [x] + WithEan(t, ean) else WithEan(t, ean)
  {
    EanLeReflexive(x.ean);
    var r := Insert(x, t);
    if t == [] || EanLe(x.ean, t[0].ean) {
      assert r == [x] + t && r[1..] == t;
    } else {
      assert r[0] == t[0] && r[1..] == Insert(x, t[1..]);
      InsertWithEan(x, t[1..], ean);
    }
  }

  /** The sort is stable: items with equal EANs keep their storage order. */
  lemma {:induction false} SortIsStable(s: seq<Item>, ean: string)
    ensures WithEan(SortByEan(s), ean) == WithEan(s, ean)
  {
    if s != [] {
      SortIsStable(s[1..], ean);
      InsertWithEan(s[0], SortByEan(s[1..]), ean);
    }
  }

  /** Inserting an item whose key is new keeps keys unique. */
  lemma {:induction false} InsertKeepsUnique(x: Item, s: seq<Item>)
    requires UniqueKeys(s) && Absent(s, x.ean)
    ensures UniqueKeys(Insert(x, s))
  {
    if s != [] && !EanLe(x.ean, s[0].ean) {
      var tail := s[1..];
      UniqueTail(s);
      InsertKeepsUnique(x, tail);
      var t := Insert(x, tail);
      InsertMembers(x, tail);
      forall j | 0 <= j < |t| ensures t[j].ean != s[0].ean {
        assert t[j] in t;
        if t[j] != x {
          var k :| 0 <= k < |tail| && tail[k] == t[j];
          assert tail[k] == s[k + 1];
        }
      }
    }
  }

  /** Every item of Insert(x, s) is x or an item of s. */
  lemma {:induction false} InsertMembers(x: Item, s: seq<Item>)
    ensures forall y :: y in Insert(x, s) ==> y == x || y in s
  {
    if s != [] && !EanLe(x.ean, s[0].ean) {
      InsertMembers(x, s[1..]);
    }
  }

  /** Sorting keeps keys unique. */
  lemma {:induction false} SortKeepsUnique(s: seq<Item>)
    requires UniqueKeys(s)
    ensures UniqueKeys(SortByEan(s))
  {
    if s != [] {
      var tail := s[1..];
      UniqueTail(s);
      SortKeepsUnique(tail);
      SortByEanSpec(tail);
      var t := SortByEan(tail);
      forall j | 0 <= j < |t| ensures t[j].ean != s[0].ean {
        assert t[j] in multiset(tail);
        var k :| 0 <= k < |tail| && tail[k] == t[j];
        assert tail[k] == s[k + 1];
      }
      InsertKeepsUnique(s[0], t);
    }
  }

  /** Two sorted non-empty lists with the same items and unique keys start
      with the same item. */
  lemma SortedHeadsAgree(a: seq<Item>, b: seq<Item>)
    requires Sorted(a) && Sorted(b) && UniqueKeys(a)
    requires multiset(a) == multiset(b) && a != []
    ensures b != [] && a[0] == b[0]
  {
    assert a[0] in multiset(b);
    var j :| 0 <= j < |b| && b[j] == a[0];
    assert b[0] in multiset(a);
    var i :| 0 <= i < |a| && a[i] == b[0];
    if i != 0 {
      assert EanLe(a[0].ean, b[0].ean);
      if j != 0 {
        assert EanLe(b[0].ean, a[0].ean);
        EanLeAntisymmetric(a[0].ean, b[0].ean);
      }
      assert false;
    }
  }

  lemma TailMultiset(a: seq<Item>)
    requires a != []
    ensures multiset(a[1..]) == multiset(a) - multiset{a[0]}
  {
    assert a == [a[0]] + a[1..];
  }

  /** Two sorted lists with the same items and unique keys are the same list:
      once keys are unique the sorted order is fully determined. */
  lemma {:induction false} SortedDetermined(a: seq<Item>, b: seq<Item>)
    requires Sorted(a) && Sorted(b) && UniqueKeys(a)
    requires multiset(a) == multiset(b)
    ensures a == b
  {
    if a == [] {
      assert |b| == |multiset(b)| == 0;
    } else {
      SortedHeadsAgree(a, b);
      TailMultiset(a);
      TailMultiset(b);
      var ta, tb := a[1..], b[1..];
      assert Sorted(ta) by {
        forall p, q | 0 <= p < q < |ta| ensures EanLe(ta[p].ean, ta[q].ean) {
          assert ta[p] == a[p + 1] && ta[q] == a[q + 1];
        }
      }
      assert Sorted(tb) by {
        forall p, q | 0 <= p < q < |tb| ensures EanLe(tb[p].ean, tb[q].ean) {
          assert tb[p] == b[p + 1] && tb[q] == b[q + 1];
        }
      }
      UniqueTail(a);
      SortedDetermined(ta, tb);
      assert a == [a[0]] + ta && b == [b[0]] + tb;
    }
  }

  /** With unique keys the export order depends only on which items the list
      holds, not on the order they were added in. */
  lemma SortIgnoresStorageOrder(s: seq<Item>, t: seq<Item>)
    requires UniqueKeys(s) && multiset(s) == multiset(t)
    ensures SortByEan(s) == SortByEan(t)
  {
    SortByEanSpec(s);
    SortByEanSpec(t);
    SortKeepsUnique(s);
    SortedDetermined(SortByEan(s), SortByEan(t));
  }
}
