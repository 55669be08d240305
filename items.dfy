/**
 * The item list of the counting page as a value: the `{ean, qtd}` records and
 * what upsertItem (app.js:49-58) and removeItem (app.js:60-64) make of a list.
 * The page's own mutable list lives in Counting.Store, whose methods are
 * proved to compute these functions.
 */
module Items {

  /** One counted barcode; qtd is always the output of parseQtd. */
  datatype Item = Item(ean: string, qtd: nat)

  /** No two items share an EAN. */
  predicate UniqueKeys(s: seq<Item>) {
    forall i, j :: 0 <= i < j < |s| ==> s[i].ean != s[j].ean
  }

  /** No item has the given EAN. */
  predicate Absent(s: seq<Item>, ean: string) {
    forall i :: 0 <= i < |s| ==> s[i].ean != ean
  }

  /** The first position whose item has the EAN, or -1 when none has (findIndex). */
  function IndexOf(s: seq<Item>, ean: string): (r: int)
    ensures -1 <= r < |s|
    ensures r == -1 <==> Absent(s, ean)
    ensures r >= 0 ==> s[r].ean == ean && forall j :: 0 <= j < r ==> s[j].ean != ean
  {
    if s == [] then -1
    else if s[0].ean == ean then 0
    else
      var i := IndexOf(s[1..], ean);
      if i < 0 then -1 else i + 1
  }

  /** The list after upsertItem(ean, qtd): the first item with the EAN keeps
      its position and EAN and takes the new quantity (it is set, not added
      to), and every other item, later ones with the same EAN included, stays
      as it was; when no item has the EAN, a new item is pushed at the end. */
  function Upserted(s: seq<Item>, ean: string, qtd: nat): (r: seq<Item>)
    ensures Absent(s, ean) ==> |r| == |s| + 1 && r[..|s|] == s && r[|s|] == Item(ean, qtd)
    ensures !Absent(s, ean) ==> |r| == |s|
    ensures forall j :: 0 <= j < |s| && s[j].ean != ean ==> r[j] == s[j]
    ensures var i := IndexOf(s, ean);
      i >= 0 ==> r[i] == s[i].(qtd := qtd)
                 && forall j :: 0 <= j < |s| && j != i ==> r[j] == s[j]
  {
    var i := IndexOf(s, ean);
    if i >= 0 then s[i := s[i].(qtd := qtd)] else s + [Item(ean, qtd)]
  }

  /** The items whose EAN differs from the given one, in their order (removeItem's filter). */
  function Removed(s: seq<Item>, ean: string): (r: seq<Item>)
    ensures |r| <= |s|
    ensures forall x {:trigger x in r} :: x in r <==> x in s && x.ean != ean
  {
    if s == [] then []
    else (if s[0].ean == ean then [] else [s[0]]) + Removed(s[1..], ean)
  }

  /** With unique keys, every item with the key ends up holding exactly the new
      quantity, exactly one item holds the key, and keys stay unique. */
  lemma {:induction false} UpsertSetsOne(s: seq<Item>, ean: string, qtd: nat)
    requires UniqueKeys(s)
    ensures var r := Upserted(s, ean, qtd);
      && UniqueKeys(r)
      && (exists j :: 0 <= j < |r| && r[j] == Item(ean, qtd))
      && (forall j :: 0 <= j < |r| && r[j].ean == ean ==> r[j].qtd == qtd)
      && (forall j :: 0 <= j < |s| && s[j].ean == ean ==> r[j] == Item(ean, qtd))
  {
    var r := Upserted(s, ean, qtd);
    var i := IndexOf(s, ean);
    if i >= 0 {
      assert r[i] == Item(ean, qtd);
      forall j | 0 <= j < |r| && r[j].ean == ean ensures j == i {
        assert s[j].ean == ean;
      }
    } else {
      assert r[|s|] == Item(ean, qtd);
    }
  }

  /** Last write wins: a second upsert of the same key overrides the first one
      as if it had never happened (the quantities are never summed). */
  lemma {:induction false} UpsertLastWriteWins(s: seq<Item>, ean: string, a: nat, b: nat)
    ensures Upserted(Upserted(s, ean, a), ean, b) == Upserted(s, ean, b)
  {
    var i := IndexOf(s, ean);
    var t := Upserted(s, ean, a);
    if i >= 0 {
      assert t[i].ean == ean;
      assert forall j :: 0 <= j < i ==> t[j] == s[j];
      var k := IndexOf(t, ean);
      assert k >= 0;
      assert k == i;
    } else {
      assert t[..|s|] == s;
      assert t[|s|].ean == ean;
      assert IndexOf(t, ean) >= 0;
    }
  }

  /** Removing a key that no item has leaves the list as it is. */
  lemma {:induction false} RemoveAbsent(s: seq<Item>, ean: string)
    requires Absent(s, ean)
    ensures Removed(s, ean) == s
  {
    if s != [] {
      RemoveAbsent(s[1..], ean);
    }
  }

  /** Filtering works piecewise, so the kept items stay in their relative order. */
  lemma {:induction false} RemoveConcat(a: seq<Item>, b: seq<Item>, ean: string)
    ensures Removed(a + b, ean) == Removed(a, ean) + Removed(b, ean)
  {
    if a == [] {
      assert a + b == b;
    } else {
      var head := if a[0].ean == ean then [] else [a[0]];
      assert (a + b)[0] == a[0];
      assert (a + b)[1..] == a[1..] + b;
      RemoveConcat(a[1..], b, ean);
      calc {
        Removed(a + b, ean);
        head + Removed(a[1..] + b, ean);
        head + (Removed(a[1..], ean) + Removed(b, ean));
        (head + Removed(a[1..], ean)) + Removed(b, ean);
        Removed(a, ean) + Removed(b, ean);
      }
    }
  }

  /** The tail of a list with unique keys has unique keys and lacks the head's key. */
  lemma UniqueTail(s: seq<Item>)
    requires UniqueKeys(s) && s != []
    ensures UniqueKeys(s[1..]) && Absent(s[1..], s[0].ean)
  {
  }

  /** A list is the items before position i, the item at i and the items after it. */
  lemma SplitAround(s: seq<Item>, i: int)
    requires 0 <= i < |s|
    ensures s == (s[..i] + [s[i]]) + s[i + 1..]
  {
  }

  /** Removing an item's own key from the one-item list empties it. */
  lemma RemoveOwnKey(y: Item)
    ensures Removed([y], y.ean) == []
  {
    assert [y][1..] == [];
  }

  /** Removing a key held only by the item at position i drops that item. */
  lemma RemoveBetween(s: seq<Item>, i: int)
    requires 0 <= i < |s|
    requires Absent(s[..i], s[i].ean) && Absent(s[i + 1..], s[i].ean)
    ensures Removed(s, s[i].ean) == s[..i] + s[i + 1..]
  {
    var y, before, after := s[i], s[..i], s[i + 1..];
    var front := before + [y];
    SplitAround(s, i);
    RemoveConcat(before, [y], y.ean);
    RemoveAbsent(before, y.ean);
    RemoveOwnKey(y);
    assert Removed(front, y.ean) == before by {
      assert before + [] == before;
    }
    RemoveConcat(front, after, y.ean);
    RemoveAbsent(after, y.ean);
  }

  /** With unique keys, removing a present key cuts out exactly its one item. */
  lemma RemoveCutsOne(s: seq<Item>, ean: string)
    requires UniqueKeys(s)
    requires !Absent(s, ean)
    ensures var i := IndexOf(s, ean);
      Removed(s, ean) == s[..i] + s[i + 1..]
  {
    var i := IndexOf(s, ean);
    var before := s[..i];
    assert Absent(before, ean) by {
      forall j | 0 <= j < |before| ensures before[j].ean != ean {
        assert before[j] == s[j];
      }
    }
    var after := s[i + 1..];
    assert Absent(after, ean) by {
      forall j | 0 <= j < |after| ensures after[j].ean != ean {
        assert after[j] == s[i + 1 + j];
      }
    }
    RemoveBetween(s, i);
  }

  /** Removing keeps keys unique and is idempotent. */
  lemma RemoveKeepsUnique(s: seq<Item>, ean: string)
    requires UniqueKeys(s)
    ensures UniqueKeys(Removed(s, ean))
    ensures Removed(Removed(s, ean), ean) == Removed(s, ean)
  {
    if Absent(s, ean) {
      RemoveAbsent(s, ean);
    } else {
      RemoveCutsOne(s, ean);
      var i := IndexOf(s, ean);
      var r := Removed(s, ean);
      assert r == s[..i] + s[i + 1..];
      forall a, b | 0 <= a < b < |r| ensures r[a].ean != r[b].ean {
        var a', b' := if a < i then a else a + 1, if b < i then b else b + 1;
        assert r[a] == s[a'] && r[b] == s[b'];
      }
      assert Absent(r, ean) by {
        forall j | 0 <= j < |r| ensures r[j].ean != ean {
          assert r[j] in r;
        }
      }
      RemoveAbsent(r, ean);
    }
  }

  /** Counting 5 and then 2 of the same barcode leaves one item holding 2. */
  lemma RecountExample()
    ensures Upserted(Upserted([], "7891000100103", 5), "7891000100103", 2)
         == [Item("7891000100103", 2)]
  {
  }
}
