/**
 * The page's item list and the handlers that change it: upsertItem
 * (app.js:49-58), removeItem (app.js:60-64), the add handler's validation
 * gate (app.js:109-116), the clear handler (app.js:125-130) and the export
 * handler's row building (app.js:133-143). Rendering is a no-op here and
 * saveItems records the list it would write.
 */
module Counting {
  import opened Options
  import opened Inputs
  import opened Items
  import opened Csv

  /** The two refusals of the add handler, one per alert. */
  datatype AddError = MissingEan | InvalidQtd

  /** What the handlers keep true of a list built from scratch: every key is
      a non-empty normalized EAN and no key occurs twice. */
  predicate WellFormed(s: seq<Item>) {
    && UniqueKeys(s)
    && forall i :: 0 <= i < |s| ==> s[i].ean != [] && NoWhitespace(s[i].ean)
  }

  /** The add handler's gate: normalize both fields, refuse an empty EAN
      first, then a quantity that parseQtd rejects. */
  function Validate(eanText: string, qtdValue: JsNumber): (r: Result<Item, AddError>)
    ensures r == Err(MissingEan) <==> AllWhitespace(eanText)
    ensures r == Err(InvalidQtd) <==>
      !AllWhitespace(eanText) && !(qtdValue.Finite? && qtdValue.value >= 0.0)
    ensures r.Ok? ==> && r.value.ean == StripWhitespace(eanText)
                      && r.value.ean != [] && NoWhitespace(r.value.ean)
                      && r.value.qtd as real <= qtdValue.value < r.value.qtd as real + 1.0
  {
    NormalizeEmptyIff(eanText);
    NormalizeIsStrip(eanText);
    var ean := NormalizeEan(eanText);
    var qtd := ParseQtd(qtdValue);
    if ean == [] then Err(MissingEan)
    else if qtd.None? then Err(InvalidQtd)
    else Ok(Item(ean, qtd.value))
  }

  /** An accepted add keeps a well-formed list well-formed. */
  lemma AddKeepsWellFormed(s: seq<Item>, eanText: string, qtdValue: JsNumber)
    requires WellFormed(s)
    requires Validate(eanText, qtdValue).Ok?
    ensures var it := Validate(eanText, qtdValue).value;
      WellFormed(Upserted(s, it.ean, it.qtd))
  {
    var it := Validate(eanText, qtdValue).value;
    assert it.ean != [] && NoWhitespace(it.ean);
    UpsertSetsOne(s, it.ean, it.qtd);
    var r := Upserted(s, it.ean, it.qtd);
    forall j | 0 <= j < |r| ensures r[j].ean != [] && NoWhitespace(r[j].ean) {
      if j < |s| {
        assert r[j].ean == s[j].ean;
      } else {
        assert r[j] == it;
      }
    }
  }

  /** Removing keeps a well-formed list well-formed. */
  lemma RemoveKeepsWellFormed(s: seq<Item>, ean: string)
    requires WellFormed(s)
    ensures WellFormed(Removed(s, ean))
  {
    RemoveKeepsUnique(s, ean);
    var r := Removed(s, ean);
    forall j | 0 <= j < |r| ensures r[j].ean != [] && NoWhitespace(r[j].ean) {
      assert r[j] in r;
      var k :| 0 <= k < |s| && s[k] == r[j];
    }
  }

  /** The CSV text of a list built by the handlers splits back into exactly
      its rows: a normalized EAN holds no line break. */
  lemma WellFormedExportSplits(s: seq<Item>)
    requires WellFormed(s)
    ensures SplitLines(Join(ExportRows(s))) == ExportRows(s)
  {
    ExportTextSplits(s);
  }

  class Store {
    /** The module-level `items` array, in storage order. */
    var items: seq<Item>
    /** What local storage holds under the store's key, as the list it
        decodes to; None while nothing readable is stored. */
    var stored: Option<seq<Item>>

    /** Start-up: `items = loadItems()`, which falls back to an empty list
        when storage holds nothing readable. */
    constructor (persisted: Option<seq<Item>>)
      ensures persisted.None? ==> items == []
      ensures persisted.Some? ==> items == persisted.value
      ensures stored == persisted
    {
      items := if persisted.Some? then persisted.value else [];
      stored := persisted;
    }

    /** saveItems: writes the whole list. */
    method Save()
      modifies this`stored
      ensures stored == Some(items)
    {
      stored := Some(items);
    }

    /** findIndex: scans from the front for the first item with the EAN. */
    method FindIndex(ean: string) returns (idx: int)
      ensures idx == -1 <==> Absent(items, ean)
      ensures idx >= 0 ==> idx < |items| && items[idx].ean == ean
      ensures idx == IndexOf(items, ean)
    {
      var i := 0;
      while i < |items|
        invariant 0 <= i <= |items|
        invariant forall j :: 0 <= j < i ==> items[j].ean != ean
      {
        if items[i].ean == ean {
          return i;
        }
        i := i + 1;
      }
      return -1;
    }

    /** upsertItem: sets the quantity of the item with the key in place, or
        appends a new item; then saves. */
    method Upsert(ean: string, qtd: nat)
      modifies this
      ensures items == Upserted(old(items), ean, qtd)
      ensures stored == Some(items)
      ensures UniqueKeys(old(items)) ==> UniqueKeys(items)
    {
      var idx := FindIndex(ean);
      if idx >= 0 {
        items := items[idx := items[idx].(qtd := qtd)];
      } else {
        items := items + [Item(ean, qtd)];
      }
      if UniqueKeys(old(items)) {
        UpsertSetsOne(old(items), ean, qtd);
      }
      Save();
    }

    /** removeItem: keeps every item whose key differs; then saves. */
    method Remove(ean: string)
      modifies this
      ensures items == Removed(old(items), ean)
      ensures stored == Some(items)
      ensures Absent(items, ean)
    {
      items := Removed(items, ean);
      forall j | 0 <= j < |items| ensures items[j].ean != ean {
        assert items[j] in items;
      }
      Save();
    }

    /** The clear handler: unless the user declines the confirmation, empties
        the list and saves. */
    method Clear(confirmed: bool)
      modifies this
      ensures confirmed ==> items == [] && stored == Some([])
      ensures !confirmed ==> items == old(items) && stored == old(stored)
    {
      if !confirmed {
        return;
      }
      items := [];
      Save();
    }

    /** The add handler: normalizes the EAN field, parses the quantity, and
        calls upsertItem only when both pass; otherwise nothing changes. */
    method Add(eanText: string, qtdValue: JsNumber) returns (r: Result<Item, AddError>)
      modifies this
      ensures r == Validate(eanText, qtdValue)
      ensures r.Err? ==> items == old(items) && stored == old(stored)
      ensures r.Ok? ==> items == Upserted(old(items), r.value.ean, r.value.qtd)
      ensures r.Ok? ==> stored == Some(items)
      ensures WellFormed(old(items)) ==> WellFormed(items)
    {
      r := Validate(eanText, qtdValue);
      if r.Err? {
        return;
      }
      if WellFormed(items) {
        AddKeepsWellFormed(items, eanText, qtdValue);
      }
      Upsert(r.value.ean, r.value.qtd);
    }

    /** The export handler up to the join: the header, then one row per item
        of a sorted copy; `items` itself is only read. */
    method Export() returns (rows: seq<string>, csv: string)
      ensures rows == ExportRows(items)
      ensures |rows| == |items| + 1 && rows[0] == Header
      ensures csv == Join(rows)
    {
      rows := [Header];
      var sorted := EanOrder.SortByEan(items);
      var i := 0;
      while i < |sorted|
        invariant 0 <= i <= |sorted|
        invariant |rows| == i + 1 && rows[0] == Header
        invariant forall k :: 0 <= k < i ==> rows[k + 1] == Row(sorted[k])
      {
        rows := rows + [Row(sorted[i])];
        i := i + 1;
      }
      assert rows == ExportRows(items) by {
        var expected := ExportRows(items);
        forall k | 1 <= k < |rows| ensures rows[k] == expected[k] {
          assert expected[k] == Rows(sorted)[k - 1];
        }
      }
      csv := Join(rows);
    }
  }
}
