/**
 * The rows of the CSV export (app.js:134-143): a header, then one
 * `ean;qtd;` row per item in ascending EAN order, joined with "\n".
 */
module Csv {
  import opened Options
  import opened Items
  import opened EanOrder

  /** The header row; every row, this one included, ends in ';'. */
  const Header: string := "EAN;QTD;"

  predicate IsDigit(c: char) {
    '0' <= c <= '9'
  }

  predicate AllDigits(s: string) {
    forall i :: 0 <= i < |s| ==> IsDigit(s[i])
  }

  function DigitChar(d: nat): (c: char)
    requires d < 10
    ensures IsDigit(c) && c as int - '0' as int == d
  {
    ('0' as int + d) as char
  }

  /** How a template literal prints a non-negative integer: its decimal digits. */
  function Decimal(n: nat): (r: string)
    ensures |r| >= 1 && AllDigits(r)
    ensures r[0] == '0' ==> n == 0 && r == "0"
  {
    if n < 10 then [DigitChar(n)] else Decimal(n / 10) + [DigitChar(n % 10)]
  }

  /** The number a string of decimal digits denotes. */
  function DigitsValue(s: string): nat
    requires AllDigits(s)
  {
    if s == [] then 0
    else DigitsValue(s[..|s| - 1]) * 10 + (s[|s| - 1] as int - '0' as int)
  }

  /** A printed quantity reads back as the same quantity. */
  lemma {:induction false} DecimalRoundTrip(n: nat)
    ensures DigitsValue(Decimal(n)) == n
  {
    if n >= 10 {
      DecimalRoundTrip(n / 10);
      var r := Decimal(n);
      assert r[..|r| - 1] == Decimal(n / 10);
    }
  }

  /** A data row: the EAN, ';', the quantity in decimal, ';'. */
  function Row(it: Item): (r: string)
    ensures |r| > |it.ean| + 1 && r[..|it.ean|] == it.ean && r[|it.ean|] == ';'
    ensures r[|r| - 1] == ';'
  {
    var r := it.ean + ";" + Decimal(it.qtd) + ";";
    assert r[..|it.ean|] == it.ean;
    r
  }

  /** One row per item, in the given order. */
  function Rows(s: seq<Item>): (r: seq<string>)
    ensures |r| == |s|
  {
    seq(|s|, i requires 0 <= i < |s| => Row(s[i]))
  }

  /** The lines the export handler collects before joining them. */
  function ExportRows(s: seq<Item>): (r: seq<string>)
    ensures |r| == |s| + 1 && r[0] == "EAN;QTD;"
  {
    [Header] + Rows(SortByEan(s))
  }

  /** The rows joined into one text with a line break between neighbours. */
  function Join(rows: seq<string>): (r: string)
    ensures |rows| == 0 ==> r == ""
    ensures |rows| > 0 ==> |r| >= |rows[0]| && r[..|rows[0]|] == rows[0]
    ensures |rows| > 0 ==> |r| >= |rows[|rows| - 1]| && r[|r| - |rows[|rows| - 1]|..] == rows[|rows| - 1]
  {
    if |rows| == 0 then ""
    else if |rows| == 1 then rows[0]
    else
      var rest := Join(rows[1..]);
      var r := rows[0] + "\n" + rest;
      assert r[..|rows[0]|] == rows[0];
      assert r[|r| - |rest|..] == rest;
      r
  }

  /** Splitting a text at each "\n": the inverse of Join. */
  function SplitLines(s: string): (r: seq<string>)
    ensures |r| >= 1
  {
    if s == [] then [""]
    else
      var t := SplitLines(s[1..]);
      if s[0] == '\n' then [""] + t else [[s[0]] + t[0]] + t[1..]
  }

  /** Position of the first c in s, or -1. */
  function IndexOfChar(s: string, c: char): (r: int)
    ensures -1 <= r < |s|
    ensures r == -1 <==> c !in s
    ensures r >= 0 ==> s[r] == c && c !in s[..r]
  {
    if s == [] then -1
    else if s[0] == c then 0
    else
      var i := IndexOfChar(s[1..], c);
      assert i >= 0 ==> s[..i + 1] == [s[0]] + s[1..][..i];
      if i < 0 then -1 else i + 1
  }

  /** The first occurrence is the one with no earlier copy of the character. */
  lemma IndexOfCharAt(s: string, c: char, k: int)
    requires 0 <= k < |s| && s[k] == c && c !in s[..k]
    ensures IndexOfChar(s, c) == k
  {
  }

  /** Reads one data row back: the text before the first ';' is the EAN, the
      rest must be decimal digits closed by ';'. */
  function ParseRow(line: string): Option<Item> {
    var k := IndexOfChar(line, ';');
    if k < 0 then None
    else
      var rest := line[k + 1..];
      if |rest| < 2 || rest[|rest| - 1] != ';' || !AllDigits(rest[..|rest| - 1]) then None
      else Some(Item(line[..k], DigitsValue(rest[..|rest| - 1])))
  }

  /** A row's first ';' closes its EAN, and the digits and a ';' follow it. */
  lemma RowParts(it: Item)
    requires ';' !in it.ean
    ensures IndexOfChar(Row(it), ';') == |it.ean|
    ensures Row(it)[|it.ean| + 1..] == Decimal(it.qtd) + ";"
  {
    var line := Row(it);
    assert line == it.ean + (";" + Decimal(it.qtd) + ";");
    IndexOfCharAt(line, ';', |it.ean|);
  }

  /** A row whose EAN holds no ';' reads back as the item it was made from. */
  lemma RowRoundTrip(it: Item)
    requires ';' !in it.ean
    ensures ParseRow(Row(it)) == Some(it)
  {
    RowParts(it);
    var d := Decimal(it.qtd);
    var rest := Row(it)[|it.ean| + 1..];
    assert rest[..|rest| - 1] == d;
    DecimalRoundTrip(it.qtd);
  }

  /** The export has one row more than the list has items: the header first,
      then the row of each item of the sorted copy, in that order, every row
      ending in ';'. The sorted copy is ascending and a permutation of the
      list (SortByEanSpec). */
  lemma ExportShape(s: seq<Item>)
    ensures var rows := ExportRows(s);
      && |rows| == |s| + 1
      && rows[0] == "EAN;QTD;"
      && (forall i :: 0 <= i < |rows| ==> |rows[i]| > 0 && rows[i][|rows[i]| - 1] == ';')
      && (forall i :: 0 <= i < |s| ==> rows[i + 1] == Row(SortByEan(s)[i]))
  {
    var p := SortByEan(s);
    var body := Rows(p);
    var rows := ExportRows(s);
    assert rows == [Header] + body;
    forall i | 0 <= i < |s| ensures rows[i + 1] == Row(p[i]) {
      assert rows[i + 1] == body[i];
    }
    forall i | 0 <= i < |rows| ensures |rows[i]| > 0 && rows[i][|rows[i]| - 1] == ';' {
      if i > 0 {
        var r := Row(p[i - 1]);
        assert rows[i] == body[i - 1] == r;
        assert |r| > 0 && r[|r| - 1] == ';';
      }
    }
  }

  /** With unique keys the export does not depend on the order the items were
      entered in. */
  lemma ExportIgnoresStorageOrder(s: seq<Item>, t: seq<Item>)
    requires UniqueKeys(s) && multiset(s) == multiset(t)
    ensures ExportRows(s) == ExportRows(t)
  {
    SortIgnoresStorageOrder(s, t);
  }

  lemma {:induction false} SplitSingle(a: string)
    requires '\n' !in a
    ensures SplitLines(a) == [a]
  {
    if a != [] {
      SplitSingle(a[1..]);
      assert a == [a[0]] + a[1..];
    }
  }

  lemma {:induction false} SplitFirstLine(a: string, b: string)
    requires '\n' !in a
    ensures SplitLines(a + "\n" + b) == [a] + SplitLines(b)
  {
    if a == [] {
      assert a + "\n" + b == "\n" + b;
      assert ("\n" + b)[1..] == b;
    } else {
      var s := a + "\n" + b;
      assert s[0] == a[0];
      assert s[1..] == a[1..] + "\n" + b;
      SplitFirstLine(a[1..], b);
      assert a == [a[0]] + a[1..];
    }
  }

  /** Joining lines that hold no "\n" can be undone by splitting. */
  lemma {:induction false} SplitJoin(rows: seq<string>)
    requires |rows| >= 1
    requires forall i :: 0 <= i < |rows| ==> '\n' !in rows[i]
    ensures SplitLines(Join(rows)) == rows
  {
    if |rows| == 1 {
      SplitSingle(rows[0]);
    } else {
      SplitJoin(rows[1..]);
      SplitFirstLine(rows[0], Join(rows[1..]));
      assert rows == [rows[0]] + rows[1..];
    }
  }

  /** A row holds a line break only where its EAN does. */
  lemma RowNoLineBreak(it: Item)
    requires '\n' !in it.ean
    ensures '\n' !in Row(it)
  {
    var d := Decimal(it.qtd);
    assert forall k :: 0 <= k < |d| ==> d[k] != '\n';
    assert Row(it) == it.ean + ";" + d + ";";
  }

  /** When no EAN holds a line break, the exported text splits back into
      exactly the exported rows. */
  lemma ExportTextSplits(s: seq<Item>)
    requires forall i :: 0 <= i < |s| ==> '\n' !in s[i].ean
    ensures SplitLines(Join(ExportRows(s))) == ExportRows(s)
  {
    var p := SortByEan(s);
    assert forall j :: 0 <= j < |p| ==> '\n' !in p[j].ean by {
      SortByEanSpec(s);
      forall j | 0 <= j < |p| ensures '\n' !in p[j].ean {
        assert p[j] in multiset(s);
        var k :| 0 <= k < |s| && s[k] == p[j];
      }
    }
    var body := Rows(p);
    var rows := ExportRows(s);
    assert rows == [Header] + body;
    forall i | 0 <= i < |rows| ensures '\n' !in rows[i] {
      if i > 0 {
        RowNoLineBreak(p[i - 1]);
        assert rows[i] == body[i - 1];
      }
    }
    SplitJoin(rows);
  }

  /** The export of one item {ean: "789", qtd: 3}. */
  lemma ExportOneItem()
    ensures ExportRows([Item("789", 3)]) == ["EAN;QTD;", "789;3;"]
  {
    var s := [Item("789", 3)];
    assert SortByEan(s) == s;
    assert Decimal(3) == "3";
    assert Row(s[0]) == "789;3;";
    assert Rows(s) == ["789;3;"];
  }

  lemma EntriesExampleUpserts(a: Item, b: Item, c: Item)
    requires a == Item("222", 4) && b == Item("111", 5) && c == Item("333", 6)
    ensures Upserted(Upserted(Upserted([], "222", 4), "111", 5), "333", 6) == [a, b, c]
  {
    assert Upserted([], "222", 4) == [a];
    assert Upserted([a], "111", 5) == [a, b];
    assert Upserted([a, b], "333", 6) == [a, b, c];
  }

  lemma EntriesExampleOrder(a: Item, b: Item, c: Item)
    requires a == Item("222", 4) && b == Item("111", 5) && c == Item("333", 6)
    ensures SortByEan([a, b, c]) == [b, a, c]
  {
    assert EanLe("111", "222");
    assert !EanLe("333", "111");
    assert !EanLe("333", "222");
    assert SortByEan([c]) == [c];
    assert Insert(b, [c]) == [b, c];
    assert Insert(a, [b, c]) == [b] + Insert(a, [c]);
  }

  lemma EntriesExampleRows(a: Item, b: Item, c: Item)
    requires a == Item("222", 4) && b == Item("111", 5) && c == Item("333", 6)
    ensures Rows([b, a, c]) == ["111;5;", "222;4;", "333;6;"]
  {
    assert Decimal(4) == "4" && Decimal(5) == "5" && Decimal(6) == "6";
    assert Row(b) == "111;5;" && Row(a) == "222;4;" && Row(c) == "333;6;";
    var rows := Rows([b, a, c]);
    assert rows[0] == Row(b) && rows[1] == Row(a) && rows[2] == Row(c);
  }

  /** Items entered as 222, 111, 333 are exported as 111, 222, 333. */
  lemma ExportSortsEntries()
    ensures ExportRows(Upserted(Upserted(Upserted([], "222", 4), "111", 5), "333", 6))
         == ["EAN;QTD;", "111;5;", "222;4;", "333;6;"]
  {
    var a, b, c := Item("222", 4), Item("111", 5), Item("333", 6);
    EntriesExampleUpserts(a, b, c);
    EntriesExampleOrder(a, b, c);
    EntriesExampleRows(a, b, c);
  }
}
