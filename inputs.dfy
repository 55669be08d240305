/**
 * The two input normalisers of the counting page (app.js:40-47): the barcode
 * text typed or scanned into the EAN field, and the quantity field once the
 * browser has turned it into a number.
 */
module Inputs {
  import opened Options

  /** The code points of ECMAScript's WhiteSpace and LineTerminator productions:
      the set that both String.prototype.trim and the regular-expression class \s use. */
  predicate IsWhitespace(c: char) {
    var n := c as int;
    n == 0x09 || n == 0x0A || n == 0x0B || n == 0x0C || n == 0x0D || n == 0x20
    || n == 0xA0 || n == 0x1680 || (0x2000 <= n <= 0x200A)
    || n == 0x2028 || n == 0x2029 || n == 0x202F || n == 0x205F || n == 0x3000 || n == 0xFEFF
  }

  predicate NoWhitespace(s: string) {
    forall i :: 0 <= i < |s| ==> !IsWhitespace(s[i])
  }

  predicate AllWhitespace(s: string) {
    forall i :: 0 <= i < |s| ==> IsWhitespace(s[i])
  }

  /** Drops leading whitespace (the first half of String.prototype.trim). */
  function TrimStart(s: string): (r: string)
    ensures r == [] || !IsWhitespace(r[0])
    ensures |r| <= |s| && r == s[|s| - |r|..]
    ensures AllWhitespace(s[..|s| - |r|])
  {
    if s != [] && IsWhitespace(s[0]) then
      var r := TrimStart(s[1..]);
      assert s[..|s| - |r|] == [s[0]] + s[1..][..|s| - 1 - |r|];
      r
    else s
  }

  /** Drops trailing whitespace (the second half of String.prototype.trim). */
  function TrimEnd(s: string): (r: string)
    ensures r == [] || !IsWhitespace(r[|r| - 1])
    ensures |r| <= |s| && r == s[..|r|]
    ensures AllWhitespace(s[|r|..])
  {
    if s != [] && IsWhitespace(s[|s| - 1]) then
      var r := TrimEnd(s[..|s| - 1]);
      assert s[|r|..] == s[..|s| - 1][|r|..] + [s[|s| - 1]];
      r
    else s
  }

  /** String.prototype.trim: the stretch of s left once the whitespace at both
      ends is cut off; it neither starts nor ends with whitespace, and only
      whitespace lies outside it. */
  function Trim(s: string): (r: string)
    ensures |r| <= |s|
    ensures r != [] ==> !IsWhitespace(r[0]) && !IsWhitespace(r[|r| - 1])
    ensures exists a, b :: 0 <= a <= b <= |s| && r == s[a..b] && AllWhitespace(s[..a]) && AllWhitespace(s[b..])
  {
    var t := TrimStart(s);
    var r := TrimEnd(t);
    CutBothEnds(s, t, r);
    assert r != [] ==> r[0] == t[0];
    r
  }

  /** Cutting a whitespace prefix off s and then a whitespace suffix off the
      rest leaves the stretch of s between the two. */
  lemma CutBothEnds(s: string, t: string, r: string)
    requires |t| <= |s| && t == s[|s| - |t|..] && AllWhitespace(s[..|s| - |t|])
    requires |r| <= |t| && r == t[..|r|] && AllWhitespace(t[|r|..])
    ensures var a := |s| - |t|;
      && r == s[a..a + |r|] && AllWhitespace(s[..a]) && AllWhitespace(s[a + |r|..])
  {
    var a := |s| - |t|;
    var mid, tail := s[a..a + |r|], s[a + |r|..];
    forall i | 0 <= i < |r| ensures mid[i] == r[i] {
      assert mid[i] == s[a + i] == t[i];
    }
    forall i | 0 <= i < |tail| ensures IsWhitespace(tail[i]) {
      assert tail[i] == s[a + |r| + i] == t[|r| + i] == t[|r|..][i];
    }
  }

  /** Deletes every whitespace character, as replacing each run of
      whitespace with the empty string does. */
  function StripWhitespace(s: string): (r: string)
    ensures NoWhitespace(r)
    ensures |r| <= |s|
  {
    if s == [] then []
    else (if IsWhitespace(s[0]) then [] else [s[0]]) + StripWhitespace(s[1..])
  }

  /** normalizeEAN: trims the text, then deletes the whitespace left inside
      it. The field value is always a string, so the fallback to the empty
      string for a missing value changes nothing. */
  function NormalizeEan(v: string): (r: string)
    ensures NoWhitespace(r)
    ensures |r| <= |v|
  {
    StripWhitespace(Trim(v))
  }

  lemma {:induction false} StripConcat(a: string, b: string)
    ensures StripWhitespace(a + b) == StripWhitespace(a) + StripWhitespace(b)
  {
    if a == [] {
      assert a + b == b;
    } else {
      var h := if IsWhitespace(a[0]) then [] else [a[0]];
      assert (a + b)[0] == a[0];
      assert (a + b)[1..] == a[1..] + b;
      StripConcat(a[1..], b);
      assert StripWhitespace(a + b) == h + StripWhitespace(a[1..] + b);
      assert StripWhitespace(a) == h + StripWhitespace(a[1..]);
    }
  }

  /** A string without whitespace is left as it is. */
  lemma {:induction false} StripKeepsClean(s: string)
    requires NoWhitespace(s)
    ensures StripWhitespace(s) == s
  {
    if s != [] {
      StripKeepsClean(s[1..]);
    }
  }

  /** Stripping keeps exactly the non-whitespace characters, so the result is
      empty precisely when the input held nothing but whitespace. */
  lemma {:induction false} StripEmptyIff(s: string)
    ensures StripWhitespace(s) == [] <==> AllWhitespace(s)
  {
    if s != [] {
      StripEmptyIff(s[1..]);
      if AllWhitespace(s[1..]) && IsWhitespace(s[0]) {
        forall i | 0 <= i < |s| ensures IsWhitespace(s[i]) {
          if i > 0 { assert s[i] == s[1..][i - 1]; }
        }
      }
      if AllWhitespace(s) {
        assert forall i :: 0 <= i < |s[1..]| ==> s[1..][i] == s[i + 1];
      }
    }
  }

  lemma {:induction false} StripTrimStart(s: string)
    ensures StripWhitespace(TrimStart(s)) == StripWhitespace(s)
  {
    if s != [] && IsWhitespace(s[0]) {
      StripTrimStart(s[1..]);
    }
  }

  lemma {:induction false} StripTrimEnd(s: string)
    ensures StripWhitespace(TrimEnd(s)) == StripWhitespace(s)
  {
    if s != [] && IsWhitespace(s[|s| - 1]) {
      var init := s[..|s| - 1];
      StripTrimEnd(init);
      assert s == init + [s[|s| - 1]];
      StripConcat(init, [s[|s| - 1]]);
    }
  }

  /** The trim before the replace is redundant: normalizing removes every
      whitespace character and keeps every other one, in order. */
  lemma NormalizeIsStrip(v: string)
    ensures NormalizeEan(v) == StripWhitespace(v)
  {
    StripTrimEnd(TrimStart(v));
    StripTrimStart(v);
  }

  /** normalizeEAN is idempotent. */
  lemma NormalizeIdempotent(v: string)
    ensures NormalizeEan(NormalizeEan(v)) == NormalizeEan(v)
  {
    NormalizeIsStrip(NormalizeEan(v));
    StripKeepsClean(NormalizeEan(v));
  }

  /** The add handler's "missing EAN" branch is taken exactly for an input
      made of whitespace only (the empty input included). */
  lemma NormalizeEmptyIff(v: string)
    ensures NormalizeEan(v) == [] <==> AllWhitespace(v)
  {
    NormalizeIsStrip(v);
    StripEmptyIff(v);
  }

  /** A JavaScript number as Number(v) produces it. */
  datatype JsNumber = Finite(value: real) | NaN | PositiveInfinity | NegativeInfinity

  /** parseQtd: null for a negative or non-finite number, otherwise Math.floor of it. */
  function ParseQtd(n: JsNumber): (r: Option<nat>)
    ensures r.Some? <==> n.Finite? && n.value >= 0.0
    ensures r.Some? ==> r.value as real <= n.value < r.value as real + 1.0
  {
    if !n.Finite? || n.value < 0.0 then None else Some(n.value.Floor)
  }

  /** A quantity that parseQtd produced is accepted again unchanged. */
  lemma ParseQtdFixesCounts(n: JsNumber)
    requires ParseQtd(n).Some?
    ensures ParseQtd(Finite(ParseQtd(n).value as real)) == ParseQtd(n)
  {
  }
}
