/**
 * The few JavaScript string operations the core relies on: `trim`, `length`
 * (counted in UTF-16 code units), `startsWith` and `split('T')[0]`.
 */
module JsString {

  /** The WhiteSpace and LineTerminator code points of ECMAScript, which `String.prototype.trim` removes. */
  const Whitespace: set<char> := {
    '\t', '\n', '\U{000B}', '\U{000C}', '\r', ' ', '\U{00A0}', '\U{1680}',
    '\U{2000}', '\U{2001}', '\U{2002}', '\U{2003}', '\U{2004}', '\U{2005}',
    '\U{2006}', '\U{2007}', '\U{2008}', '\U{2009}', '\U{200A}',
    '\U{2028}', '\U{2029}', '\U{202F}', '\U{205F}', '\U{3000}', '\U{FEFF}'
  }

  predicate IsWhitespace(c: char)
  {
    c in Whitespace
  }

  /** Every character of `s` is whitespace (vacuously so for the empty string). */
  predicate AllWhitespace(s: string)
  {
    forall i :: 0 <= i < |s| ==> IsWhitespace(s[i])
  }

  /** The index of the first character of `s` that is not whitespace, or `|s|` when there is none. */
  function TrimStart(s: string): (k: nat)
    ensures k <= |s|
    ensures forall i :: 0 <= i < k ==> IsWhitespace(s[i])
    ensures k < |s| ==> !IsWhitespace(s[k])
    ensures k == |s| <==> AllWhitespace(s)
  {
    TrimStartFrom(s, 0)
  }

  function TrimStartFrom(s: string, lo: nat): (k: nat)
    requires lo <= |s|
    ensures lo <= k <= |s|
    ensures forall i :: lo <= i < k ==> IsWhitespace(s[i])
    ensures k < |s| ==> !IsWhitespace(s[k])
    decreases |s| - lo
  {
    if lo < |s| && IsWhitespace(s[lo]) then TrimStartFrom(s, lo + 1) else lo
  }

  /**
   * One past the last character of `s[lo..hi]` that is not whitespace, or
   * `lo` when there is none.
   */
  function TrimEnd(s: string, lo: nat, hi: nat): (e: nat)
    requires lo <= hi <= |s|
    ensures lo <= e <= hi
    ensures forall i :: e <= i < hi ==> IsWhitespace(s[i])
    ensures e > lo ==> !IsWhitespace(s[e - 1])
    decreases hi
  {
    if hi > lo && IsWhitespace(s[hi - 1]) then TrimEnd(s, lo, hi - 1) else hi
  }

  /**
   * `s.trim()`: the infix of `s` from its first character that is not
   * whitespace; everything outside it is whitespace, and it neither starts
   * nor ends with whitespace.
   */
  function Trim(s: string): (r: string)
    ensures TrimStart(s) + |r| <= |s| && r == s[TrimStart(s)..TrimStart(s) + |r|]
    ensures forall i :: 0 <= i < |s| && !(TrimStart(s) <= i < TrimStart(s) + |r|) ==> IsWhitespace(s[i])
    ensures r == [] || (!IsWhitespace(r[0]) && !IsWhitespace(r[|r| - 1]))
    ensures r == [] <==> AllWhitespace(s)
  {
    var k := TrimStart(s);
    var e := TrimEnd(s, k, |s|);
    s[k..e]
  }

  /** Trimming an already trimmed string changes nothing. */
  lemma TrimIdempotent(s: string)
    ensures Trim(Trim(s)) == Trim(s)
  {
    var r := Trim(s);
    if r != [] {
      assert TrimStart(r) == 0;
      var t := Trim(r);
      assert |t| == |r|;
    }
  }

  /** A string's `length` in JavaScript: characters outside the Basic Multilingual Plane count twice. */
  function Utf16Length(s: string): (n: nat)
    ensures |s| <= n <= 2 * |s|
    ensures n == |s| <==> forall i :: 0 <= i < |s| ==> s[i] as int < 0x1_0000
  {
    if s == [] then 0 else Utf16Units(s[0]) + Utf16Length(s[1..])
  }

  /** The UTF-16 length of one character: one unit inside the Basic Multilingual Plane, a surrogate pair outside it. */
  function Utf16Units(c: char): nat
  {
    if c as int < 0x1_0000 then 1 else 2
  }

  /** The length of a concatenation is the sum of the lengths. */
  lemma {:induction false} Utf16LengthAppend(a: string, b: string)
    ensures Utf16Length(a + b) == Utf16Length(a) + Utf16Length(b)
  {
    if a == [] {
      assert a + b == b;
    } else {
      assert (a + b)[0] == a[0] && (a + b)[1..] == a[1..] + b;
      Utf16LengthAppend(a[1..], b);
    }
  }

  /** A single character counts its own UTF-16 units. */
  lemma Utf16LengthChar(c: char)
    ensures Utf16Length([c]) == Utf16Units(c)
  {
    assert [c][1..] == [];
  }

  /** `s.startsWith(prefix)`. */
  predicate StartsWith(s: string, prefix: string): (b: bool)
    ensures b <==> |prefix| <= |s| && s[..|prefix|] == prefix
  {
    prefix <= s
  }

  /** `iso.split('T')[0]`: the text before the first 'T', or all of `iso` when it has none. */
  function DatePart(iso: string): (r: string)
    ensures StartsWith(iso, r)
    ensures 'T' !in r
    ensures |r| < |iso| ==> iso[|r|] == 'T'
  {
    if iso == [] || iso[0] == 'T' then [] else [iso[0]] + DatePart(iso[1..])
  }
}
