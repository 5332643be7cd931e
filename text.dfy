/**
 * The two string primitives the screens rely on: `String.prototype.trim` and the
 * `length` of a JavaScript string, which counts UTF-16 code units.
 */
module Text {

  /** The code points `trim` strips: WhiteSpace (section 12.2 of ECMA-262) and
      LineTerminator (section 12.3). */
  predicate IsWhitespace(c: char) {
    c == '\t' || c == '\n' || c == '\U{B}' || c == '\U{C}' || c == '\r' || c == ' '
    || c == '\U{A0}' || c == '\U{1680}' || ('\U{2000}' <= c <= '\U{200A}')
    || c == '\U{2028}' || c == '\U{2029}' || c == '\U{202F}' || c == '\U{205F}'
    || c == '\U{3000}' || c == '\U{FEFF}'
  }

  /** Every character is whitespace: exactly the strings whose trimmed form is "" (falsy). */
  predicate IsBlank(s: string) {
    forall i :: 0 <= i < |s| ==> IsWhitespace(s[i])
  }

  /** Drops the longest whitespace prefix. */
  function TrimStart(s: string): (r: string)
    ensures |r| <= |s| && r == s[|s| - |r|..]
    ensures IsBlank(s[..|s| - |r|])
    ensures r == [] || !IsWhitespace(r[0])
  {
    if s != [] && IsWhitespace(s[0]) then TrimStart(s[1..]) else s
  }

  /** Drops the longest whitespace suffix. */
  function TrimEnd(s: string): (r: string)
    ensures |r| <= |s| && r == s[..|r|]
    ensures IsBlank(s[|r|..])
    ensures r == [] || !IsWhitespace(r[|r| - 1])
  {
    if s != [] && IsWhitespace(s[|s| - 1]) then
      var r := TrimEnd(s[..|s| - 1]);
      BlankSuffixGrows(s, |r|);
      r
    else
      s
  }

  /** A blank suffix of all but the last character stays blank when a whitespace last character is added. */
  lemma BlankSuffixGrows(s: string, k: nat)
    requires s != [] && IsWhitespace(s[|s| - 1])
    requires k <= |s| - 1 && IsBlank(s[..|s| - 1][k..])
    ensures IsBlank(s[k..])
  {
    forall i | 0 <= i < |s| - k
      ensures IsWhitespace(s[k..][i])
    {
      if i < |s| - 1 - k {
        assert s[k..][i] == s[..|s| - 1][k..][i];
      }
    }
  }

  /** How many characters `TrimStart` removes. */
  function LeadingBlanks(s: string): nat {
    |s| - |TrimStart(s)|
  }

  /** `s.trim()`: the infix of `s` left after removing the maximal whitespace prefix and suffix. */
  function Trim(s: string): (r: string)
    ensures LeadingBlanks(s) + |r| <= |s|
    ensures r == s[LeadingBlanks(s)..LeadingBlanks(s) + |r|]
    ensures IsBlank(s[..LeadingBlanks(s)]) && IsBlank(s[LeadingBlanks(s) + |r|..])
    ensures r == [] || (!IsWhitespace(r[0]) && !IsWhitespace(r[|r| - 1]))
    ensures r == [] <==> IsBlank(s)
  {
    var t := TrimStart(s);
    var k := LeadingBlanks(s);
    assert t == s[k..] && IsBlank(s[..k]);
    assert t != [] ==> t[0] == s[k];
    var r := TrimEnd(t);
    assert r == t[..|r|] && IsBlank(t[|r|..]);
    assert t[..|r|] == s[k..k + |r|];
    assert t[|r|..] == s[k + |r|..];
    TrimFacts(s, k, r);
    r
  }

  /** Stripping a blank prefix of length `k` and then a blank suffix leaves the infix
      `s[k..k + |r|]`, which is empty only when all of `s` is blank. */
  lemma TrimFacts(s: string, k: nat, r: string)
    requires k <= |s| && IsBlank(s[..k]) && (k == |s| || !IsWhitespace(s[k]))
    requires |r| <= |s| - k && r == s[k..k + |r|] && IsBlank(s[k + |r|..])
    requires r == [] || !IsWhitespace(r[|r| - 1])
    ensures r == [] || (!IsWhitespace(r[0]) && !IsWhitespace(r[|r| - 1]))
    ensures r == [] <==> IsBlank(s)
  {
    if r == [] {
      assert s[..k] == s;
    } else {
      assert s[k] == r[0];
    }
  }

  lemma {:induction false} TrimIdempotent(s: string)
    ensures Trim(Trim(s)) == Trim(s)
  {
    var r := Trim(s);
    assert TrimStart(r) == r;
    assert TrimEnd(r) == r;
  }

  /** The UTF-16 code units one character occupies: two for a supplementary code point. */
  function CodeUnits(c: char): nat {
    if c as int >= 0x1_0000 then 2 else 1
  }

  /** JavaScript's `s.length`. */
  function Utf16Length(s: string): (n: nat)
    ensures |s| <= n <= 2 * |s|
  {
    if s == [] then 0 else CodeUnits(s[0]) + Utf16Length(s[1..])
  }

  lemma {:induction false} Utf16LengthConcat(a: string, b: string)
    ensures Utf16Length(a + b) == Utf16Length(a) + Utf16Length(b)
  {
    if a != [] {
      assert (a + b)[1..] == a[1..] + b;
      Utf16LengthConcat(a[1..], b);
    } else {
      assert a + b == b;
    }
  }

  /** On text without supplementary characters `length` is the number of characters. */
  lemma {:induction false} Utf16LengthBasic(s: string)
    requires forall i :: 0 <= i < |s| ==> (s[i] as int) < 0x1_0000
    ensures Utf16Length(s) == |s|
  {
    if s != [] {
      Utf16LengthBasic(s[1..]);
    }
  }

  /** A supplementary character is two code units: a surrogate pair. */
  lemma Utf16LengthSupplementary(c: char)
    requires c as int >= 0x1_0000
    ensures Utf16Length([c]) == 2
  {
  }

  /** Trimming never makes a string longer in code units. */
  lemma TrimShortens(s: string)
    ensures Utf16Length(Trim(s)) <= Utf16Length(s)
  {
    var r := Trim(s);
    var k := LeadingBlanks(s);
    InfixShorter(s, k, k + |r|);
  }

  /** An infix is no longer in code units than the whole string. */
  lemma InfixShorter(s: string, i: nat, j: nat)
    requires i <= j <= |s|
    ensures Utf16Length(s[i..j]) <= Utf16Length(s)
  {
    var a, m, b := s[..i], s[i..j], s[j..];
    assert s == (a + m) + b;
    Utf16LengthConcat(a + m, b);
    Utf16LengthConcat(a, m);
  }
}
