/**
 * The JavaScript string operations the chat page relies on: `<` (what the
 * default `sort()` compares with), `toLowerCase`, `includes` and `trim`.
 */
module JsStrings {

  /** `a < b` on strings: lexicographic by character; a proper prefix is smaller. */
  predicate Less(a: string, b: string) {
    if a == [] then b != []
    else if b == [] then false
    else if a[0] != b[0] then a[0] < b[0]
    else Less(a[1..], b[1..])
  }

  lemma {:induction false} LessIrreflexive(a: string)
    ensures !Less(a, a)
  {
    if a != [] {
      LessIrreflexive(a[1..]);
    }
  }

  lemma {:induction false} LessAsymmetric(a: string, b: string)
    ensures Less(a, b) ==> !Less(b, a)
  {
    if a != [] && b != [] && a[0] == b[0] {
      LessAsymmetric(a[1..], b[1..]);
    }
  }

  /** Two different strings are ordered one way or the other. */
  lemma {:induction false} LessTotal(a: string, b: string)
    requires a != b
    ensures Less(a, b) || Less(b, a)
  {
    if a != [] && b != [] && a[0] == b[0] {
      assert a == [a[0]] + a[1..] && b == [b[0]] + b[1..];
      LessTotal(a[1..], b[1..]);
    }
  }

  /** `toLowerCase` of one character; only the ASCII capitals A-Z are mapped. */
  function LowerChar(c: char): char {
    if 'A' <= c <= 'Z' then (c as int - 'A' as int + 'a' as int) as char else c
  }

  /** `s.toLowerCase()`, character by character. */
  function ToLower(s: string): (r: string)
    ensures |r| == |s|
    ensures forall i :: 0 <= i < |s| ==> r[i] == LowerChar(s[i])
  {
    if s == [] then [] else [LowerChar(s[0])] + ToLower(s[1..])
  }

  /** Lower-casing twice is lower-casing once, and no capital A-Z is left. */
  lemma ToLowerIdempotent(s: string)
    ensures ToLower(ToLower(s)) == ToLower(s)
    ensures forall i :: 0 <= i < |s| ==> !('A' <= ToLower(s)[i] <= 'Z')
  {
    var t := ToLower(s);
    forall i | 0 <= i < |t| ensures ToLower(t)[i] == t[i] && !('A' <= t[i] <= 'Z') {
      assert t[i] == LowerChar(s[i]);
    }
  }

  /** needle occurs in hay starting at position i. */
  predicate OccursAt(hay: string, needle: string, i: nat) {
    i + |needle| <= |hay| && hay[i..i + |needle|] == needle
  }

  /** `hay.includes(needle)`: needle occurs in hay at some position. */
  predicate Includes(hay: string, needle: string) {
    exists i: nat :: i <= |hay| && OccursAt(hay, needle, i)
  }

  /** Every string includes the empty string and itself. */
  lemma IncludesEmptyAndSelf(hay: string)
    ensures Includes(hay, "") && Includes(hay, hay)
  {
    assert OccursAt(hay, "", 0);
    assert OccursAt(hay, hay, 0);
  }

  /** An occurrence of needle in hay is still one after lower-casing both. */
  lemma IncludesToLower(hay: string, needle: string)
    ensures Includes(hay, needle) ==> Includes(ToLower(hay), ToLower(needle))
  {
    if Includes(hay, needle) {
      var i: nat :| i <= |hay| && OccursAt(hay, needle, i);
      var h, n := ToLower(hay), ToLower(needle);
      forall j | 0 <= j < |n|
        ensures h[i..i + |n|][j] == n[j]
      {
        assert hay[i..i + |needle|][j] == needle[j];
      }
      assert OccursAt(h, n, i);
    }
  }

  /** A WhiteSpace or LineTerminator character of ECMAScript, the characters `trim` removes. */
  predicate IsWhitespace(c: char) {
    || c == '\t' || c == '\n' || c == '\U{000B}' || c == '\U{000C}' || c == '\r'
    || c == ' ' || c == '\U{00A0}' || c == '\U{1680}'
    || ('\U{2000}' <= c <= '\U{200A}')
    || c == '\U{2028}' || c == '\U{2029}' || c == '\U{202F}' || c == '\U{205F}'
    || c == '\U{3000}' || c == '\U{FEFF}'
  }

  /** s without its leading whitespace. */
  function TrimStart(s: string): (r: string)
    ensures |r| <= |s| && r == s[|s| - |r|..]
    ensures forall i :: 0 <= i < |s| - |r| ==> IsWhitespace(s[i])
    ensures r == [] || !IsWhitespace(r[0])
  {
    if s != [] && IsWhitespace(s[0]) then TrimStart(s[1..]) else s
  }

  /** s without its trailing whitespace. */
  function TrimEnd(s: string): (r: string)
    ensures |r| <= |s| && r == s[..|r|]
    ensures forall i :: |r| <= i < |s| ==> IsWhitespace(s[i])
    ensures r == [] || !IsWhitespace(r[|r| - 1])
  {
    if s != [] && IsWhitespace(s[|s| - 1]) then TrimEnd(s[..|s| - 1]) else s
  }

  /** r is s with whitespace before position k and after r removed. */
  predicate TrimmedAt(s: string, r: string, k: nat) {
    && k + |r| <= |s|
    && r == s[k..k + |r|]
    && (forall i :: 0 <= i < k ==> IsWhitespace(s[i]))
    && (forall i :: k + |r| <= i < |s| ==> IsWhitespace(s[i]))
  }

  /**
   * `s.trim()`: the part of s between its leading and trailing whitespace,
   * which neither starts nor ends with whitespace; it is empty exactly when
   * every character of s is whitespace.
   */
  function Trim(s: string): (r: string)
    ensures exists k: nat :: k <= |s| && TrimmedAt(s, r, k)
    ensures r == [] || (!IsWhitespace(r[0]) && !IsWhitespace(r[|r| - 1]))
    ensures r == [] <==> forall i :: 0 <= i < |s| ==> IsWhitespace(s[i])
  {
    var t := TrimStart(s);
    var r := TrimEnd(t);
    assert TrimmedAt(s, r, |s| - |t|);
    assert r == [] ==> t == [];
    r
  }
}
