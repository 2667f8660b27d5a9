/**
 * The three string operations the chat code uses: `String.prototype.trim`,
 * `String.prototype.toLowerCase` (on ASCII letters) and
 * `String.prototype.includes`.
 */
module Text {

  /**
   * The characters ECMAScript `trim` removes: WhiteSpace (tab, vertical tab,
   * form feed, space, no-break space, zero-width no-break space and the
   * Unicode space separators) and LineTerminator (LF, CR, U+2028, U+2029).
   */
  predicate IsWhitespace(c: char) {
    || c == '\t' || c == '\n' || c == '\U{000B}' || c == '\U{000C}' || c == '\r'
    || c == ' ' || c == '\U{00A0}' || c == '\U{1680}'
    || ('\U{2000}' <= c <= '\U{200A}')
    || c == '\U{2028}' || c == '\U{2029}' || c == '\U{202F}' || c == '\U{205F}'
    || c == '\U{3000}' || c == '\U{FEFF}'
  }

  /** Drops leading whitespace: the result is the suffix of `s` that starts at its first non-whitespace character. */
  function TrimStart(s: string): (r: string)
    ensures |r| <= |s| && r == s[|s| - |r|..]
    ensures forall i :: 0 <= i < |s| - |r| ==> IsWhitespace(s[i])
    ensures |r| > 0 ==> !IsWhitespace(r[0])
    decreases |s|
  {
    if |s| > 0 && IsWhitespace(s[0]) then TrimStart(s[1..]) else s
  }

  /** Drops trailing whitespace: the result is the prefix of `s` that ends at its last non-whitespace character. */
  function TrimEnd(s: string): (r: string)
    ensures |r| <= |s| && r == s[..|r|]
    ensures forall i :: |r| <= i < |s| ==> IsWhitespace(s[i])
    ensures |r| > 0 ==> !IsWhitespace(r[|r| - 1])
    decreases |s|
  {
    if |s| > 0 && IsWhitespace(s[|s| - 1]) then TrimEnd(s[..|s| - 1]) else s
  }

  /** `r` is the slice of `s` starting at `lo`, and everything outside it is whitespace. */
  ghost predicate TrimmedAt(s: string, r: string, lo: int) {
    && 0 <= lo <= |s| - |r|
    && r == s[lo..lo + |r|]
    && (forall i :: 0 <= i < lo ==> IsWhitespace(s[i]))
    && (forall i :: lo + |r| <= i < |s| ==> IsWhitespace(s[i]))
  }

  /** `s.trim()`: a contiguous slice of `s` with no whitespace at either end, everything cut off being whitespace. */
  function Trim(s: string): (r: string)
    ensures exists lo :: TrimmedAt(s, r, lo)
    ensures |r| > 0 ==> !IsWhitespace(r[0]) && !IsWhitespace(r[|r| - 1])
  {
    var t := TrimStart(s);
    var r := TrimEnd(t);
    var lo := |s| - |t|;
    assert TrimmedAt(s, r, lo);
    r
  }

  /**
   * `!s.trim()`: the trimmed string is empty exactly when every character
   * of `s` is whitespace.
   */
  function IsBlank(s: string): (b: bool)
    ensures b <==> forall i :: 0 <= i < |s| ==> IsWhitespace(s[i])
  {
    TrimEmptyIff(s);
    |Trim(s)| == 0
  }

  /** Trimming leaves nothing exactly when every character is whitespace. */
  lemma TrimEmptyIff(s: string)
    ensures |Trim(s)| == 0 <==> forall i :: 0 <= i < |s| ==> IsWhitespace(s[i])
  {
    var r := Trim(s);
    var lo :| TrimmedAt(s, r, lo);
    if |r| > 0 {
      assert s[lo] == r[0];
    }
  }

  /** ASCII case mapping of one character; every other character is unchanged. */
  function LowerChar(c: char): char {
    if 'A' <= c <= 'Z' then (c as int - 'A' as int + 'a' as int) as char else c
  }

  /** `s.toLowerCase()` on ASCII letters: same length, each character mapped. */
  function Lower(s: string): (r: string)
    ensures |r| == |s|
    ensures forall i :: 0 <= i < |s| ==> r[i] == LowerChar(s[i])
  {
    if |s| == 0 then [] else [LowerChar(s[0])] + Lower(s[1..])
  }

  /** `sub` occurs in `s` starting at index `i`. */
  ghost predicate OccursAt(s: string, sub: string, i: int) {
    0 <= i && i + |sub| <= |s| && s[i..i + |sub|] == sub
  }

  /**
   * Shifting the start by one: `sub` occurs in `s` exactly when it is a
   * prefix of `s` or occurs in `s` with its first character dropped.
   */
  lemma {:induction false} OccursShift(s: string, sub: string)
    requires |sub| <= |s|
    ensures (exists i :: OccursAt(s, sub, i))
      <==> s[..|sub|] == sub || exists i :: OccursAt(s[1..], sub, i)
  {
    if s[..|sub|] != sub && |s| > 0 {
      if exists i :: OccursAt(s[1..], sub, i) {
        var i :| OccursAt(s[1..], sub, i);
        assert s[1..][i..i + |sub|] == s[i + 1..i + 1 + |sub|];
        assert OccursAt(s, sub, i + 1);
      }
      if exists i :: OccursAt(s, sub, i) {
        var i :| OccursAt(s, sub, i);
        assert i != 0;
        assert s[1..][i - 1..i - 1 + |sub|] == s[i..i + |sub|];
        assert OccursAt(s[1..], sub, i - 1);
      }
    } else if s[..|sub|] == sub {
      assert OccursAt(s, sub, 0);
    }
  }

  /**
   * `s.includes(sub)`, computed by testing each start position in turn: it
   * holds exactly when `sub` occurs at some index of `s`.
   */
  function Includes(s: string, sub: string): (r: bool)
    ensures r <==> exists i :: OccursAt(s, sub, i)
    decreases |s|
  {
    if |sub| > |s| then false
    else
      OccursShift(s, sub);
      s[..|sub|] == sub || Includes(s[1..], sub)
  }

  /** Lower-casing is idempotent. */
  lemma LowerIdempotent(s: string)
    ensures Lower(Lower(s)) == Lower(s)
  {
    var l := Lower(s);
    assert forall i :: 0 <= i < |s| ==> LowerChar(l[i]) == l[i];
  }

  /** Lower-casing commutes with slicing. */
  lemma LowerSlice(s: string, lo: int, hi: int)
    requires 0 <= lo <= hi <= |s|
    ensures Lower(s)[lo..hi] == Lower(s[lo..hi])
  {
  }

  /** An occurrence at an index is still one after lower-casing both sides. */
  lemma LowerOccurs(s: string, sub: string, i: int)
    requires OccursAt(s, sub, i)
    ensures OccursAt(Lower(s), Lower(sub), i)
  {
    LowerSlice(s, i, i + |sub|);
  }

  /** An occurrence survives lower-casing both sides, so a match in any capitalisation is a match after `toLowerCase`. */
  lemma IncludesLower(s: string, sub: string)
    requires Includes(s, sub)
    ensures Includes(Lower(s), Lower(sub))
  {
    var i :| OccursAt(s, sub, i);
    LowerOccurs(s, sub, i);
  }
}
