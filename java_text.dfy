/**
 * The few java.lang string operations the helper relies on, modelled on the
 * inputs it gives them: String.trim, String.toUpperCase (on ASCII),
 * Integer.toHexString and Boolean.toString.
 */
module JavaText {

  /** A character that String.trim removes: any code point at or below U+0020. */
  predicate IsTrimmable(c: char)
  {
    c <= ' '
  }

  /** Every character of s[lo..hi] is one that trim removes. */
  predicate TrimmableBetween(s: string, lo: nat, hi: nat)
    requires lo <= hi <= |s|
  {
    forall k :: lo <= k < hi ==> IsTrimmable(s[k])
  }

  /** Neither end of `s` can be trimmed. */
  predicate IsTrimmed(s: string)
  {
    s == [] || (!IsTrimmable(s[0]) && !IsTrimmable(s[|s| - 1]))
  }

  /** trim's first scan: from `st`, past the trimmable characters, to the first kept one (or the end). */
  function SkipLeading(s: string, st: nat): (i: nat)
    requires st <= |s|
    ensures st <= i <= |s| && TrimmableBetween(s, st, i)
    ensures i < |s| ==> !IsTrimmable(s[i])
    decreases |s| - st
  {
    if st < |s| && IsTrimmable(s[st]) then SkipLeading(s, st + 1) else st
  }

  /** trim's second scan: from `len` down, past the trimmable characters, never below `st`. */
  function SkipTrailing(s: string, st: nat, len: nat): (j: nat)
    requires st <= len <= |s|
    ensures st <= j <= len && TrimmableBetween(s, j, len)
    ensures st < j ==> !IsTrimmable(s[j - 1])
  {
    if st < len && IsTrimmable(s[len - 1]) then SkipTrailing(s, st, len - 1) else len
  }

  /**
   * String.trim: the substring between the two scans. Only trimmable
   * characters are removed, from the two ends, and the result has none left
   * at either end.
   */
  function Trim(s: string): (r: string)
    ensures IsTrimmed(r)
    ensures var i := SkipLeading(s, 0);
            i + |r| <= |s| && r == s[i..i + |r|] && TrimmableBetween(s, 0, i) && TrimmableBetween(s, i + |r|, |s|)
  {
    var i := SkipLeading(s, 0);
    var j := SkipTrailing(s, i, |s|);
    s[i..j]
  }

  /**
   * The trimmed form is unique: any infix of `s` with no trimmable character
   * at either end and only trimmable characters around it is Trim(s).
   */
  lemma TrimIsUnique(s: string, i: nat, j: nat)
    requires i <= j <= |s|
    requires TrimmableBetween(s, 0, i) && TrimmableBetween(s, j, |s|)
    requires IsTrimmed(s[i..j])
    ensures Trim(s) == s[i..j]
  {
    if i == j {
      SkipLeadingStopsAt(s, 0, |s|);
      SkipTrailingStopsAt(s, |s|, |s|, |s|);
    } else {
      assert s[i..j][0] == s[i] && s[i..j][j - i - 1] == s[j - 1];
      SkipLeadingStopsAt(s, 0, i);
      SkipTrailingStopsAt(s, i, |s|, j);
    }
  }

  /** The first scan stops exactly at the first kept character after a trimmable run. */
  lemma {:induction false} SkipLeadingStopsAt(s: string, st: nat, i: nat)
    requires st <= i <= |s| && TrimmableBetween(s, st, i)
    requires i < |s| ==> !IsTrimmable(s[i])
    ensures SkipLeading(s, st) == i
    decreases i - st
  {
    if st < i {
      SkipLeadingStopsAt(s, st + 1, i);
    }
  }

  /** The second scan stops exactly after the last kept character before a trimmable run. */
  lemma {:induction false} SkipTrailingStopsAt(s: string, st: nat, len: nat, j: nat)
    requires st <= j <= len <= |s| && TrimmableBetween(s, j, len)
    requires st < j ==> !IsTrimmable(s[j - 1])
    ensures SkipTrailing(s, st, len) == j
    decreases len - j
  {
    if j < len {
      SkipTrailingStopsAt(s, st, len - 1, j);
    }
  }

  /** Trimming twice is trimming once. */
  lemma TrimIsIdempotent(s: string)
    ensures Trim(Trim(s)) == Trim(s)
  {
    var r := Trim(s);
    assert r[0..|r|] == r;
    TrimIsUnique(r, 0, |r|);
  }

  /** Both ends of a padded value are removed, the inside kept. */
  lemma TrimExample()
    ensures Trim("  abc  ") == "abc"
  {
    TrimIsUnique("  abc  ", 2, 5);
  }

  /** Character.toUpperCase on the ASCII letters; other characters are kept. */
  function UpperChar(c: char): char
  {
    if 'a' <= c <= 'z' then (c as int - 'a' as int + 'A' as int) as char else c
  }

  /** String.toUpperCase, character by character, on ASCII letters; it only ever meets hex digits here. */
  function ToUpperCase(s: string): (r: string)
    ensures |r| == |s|
  {
    seq(|s|, k requires 0 <= k < |s| => UpperChar(s[k]))
  }

  lemma UpperCaseDistributes(a: string, b: string)
    ensures ToUpperCase(a + b) == ToUpperCase(a) + ToUpperCase(b)
  {
  }

  /** The lower-case digit Integer.toHexString writes for `d`. */
  function LowerHexDigit(d: nat): char
    requires d < 16
  {
    if d < 10 then ('0' as int + d) as char else ('a' as int + d - 10) as char
  }

  /** Integer.toHexString on a non-negative value: lower-case digits without leading zeros. */
  function ToHexString(v: nat): (r: string)
    ensures 1 <= |r|
    ensures v < 16 <==> |r| == 1
    ensures 16 <= v < 256 ==> |r| == 2
  {
    if v < 16 then [LowerHexDigit(v)] else ToHexString(v / 16) + [LowerHexDigit(v % 16)]
  }

  /** Boolean.valueOf(b).toString(). */
  function BooleanText(b: bool): (r: string)
    ensures r == "true" || r == "false"
    ensures b <==> r == "true"
  {
    if b then "true" else "false"
  }
}
