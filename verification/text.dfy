/**
 * The string helpers the scoring rules use: the `[a-zA-Z0-9]` match count of
 * rule 1 and Go's `strings.TrimSpace` and byte-counting `len` of rule 5.
 * A Go string decoded from JSON is valid UTF-8, so it is modelled as the
 * sequence of its Unicode scalar values; `len` is then the UTF-8 byte count.
 */
module Text {

  /** The character class `[a-zA-Z0-9]`. */
  predicate IsAlphaNumeric(c: char) {
    ('a' <= c <= 'z') || ('A' <= c <= 'Z') || ('0' <= c <= '9')
  }

  /**
   * The number of matches of `[a-zA-Z0-9]` in `s`; every match is a single
   * character, so this counts the ASCII letters and digits of `s`.
   */
  function CountAlphaNumericChars(s: string): (n: nat)
    ensures n <= |s|
    ensures n == |s| <==> forall i :: 0 <= i < |s| ==> IsAlphaNumeric(s[i])
    ensures n == 0 <==> forall i :: 0 <= i < |s| ==> !IsAlphaNumeric(s[i])
  {
    if |s| == 0 then 0
    else
      var rest := CountAlphaNumericChars(s[1..]);
      assert forall i :: 1 <= i < |s| ==> s[1..][i - 1] == s[i];
      (if IsAlphaNumeric(s[0]) then 1 else 0) + rest
  }

  /** The count is additive: matches never span the seam of a concatenation. */
  lemma {:induction false} CountAlphaNumericAppend(a: string, b: string)
    ensures CountAlphaNumericChars(a + b) == CountAlphaNumericChars(a) + CountAlphaNumericChars(b)
  {
    if |a| == 0 {
      assert a + b == b;
    } else {
      assert (a + b)[1..] == a[1..] + b;
      CountAlphaNumericAppend(a[1..], b);
    }
  }

  /** Go's `unicode.IsSpace`: the Unicode White_Space property. */
  predicate IsSpace(c: char) {
    c == ' ' || ('\t' <= c <= '\r') || c == '\U{0085}' || c == '\U{00A0}'
    || c == '\U{1680}' || ('\U{2000}' <= c <= '\U{200A}') || c == '\U{2028}'
    || c == '\U{2029}' || c == '\U{202F}' || c == '\U{205F}' || c == '\U{3000}'
  }

  /** The number of leading white-space characters of `s`. */
  function LeadingSpaces(s: string): (k: nat)
    ensures k <= |s|
    ensures forall i :: 0 <= i < k ==> IsSpace(s[i])
    ensures k < |s| ==> !IsSpace(s[k])
  {
    if |s| == 0 || !IsSpace(s[0]) then 0
    else
      var k := 1 + LeadingSpaces(s[1..]);
      assert forall i :: 1 <= i < |s| ==> s[1..][i - 1] == s[i];
      k
  }

  /** The index at which the trailing white space of `s` begins. */
  function TrailingSpacesStart(s: string): (k: nat)
    ensures k <= |s|
    ensures forall i :: k <= i < |s| ==> IsSpace(s[i])
    ensures 0 < k ==> !IsSpace(s[k - 1])
  {
    if |s| == 0 || !IsSpace(s[|s| - 1]) then |s|
    else TrailingSpacesStart(s[..|s| - 1])
  }

  /** `t` is the slice of `s` at offset `i`, and only white space surrounds it. */
  predicate CutAt(s: string, t: string, i: int) {
    && 0 <= i <= |s| - |t|
    && t == s[i..i + |t|]
    && (forall j :: 0 <= j < i ==> IsSpace(s[j]))
    && (forall j :: i + |t| <= j < |s| ==> IsSpace(s[j]))
  }

  /**
   * `strings.TrimSpace`: `s` without its leading and trailing white space.
   * The result is a slice of `s` that neither starts nor ends with white
   * space, and only white space was cut off on either side.
   */
  function TrimSpace(s: string): (t: string)
    ensures |t| <= |s|
    ensures t == [] || (!IsSpace(t[0]) && !IsSpace(t[|t| - 1]))
    ensures t == [] <==> forall i :: 0 <= i < |s| ==> IsSpace(s[i])
    ensures exists i :: CutAt(s, t, i)
  {
    var start := LeadingSpaces(s);
    var end := TrailingSpacesStart(s);
    if end <= start then
      assert CutAt(s, [], 0);
      []
    else
      assert CutAt(s, s[start..end], start);
      s[start..end]
  }

  /** The leading white space ends at the first character that is not white space. */
  lemma LeadingSpacesAt(s: string, k: nat)
    requires k <= |s|
    requires forall i :: 0 <= i < k ==> IsSpace(s[i])
    requires k < |s| ==> !IsSpace(s[k])
    ensures LeadingSpaces(s) == k
  {
  }

  /** The trailing white space starts after the last character that is not white space. */
  lemma TrailingSpacesStartAt(s: string, k: nat)
    requires k <= |s|
    requires forall i :: k <= i < |s| ==> IsSpace(s[i])
    requires 0 < k ==> !IsSpace(s[k - 1])
    ensures TrailingSpacesStart(s) == k
  {
  }

  /** Trimming removes exactly the white space padding around a trimmed core. */
  lemma TrimSpacePadding(pre: string, t: string, post: string)
    requires forall i :: 0 <= i < |pre| ==> IsSpace(pre[i])
    requires forall i :: 0 <= i < |post| ==> IsSpace(post[i])
    requires t == [] || (!IsSpace(t[0]) && !IsSpace(t[|t| - 1]))
    ensures TrimSpace(pre + t + post) == t
  {
    var s := pre + t + post;
    if t == [] {
      forall i | 0 <= i < |s| ensures IsSpace(s[i]) {
        if i < |pre| { assert s[i] == pre[i]; } else { assert s[i] == post[i - |pre|]; }
      }
    } else {
      forall i | 0 <= i < |pre| ensures IsSpace(s[i]) {
        assert s[i] == pre[i];
      }
      assert s[|pre|] == t[0];
      LeadingSpacesAt(s, |pre|);
      forall i | |pre| + |t| <= i < |s| ensures IsSpace(s[i]) {
        assert s[i] == post[i - |pre| - |t|];
      }
      assert s[|pre| + |t| - 1] == t[|t| - 1];
      TrailingSpacesStartAt(s, |pre| + |t|);
      assert s[|pre|..|pre| + |t|] == t;
    }
  }

  /** The number of bytes of the UTF-8 encoding of `c`. */
  function Utf8Width(c: char): nat {
    if c as int < 0x80 then 1
    else if c as int < 0x800 then 2
    else if c as int < 0x10000 then 3
    else 4
  }

  /** Go's `len` of a string: the number of bytes of its UTF-8 encoding. */
  function ByteLength(s: string): (n: nat)
    ensures |s| <= n <= 4 * |s|
    ensures (forall i :: 0 <= i < |s| ==> s[i] as int < 0x80) ==> n == |s|
    ensures |s| == 1 ==> n == Utf8Width(s[0])
  {
    if |s| == 0 then 0
    else
      var rest := ByteLength(s[1..]);
      assert forall i :: 1 <= i < |s| ==> s[1..][i - 1] == s[i];
      Utf8Width(s[0]) + rest
  }

  /** The byte length of a concatenation is the sum of the byte lengths: UTF-8 encodes each character on its own. */
  lemma {:induction false} ByteLengthAppend(a: string, b: string)
    ensures ByteLength(a + b) == ByteLength(a) + ByteLength(b)
    decreases |a|
  {
    if |a| == 0 {
      assert a + b == b;
    } else {
      assert (a + b)[1..] == a[1..] + b;
      ByteLengthAppend(a[1..], b);
    }
  }
}
