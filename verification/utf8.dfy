/** The line-width metric of the text renderer: UTF-8 byte counts as in
    section 3 of RFC 3629, folded into "1 per narrow, 2 per wide character". */
module Utf8 {

  /** Number of octets encoding `c` in UTF-8 (section 3 of RFC 3629). */
  function CharBytes(c: char): (n: nat)
    ensures 1 <= n <= 4
  {
    if c as int < 0x80 then 1
    else if c as int < 0x800 then 2
    else if c as int < 0x10000 then 3
    else 4
  }

  /** Python's `len(text.encode('UTF-8'))`. */
  function ByteLength(s: string): (n: nat)
    ensures |s| <= n <= 4 * |s|
    decreases |s|
  {
    if |s| == 0 then 0 else ByteLength(s[..|s| - 1]) + CharBytes(s[|s| - 1])
  }

  /** `utf8_size(text) = int((len(bytes) - len(text)) / 2 + len(text))`: the extra
      bytes are halved and truncated, so an ASCII character weighs 1 and a
      three-byte (CJK) character weighs 2. */
  function Size(s: string): nat {
    (ByteLength(s) - |s|) / 2 + |s|
  }

  predicate IsAscii(s: string) {
    forall k :: 0 <= k < |s| ==> s[k] as int < 0x80
  }

  /** Every character takes three bytes: the CJK text the metric was made for. */
  predicate IsWide(s: string) {
    forall k :: 0 <= k < |s| ==> 0x800 <= s[k] as int < 0x10000
  }

  lemma {:induction false} AsciiBytes(s: string)
    requires IsAscii(s)
    ensures ByteLength(s) == |s|
    decreases |s|
  {
    if |s| > 0 {
      AsciiBytes(s[..|s| - 1]);
    }
  }

  lemma {:induction false} WideBytes(s: string)
    requires IsWide(s)
    ensures ByteLength(s) == 3 * |s|
    decreases |s|
  {
    if |s| > 0 {
      WideBytes(s[..|s| - 1]);
    }
  }

  /** One unit per ASCII character. */
  lemma AsciiSize(s: string)
    requires IsAscii(s)
    ensures Size(s) == |s|
  {
    AsciiBytes(s);
  }

  /** Two units per three-byte character. */
  lemma WideSize(s: string)
    requires IsWide(s)
    ensures Size(s) == 2 * |s|
  {
    WideBytes(s);
  }

  lemma {:induction false} ByteLengthAppend(a: string, b: string)
    ensures ByteLength(a + b) == ByteLength(a) + ByteLength(b)
    decreases |b|
  {
    if |b| == 0 {
      assert a + b == a;
    } else {
      assert (a + b)[..|a + b| - 1] == a + b[..|b| - 1];
      ByteLengthAppend(a, b[..|b| - 1]);
    }
  }

  /** A longer prefix is strictly wider: the metric grows by at least one per character. */
  lemma PrefixSizeGrows(s: string, i: nat, j: nat)
    requires i < j <= |s|
    ensures Size(s[..i]) < Size(s[..j])
    ensures Size(s[..j]) - Size(s[..i]) >= j - i
  {
    assert s[..j] == s[..i] + s[i..j];
    ByteLengthAppend(s[..i], s[i..j]);
  }

  /** The metric of the empty text is zero, of any other text positive. */
  lemma SizeZero(s: string)
    ensures Size(s) == 0 <==> s == ""
  {
  }
}
