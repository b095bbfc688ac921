/** Bytes. */
module Octets {
  newtype Byte = b: int | 0 <= b < 256

  type Bytes = seq<Byte>
}

/** Decimal numerals. */
module Decimals {
  function Digit(d: nat): char
    requires d < 10
  {
    '0' + (d as char)
  }

  /** The usual decimal form, without leading zeros. */
  function Decimal(n: nat): (s: string)
    ensures |s| >= 1
  {
    if n < 10 then [Digit(n)] else Decimal(n / 10) + [Digit(n % 10)]
  }

  function Pow10(k: nat): (p: nat)
    ensures p >= 1
  {
    if k == 0 then 1 else 10 * Pow10(k - 1)
  }

  /** A number below `10^k` has at most `k` digits. */
  lemma {:induction false} DecimalWidth(n: nat, k: nat)
    requires k >= 1 && n < Pow10(k)
    ensures |Decimal(n)| <= k
  {
    if n >= 10 {
      assert k >= 2 by { assert Pow10(1) == 10 * Pow10(0); }
      DecimalWidth(n / 10, k - 1);
    }
  }

  /** A larger number has at least as many digits. */
  lemma {:induction false} DecimalGrows(a: nat, b: nat)
    requires a <= b
    ensures |Decimal(a)| <= |Decimal(b)|
  {
    if a >= 10 {
      DecimalGrows(a / 10, b / 10);
    }
  }

  lemma {:induction false} DecimalIsAscii(n: nat)
    ensures forall k :: 0 <= k < |Decimal(n)| ==> Decimal(n)[k] as int < 0x80
  {
    if n >= 10 {
      DecimalIsAscii(n / 10);
    }
  }
}

/** The UTF-8 size of strings, as Rust's `str` measures it. */
module Utf8 {
  import opened Sequences
  import opened Decimals

  function Utf8Len(c: char): (n: nat)
    ensures 1 <= n <= 4
  {
    var v := c as int;
    if v < 0x80 then 1 else if v < 0x800 then 2 else if v < 0x1_0000 then 3 else 4
  }

  function ByteLen(s: string): (n: nat)
    ensures n >= |s|
  {
    if s == [] then 0 else Utf8Len(s[0]) + ByteLen(s[1..])
  }

  lemma {:induction false} ByteLenConcat(a: string, b: string)
    ensures ByteLen(a + b) == ByteLen(a) + ByteLen(b)
  {
    if a == [] {
      assert a + b == b;
    } else {
      assert (a + b)[1..] == a[1..] + b;
      ByteLenConcat(a[1..], b);
    }
  }

  lemma {:induction false} AsciiByteLen(s: string)
    requires forall k :: 0 <= k < |s| ==> s[k] as int < 0x80
    ensures ByteLen(s) == |s|
  {
    if s != [] {
      AsciiByteLen(s[1..]);
    }
  }

  lemma ByteLenConcat3(a: string, b: string, c: string)
    ensures ByteLen(a + (b + c)) == ByteLen(a) + ByteLen(b) + ByteLen(c)
  {
    ByteLenConcat(b, c);
    ByteLenConcat(a, b + c);
  }

  lemma DecimalBytes(n: nat)
    ensures ByteLen(Decimal(n)) == |Decimal(n)|
  {
    DecimalIsAscii(n);
    AsciiByteLen(Decimal(n));
  }

  /** A numeral between two texts. */
  lemma NumeralBytes(head: string, n: nat, tail: string)
    ensures ByteLen(head + (Decimal(n) + tail)) == ByteLen(head) + |Decimal(n)| + ByteLen(tail)
  {
    ByteLenConcat3(head, Decimal(n), tail);
    DecimalBytes(n);
  }

  /** Byte offset `b` falls between two characters of `s` or at an end. */
  predicate IsCharBoundary(s: string, b: nat) {
    b == 0 || (s != [] && Utf8Len(s[0]) <= b && IsCharBoundary(s[1..], b - Utf8Len(s[0])))
  }

  /** The characters before boundary `b`. */
  function SliceTo(s: string, b: nat): (p: string)
    requires IsCharBoundary(s, b)
    ensures p <= s && ByteLen(p) == b
  {
    if b == 0 then []
    else
      var rest := SliceTo(s[1..], b - Utf8Len(s[0]));
      Tail(s[0], rest);
      [s[0]] + rest
  }

  /** The longest prefix of at most `keep` bytes. */
  function LongestPrefix(s: string, keep: nat): (p: string)
    ensures p <= s && ByteLen(p) <= keep
  {
    if s == [] || Utf8Len(s[0]) > keep then []
    else
      var rest := LongestPrefix(s[1..], keep - Utf8Len(s[0]));
      Tail(s[0], rest);
      [s[0]] + rest
  }

  /** No prefix of at most `keep` bytes is longer. */
  lemma {:induction false} LongestPrefixIsLongest(s: string, keep: nat, k: nat)
    requires k <= |s| && ByteLen(s[..k]) <= keep
    ensures k <= |LongestPrefix(s, keep)|
  {
    if k > 0 {
      assert s[..k][1..] == s[1..][..k - 1];
      LongestPrefixIsLongest(s[1..], keep - Utf8Len(s[0]), k - 1);
    }
  }

  /** The last boundary at or before `keep` is where the longest prefix ends. */
  lemma {:induction false} LastBoundary(s: string, keep: nat, b: nat)
    requires b <= keep && IsCharBoundary(s, b)
    requires forall c :: b < c <= keep ==> !IsCharBoundary(s, c)
    ensures SliceTo(s, b) == LongestPrefix(s, keep)
  {
    if s != [] && Utf8Len(s[0]) <= keep {
      var n := Utf8Len(s[0]);
      assert IsCharBoundary(s[1..], 0);
      assert IsCharBoundary(s, n);
      forall c | b - n < c <= keep - n ensures !IsCharBoundary(s[1..], c) {
        assert !IsCharBoundary(s, c + n);
      }
      LastBoundary(s[1..], keep - n, b - n);
    }
  }
}
