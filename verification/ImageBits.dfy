/** Packing hash bits into an integer, printing it as hex, and comparing two hashes. */
module ImageBits {
  // ---------- Packing ----------

  function Bit(b: bool): nat { if b then 1 else 0 }

  /** The integer whose binary digits are the bits, first bit most significant. */
  function Pack(bits: seq<bool>): nat
  {
    if bits == [] then 0 else Pack(bits[..|bits| - 1]) * 2 + Bit(bits[|bits| - 1])
  }

  method BitsToInt(bits: seq<bool>) returns (out: nat)
    ensures out == Pack(bits)
  {
    out := 0;
    for i := 0 to |bits|
      invariant out == Pack(bits[..i])
    {
      assert bits[..i + 1][..i] == bits[..i];
      out := out * 2 + Bit(bits[i]);
    }
    assert bits[..|bits|] == bits;
  }

  function Unpack(n: nat, width: nat): (bits: seq<bool>)
    ensures |bits| == width
  {
    if width == 0 then [] else Unpack(n / 2, width - 1) + [n % 2 == 1]
  }

  lemma {:induction false} UnpackUndoesPack(bits: seq<bool>)
    ensures Unpack(Pack(bits), |bits|) == bits
  {
    if bits != [] {
      UnpackUndoesPack(bits[..|bits| - 1]);
    }
  }

  function Pow2(n: nat): nat { if n == 0 then 1 else 2 * Pow2(n - 1) }

  lemma {:induction false} PackRange(bits: seq<bool>)
    ensures Pack(bits) < Pow2(|bits|)
  {
    if bits != [] {
      PackRange(bits[..|bits| - 1]);
    }
  }

  /** The binary digit of n that stands k places from the right. */
  function BinaryDigit(n: nat, k: nat): nat
  {
    if k == 0 then n % 2 else BinaryDigit(n / 2, k - 1)
  }

  lemma PackStep(bits: seq<bool>)
    requires bits != []
    ensures Pack(bits) / 2 == Pack(bits[..|bits| - 1]) && Pack(bits) % 2 == Bit(bits[|bits| - 1])
  {
  }

  lemma DigitStep(n: nat, k: nat)
    ensures BinaryDigit(n, 0) == n % 2 && BinaryDigit(n, k + 1) == BinaryDigit(n / 2, k)
  {
  }

  /** Bit i of a packed list, counted from the left, is its binary digit there. */
  lemma {:induction false} PackedBit(bits: seq<bool>, i: nat)
    requires i < |bits|
    ensures BinaryDigit(Pack(bits), |bits| - 1 - i) == Bit(bits[i])
  {
    hide Pack, BinaryDigit;
    var n := |bits| - 1;
    PackStep(bits);
    if i < n {
      PackedBit(bits[..n], i);
      DigitStep(Pack(bits), n - 1 - i);
    } else {
      DigitStep(Pack(bits), 0);
    }
  }

  // ---------- Hex ----------

  function HexDigit(d: nat): char
    requires d < 16
  {
    if d < 10 then ('0' as int + d) as char else ('a' as int + d - 10) as char
  }

  lemma HexDigitsAre(d: nat)
    requires d < 16
    ensures HexDigit(d) == "0123456789abcdef"[d]
  {
  }

  function HexValue(c: char): int
  {
    if '0' <= c <= '9' then c as int - '0' as int else if 'a' <= c <= 'f' then c as int - 'a' as int + 10 else -1
  }

  /** Hex digits of n, padded with zeros to at least the given width. */
  function Hex(n: nat, width: nat): string
    decreases n + width
  {
    if n == 0 && width == 0 then ""
    else Hex(n / 16, if width == 0 then 0 else width - 1) + [HexDigit(n % 16)]
  }

  function Hex64(n: nat): string { Hex(n, 16) }

  function ParseHex(s: string): int
  {
    if s == "" then 0 else ParseHex(s[..|s| - 1]) * 16 + HexValue(s[|s| - 1])
  }

  lemma {:induction false} ParseHexUndoesHex(n: nat, width: nat)
    ensures ParseHex(Hex(n, width)) == n
    decreases n + width
  {
    if n > 0 || width > 0 {
      var w := if width == 0 then 0 else width - 1;
      ParseHexUndoesHex(n / 16, w);
      var s := Hex(n, width);
      assert s[..|s| - 1] == Hex(n / 16, w);
      assert HexValue(s[|s| - 1]) == n % 16;
    }
  }

  lemma {:induction false} HexLength(n: nat, width: nat)
    requires n < Pow2(4 * width)
    ensures |Hex(n, width)| == width
    decreases width
  {
    if width > 0 {
      var w := 4 * (width - 1);
      assert Pow2(w + 4) == 2 * Pow2(w + 3) && Pow2(w + 3) == 2 * Pow2(w + 2);
      assert Pow2(w + 2) == 2 * Pow2(w + 1) && Pow2(w + 1) == 2 * Pow2(w);
      HexLength(n / 16, width - 1);
    }
  }

  /** Sixty-four bits survive packing, printing as hex and parsing back, in exactly sixteen digits. */
  lemma HashRoundTrip(bits: seq<bool>)
    requires |bits| == 64
    ensures |Hex64(Pack(bits))| == 16
    ensures ParseHex(Hex64(Pack(bits))) == Pack(bits)
    ensures Unpack(Pack(bits), 64) == bits
  {
    PackRange(bits);
    HexLength(Pack(bits), 16);
    ParseHexUndoesHex(Pack(bits), 16);
    UnpackUndoesPack(bits);
  }

  // ---------- Distance ----------

  function Xor(a: nat, b: nat): nat
  {
    if a == 0 && b == 0 then 0 else Xor(a / 2, b / 2) * 2 + (if a % 2 != b % 2 then 1 else 0)
  }

  function BitCount(n: nat): nat
  {
    if n == 0 then 0 else BitCount(n / 2) + n % 2
  }

  function Hamming(left: nat, right: nat): nat { BitCount(Xor(left, right)) }

  /** The positions at which two bit strings differ. */
  ghost function Differences(a: seq<bool>, b: seq<bool>): set<nat>
    requires |a| == |b|
  {
    set i | 0 <= i < |a| && a[i] != b[i]
  }

  lemma HammingStep(a: nat, b: nat)
    ensures Hamming(a, b) == (if a == 0 && b == 0 then 0 else Hamming(a / 2, b / 2)) + (if a % 2 != b % 2 then 1 else 0)
    ensures Hamming(a, b) == Hamming(a / 2, b / 2) + (if a % 2 != b % 2 then 1 else 0)
  {
    if a != 0 || b != 0 {
      var x := Xor(a, b);
      assert x / 2 == Xor(a / 2, b / 2) && x % 2 == if a % 2 != b % 2 then 1 else 0;
    }
  }

  /** XOR and bit count measure exactly the number of differing positions. */
  lemma {:induction false} HammingCountsDifferences(a: seq<bool>, b: seq<bool>)
    requires |a| == |b|
    ensures Hamming(Pack(a), Pack(b)) == |Differences(a, b)|
  {
    if a != [] {
      var n := |a| - 1;
      HammingCountsDifferences(a[..n], b[..n]);
      HammingStep(Pack(a), Pack(b));
      assert Pack(a) / 2 == Pack(a[..n]) && Pack(b) / 2 == Pack(b[..n]);
      var front := Differences(a[..n], b[..n]);
      assert Differences(a, b) == front + (if a[n] != b[n] then {n} else {});
    }
  }

  /** Distances form a metric. */
  lemma {:induction false} HammingIsAMetric(a: nat, b: nat, c: nat)
    ensures Hamming(a, b) == 0 <==> a == b
    ensures Hamming(a, b) == Hamming(b, a)
    ensures Hamming(a, c) <= Hamming(a, b) + Hamming(b, c)
    decreases a + b + c
  {
    if a + b + c > 0 {
      HammingIsAMetric(a / 2, b / 2, c / 2);
      HammingStep(a, b);
      HammingStep(b, a);
      HammingStep(b, c);
      HammingStep(a, c);
    }
  }

  lemma {:induction false} HammingToZero(a: nat)
    ensures Hamming(a, 0) == BitCount(a)
  {
    if a > 0 {
      HammingToZero(a / 2);
      HammingStep(a, 0);
    }
  }

  lemma HammingAtMostBothCounts(a: nat, b: nat)
    ensures Hamming(a, b) <= BitCount(a) + BitCount(b)
  {
    HammingIsAMetric(a, 0, b);
    HammingIsAMetric(0, b, a);
    HammingToZero(a);
    HammingToZero(b);
  }

  function CountTrue(bits: seq<bool>): nat
  {
    if bits == [] then 0 else CountTrue(bits[..|bits| - 1]) + Bit(bits[|bits| - 1])
  }

  lemma {:induction false} BitCountOfPack(bits: seq<bool>)
    ensures BitCount(Pack(bits)) == CountTrue(bits)
  {
    if bits != [] {
      BitCountOfPack(bits[..|bits| - 1]);
      assert Pack(bits) / 2 == Pack(bits[..|bits| - 1]);
    }
  }
}
