/** The two Base58 encoders of the repository, a decoder to judge them by, and the address check
    that their output has to pass. */
module Base58 {
  import opened Options

  type Byte = x: int | 0 <= x < 256

  /** The alphabet 1-9, A-H, J-N, P-Z, a-k, m-z: no 0, I, O or l. */
  function Symbol(d: int): char
    requires 0 <= d < 58
  {
    if d < 9 then ('1' as int + d) as char
    else if d < 17 then ('A' as int + (d - 9)) as char
    else if d < 22 then ('J' as int + (d - 17)) as char
    else if d < 33 then ('P' as int + (d - 22)) as char
    else if d < 44 then ('a' as int + (d - 33)) as char
    else ('m' as int + (d - 44)) as char
  }

  /** Symbol by symbol, the alphabet both encoders spell out: its six runs, one after the other. */
  lemma SymbolsAreTheAlphabet(d: int)
    requires 0 <= d < 58
    ensures d < 9 ==> Symbol(d) == "123456789"[d]
    ensures 9 <= d < 17 ==> Symbol(d) == "ABCDEFGH"[d - 9]
    ensures 17 <= d < 22 ==> Symbol(d) == "JKLMN"[d - 17]
    ensures 22 <= d < 33 ==> Symbol(d) == "PQRSTUVWXYZ"[d - 22]
    ensures 33 <= d < 44 ==> Symbol(d) == "abcdefghijk"[d - 33]
    ensures 44 <= d ==> Symbol(d) == "mnopqrstuvwxyz"[d - 44]
  {
  }

  predicate InAlphabet(c: char)
  {
    '1' <= c <= '9' || 'A' <= c <= 'H' || 'J' <= c <= 'N' || 'P' <= c <= 'Z' || 'a' <= c <= 'k' || 'm' <= c <= 'z'
  }

  // ---------- Positional notation, most significant digit first ----------

  ghost function Value(digits: seq<int>, base: nat): int
  {
    if digits == [] then 0 else Value(digits[..|digits| - 1], base) * base + digits[|digits| - 1]
  }

  ghost function Digits(n: nat, base: nat): seq<int>
    requires base >= 2
  {
    if n == 0 then [] else Digits(n / base, base) + [n % base]
  }

  ghost predicate AreDigits(digits: seq<int>, base: nat)
  {
    forall i :: 0 <= i < |digits| ==> 0 <= digits[i] < base
  }

  lemma DigitsPush(v: nat, d: nat, base: nat)
    requires base >= 2 && d < base && v + d > 0
    ensures v * base + d > 0
    ensures Digits(v * base + d, base) == Digits(v, base) + [d]
  {
    DivModOfSum(v, d, base);
    MulMono(0, v, base);
    if v > 0 {
      MulAtLeast(v, base);
    }
  }

  lemma {:induction false} DigitsOfValue(digits: seq<int>, base: nat)
    requires base >= 2 && AreDigits(digits, base)
    requires digits == [] || digits[0] != 0
    ensures Value(digits, base) >= 0
    ensures digits != [] ==> Value(digits, base) > 0
    ensures Digits(Value(digits, base), base) == digits
  {
    if digits != [] {
      var front, last := digits[..|digits| - 1], digits[|digits| - 1];
      DigitsOfValue(front, base);
      hide Digits;
      DigitsPush(Value(front, base), last, base);
      assert front + [last] == digits;
    }
  }

  lemma DivModOfSum(v: nat, d: nat, base: nat)
    requires d < base
    ensures (v * base + d) / base == v && (v * base + d) % base == d
  {
    var n := v * base + d;
    var q, r := n / base, n % base;
    assert (q - v) * base == d - r;
    if q > v {
      MulAtLeast(q - v, base);
    } else if q < v {
      MulAtLeast(v - q, base);
    }
  }

  lemma MulAtLeast(k: int, b: nat)
    requires k >= 1
    ensures k * b >= b
  {
  }

  lemma QuotientIsSmaller(n: nat, base: nat)
    requires n > 0 && base >= 2
    ensures 0 <= n / base < n && 0 <= n % base < base && n / base * base + n % base == n
  {
    MulMono(2, base, n / base);
  }

  lemma {:induction false} ValueOfDigits(n: nat, base: nat)
    requires base >= 2
    ensures AreDigits(Digits(n, base), base)
    ensures Value(Digits(n, base), base) == n
    ensures n > 0 ==> Digits(n, base) != [] && Digits(n, base)[0] != 0
  {
    if n > 0 {
      var q, r := n / base, n % base;
      QuotientIsSmaller(n, base);
      ValueOfDigits(q, base);
      var ds := Digits(q, base);
      assert Digits(n, base) == ds + [r];
      assert (ds + [r])[..|ds|] == ds;
      assert Value(ds + [r], base) == q * base + r;
    }
  }

  ghost function Pow(b: nat, e: nat): nat
  {
    if e == 0 then 1 else b * Pow(b, e - 1)
  }

  /** A number of k digits, the first nonzero, lies in [base^(k-1), base^k). */
  lemma {:induction false} ValueRange(digits: seq<int>, base: nat)
    requires base >= 2 && AreDigits(digits, base)
    ensures 0 <= Value(digits, base) < Pow(base, |digits|)
    ensures digits != [] && digits[0] != 0 ==> Value(digits, base) >= Pow(base, |digits| - 1)
  {
    if digits != [] {
      var front, last := digits[..|digits| - 1], digits[|digits| - 1];
      ValueRange(front, base);
      var v, p := Value(front, base), Pow(base, |front|);
      ShiftRange(v, last, p, base);
      if front != [] && digits[0] != 0 {
        MulMono(Pow(base, |front| - 1), v, base);
        assert Pow(base, |front|) == Pow(base, |front| - 1) * base;
      }
    }
  }

  lemma ShiftRange(v: int, d: int, p: nat, base: nat)
    requires 0 <= v < p && 0 <= d < base
    ensures 0 <= v * base + d < base * p
  {
    MulMono(v + 1, p, base);
    MulMono(0, v, base);
  }

  lemma MulMono(a: int, b: int, c: nat)
    requires a <= b
    ensures a * c <= b * c
  {
  }

  lemma {:induction false} PowMono(b: nat, e: nat, f: nat)
    requires b >= 1 && e <= f
    ensures 1 <= Pow(b, e) <= Pow(b, f)
    decreases f
  {
    if e == f {
      if e > 0 {
        PowMono(b, e - 1, e - 1);
        MulAtLeast(Pow(b, e - 1), b);
      }
    } else {
      PowMono(b, e, f - 1);
      MulMono(1, b, Pow(b, f - 1));
    }
  }

  lemma {:induction false} PowBaseMono(a: nat, b: nat, e: nat)
    requires a <= b
    ensures Pow(a, e) <= Pow(b, e)
  {
    if e > 0 {
      PowBaseMono(a, b, e - 1);
      MulMono(a, b, Pow(a, e - 1));
      MulMono(Pow(a, e - 1), Pow(b, e - 1), b);
    }
  }

  lemma {:induction false} PowAdd(b: nat, e: nat, f: nat)
    ensures Pow(b, e + f) == Pow(b, e) * Pow(b, f)
  {
    if e > 0 {
      PowAdd(b, e - 1, f);
      assert b * (Pow(b, e - 1) * Pow(b, f)) == (b * Pow(b, e - 1)) * Pow(b, f);
    }
  }

  /** m bytes never need more than m + 12 Base58 digits, as long as m <= 32. */
  lemma {:induction false} DigitBudget(m: nat)
    requires m <= 32
    ensures Pow(256, m) <= Pow(58, m + 12)
    decreases 32 - m
  {
    if m == 32 {
      var a, b := Pow(256, 8), Pow(58, 11);
      EightBytesInElevenDigits();
      PowAdd(256, 8, 8); PowAdd(256, 16, 16);
      PowAdd(58, 11, 11); PowAdd(58, 22, 22);
      SquareMono(a, b);
      SquareMono(a * a, b * b);
    } else {
      DigitBudget(m + 1);
      assert Pow(256, m + 1) == 256 * Pow(256, m);
      assert Pow(58, m + 13) == 58 * Pow(58, m + 12);
    }
  }

  lemma EightBytesInElevenDigits()
    ensures Pow(256, 8) <= Pow(58, 11)
  {
    assert Pow(256, 4) == 4294967296;
    PowAdd(256, 4, 4);
    assert Pow(58, 4) == 11316496;
    PowAdd(58, 4, 4);
    assert Pow(58, 3) == 195112;
    PowAdd(58, 8, 3);
  }

  lemma SquareMono(a: nat, b: nat)
    requires a <= b
    ensures a * a <= b * b
  {
    MulMono(a, b, a);
    MulMono(a, b, b);
  }

  // ---------- The two encoders ----------

  function LeadingZeros(data: seq<Byte>): (z: nat)
    ensures z <= |data|
    ensures forall i :: 0 <= i < z ==> data[i] == 0
    ensures z < |data| ==> data[z] != 0
  {
    if data == [] || data[0] != 0 then 0 else 1 + LeadingZeros(data[1..])
  }

  ghost predicate HasNonzeroByte(data: seq<Byte>)
  {
    exists i :: 0 <= i < |data| && data[i] != 0
  }

  function Repeat(c: char, n: nat): string
  {
    seq(n, _ => c)
  }

  function Symbols(digits: seq<int>): string
    requires AreDigits(digits, 58)
  {
    seq(|digits|, i requires 0 <= i < |digits| => Symbol(digits[i]))
  }

  /** The Base58 numeral of a number, in characters. */
  ghost function Numeral(n: nat): string
  {
    ValueOfDigits(n, 58);
    Symbols(Digits(n, 58))
  }

  lemma ZeroNumeral()
    ensures Numeral(0) == "" && Digits(0, 256) == []
  {
  }

  lemma NumeralStep(n: nat)
    requires n > 0
    ensures Numeral(n) == Numeral(n / 58) + [Symbol(n % 58)]
  {
    ValueOfDigits(n, 58);
    ValueOfDigits(n / 58, 58);
  }

  ghost function Number(data: seq<Byte>): nat
  {
    ValueRange(data, 256);
    Value(data, 256)
  }

  method ReadNumber(data: seq<Byte>) returns (n: nat)
    ensures n == Number(data)
  {
    n := 0;
    for i := 0 to |data|
      invariant n == Value(data[..i], 256)
    {
      assert data[..i + 1][..i] == data[..i];
      n := n * 256 + data[i];
    }
    assert data[..|data|] == data;
  }

  ghost function ToolEncoding(data: seq<Byte>): string
  {
    Repeat('1', LeadingZeros(data)) + Numeral(Number(data))
  }

  ghost function ServiceEncoding(raw: seq<Byte>): string
  {
    var encoded := Numeral(Number(raw));
    Repeat('1', LeadingZeros(raw)) + (if encoded == "" then "1" else encoded)
  }

  /** The service's encoder: prepend one symbol per division, fall back to one '1'. */
  method ServiceBase58Encode(raw: seq<Byte>) returns (s: string)
    ensures s == ServiceEncoding(raw)
  {
    var number := ReadNumber(raw);
    var encoded := "";
    while number > 0
      invariant Numeral(Number(raw)) == Numeral(number) + encoded
    {
      NumeralStep(number);
      encoded := [Symbol(number % 58)] + encoded;
      number := number / 58;
    }
    assert Numeral(0) == "";
    s := Repeat('1', LeadingZeros(raw)) + (if encoded == "" then "1" else encoded);
  }

  function Reversed(s: string): string
  {
    if s == "" then "" else Reversed(s[1..]) + [s[0]]
  }

  lemma {:induction false} ReversedAppend(s: string, c: char)
    ensures Reversed(s + [c]) == [c] + Reversed(s)
  {
    if s != "" {
      ReversedAppend(s[1..], c);
      assert (s + [c])[1..] == s[1..] + [c];
    }
  }

  /** The command-line tool's encoder: append symbols least significant first, reverse at the end. */
  method ToolBase58Encode(data: seq<Byte>) returns (s: string)
    ensures s == ToolEncoding(data)
  {
    var number := ReadNumber(data);
    var encoded := "";
    while number > 0
      invariant Numeral(Number(data)) == Numeral(number) + Reversed(encoded)
    {
      NumeralStep(number);
      ReversedAppend(encoded, Symbol(number % 58));
      encoded := encoded + [Symbol(number % 58)];
      number := number / 58;
    }
    assert Numeral(0) == "";
    s := Repeat('1', LeadingZeros(data)) + Reversed(encoded);
  }

  // ---------- Reference decoder ----------

  function LeadingOnes(s: string): (z: nat)
    ensures z <= |s|
    ensures forall i :: 0 <= i < z ==> s[i] == '1'
    ensures z < |s| ==> s[z] != '1'
  {
    if s == "" || s[0] != '1' then 0 else 1 + LeadingOnes(s[1..])
  }

  function IndexOf(c: char): Option<int>
  {
    if '1' <= c <= '9' then Some(c as int - '1' as int)
    else if 'A' <= c <= 'H' then Some(c as int - 'A' as int + 9)
    else if 'J' <= c <= 'N' then Some(c as int - 'J' as int + 17)
    else if 'P' <= c <= 'Z' then Some(c as int - 'P' as int + 22)
    else if 'a' <= c <= 'k' then Some(c as int - 'a' as int + 33)
    else if 'm' <= c <= 'z' then Some(c as int - 'm' as int + 44)
    else None
  }

  lemma IndexOfSymbol(d: nat)
    requires d < 58
    ensures IndexOf(Symbol(d)) == Some(d)
  {
  }

  /** One zero byte per leading '1', then the remaining symbols read as one number, in as few bytes
      as it takes. */
  ghost function Decode(s: string): Option<seq<int>>
  {
    var z := LeadingOnes(s);
    if forall i :: z <= i < |s| ==> IndexOf(s[i]).Some? then
      var digits := seq(|s| - z, i requires 0 <= i < |s| - z => IndexOf(s[z + i]).value);
      var n := Value(digits, 58);
      Some(seq(z, _ => 0) + if n < 0 then [] else Digits(n, 256))
    else None
  }

  lemma {:induction false} NumberSkipsLeadingZeros(data: seq<Byte>, z: nat)
    requires z <= |data| && forall i :: 0 <= i < z ==> data[i] == 0
    ensures Number(data) == Number(data[z..])
  {
    if z < |data| {
      var front := data[..|data| - 1];
      NumberSkipsLeadingZeros(front, z);
      assert data[z..][..|data| - z - 1] == front[z..];
    } else if data != [] {
      NumberSkipsLeadingZeros(data[..|data| - 1], z - 1);
      assert data[..|data| - 1][z - 1..] == [];
    }
  }

  lemma ZeroNumber(data: seq<Byte>)
    ensures Number(data) == 0 <==> !HasNonzeroByte(data)
    ensures HasNonzeroByte(data) <==> LeadingZeros(data) < |data|
  {
    var z := LeadingZeros(data);
    NumberSkipsLeadingZeros(data, z);
    if z < |data| {
      DigitsOfValue(data[z..], 256);
    }
  }

  lemma LeadingOnesOf(z: nat, t: string)
    requires t == "" || t[0] != '1'
    ensures LeadingOnes(Repeat('1', z) + t) == z
  {
    var s := Repeat('1', z) + t;
    assert forall i :: 0 <= i < z ==> s[i] == '1';
    assert z < |s| ==> s[z] == t[0];
  }

  lemma OnesThenNumeral(z: nat, n: nat)
    ensures LeadingOnes(Repeat('1', z) + Numeral(n)) == z
    ensures forall i :: 0 <= i < |Numeral(n)| ==>
                          IndexOf((Repeat('1', z) + Numeral(n))[z + i]) == Some(Digits(n, 58)[i])
  {
    var num := Numeral(n);
    ValueOfDigits(n, 58);
    hide Value, Digits, LeadingOnes;
    var ds := Digits(n, 58);
    forall i | 0 <= i < |num|
      ensures IndexOf((Repeat('1', z) + num)[z + i]) == Some(ds[i])
    {
      IndexOfSymbol(ds[i]);
    }
    if n > 0 {
      assert num[0] == Symbol(ds[0]) != '1';
    } else {
      ZeroNumeral();
    }
    LeadingOnesOf(z, num);
  }

  lemma DecodeOnesThenNumeral(z: nat, n: nat)
    ensures Decode(Repeat('1', z) + Numeral(n)) == Some(seq(z, _ => 0) + Digits(n, 256))
  {
    hide Value, Digits, LeadingOnes, IndexOf, Symbol;
    var s := Repeat('1', z) + Numeral(n);
    OnesThenNumeral(z, n);
    ValueOfDigits(n, 58);
    forall i | z <= i < |s|
      ensures IndexOf(s[i]).Some?
    {
      assert IndexOf(s[z + (i - z)]).Some?;
    }
    assert seq(|s| - z, i requires 0 <= i < |s| - z => IndexOf(s[z + i]).value) == Digits(n, 58);
  }

  /** The tool's encoding loses nothing, whatever the bytes. */
  lemma ToolRoundTrip(data: seq<Byte>)
    ensures Decode(ToolEncoding(data)) == Some(data)
  {
    var z := LeadingZeros(data);
    NumberSkipsLeadingZeros(data, z);
    DigitsOfValue(data[z..], 256);
    DecodeOnesThenNumeral(z, Number(data));
    assert seq(z, _ => 0) + data[z..] == data;
  }

  /** The service's encoder writes one '1' too many exactly when there is no nonzero byte; on
      everything else it agrees with the tool and is decoded to the bytes it came from. */
  lemma ServiceRoundTripExactlyWhenNonzero(raw: seq<Byte>)
    ensures ServiceEncoding(raw) == ToolEncoding(raw) <==> HasNonzeroByte(raw)
    ensures Decode(ServiceEncoding(raw)) == Some(raw) <==> HasNonzeroByte(raw)
    ensures !HasNonzeroByte(raw) ==> ServiceEncoding(raw) == ToolEncoding(raw) + "1"
  {
    hide Value, Digits, Pow, Symbol, Decode;
    ToolRoundTrip(raw);
    ZeroNumber(raw);
    var n := Number(raw);
    ValueOfDigits(n, 58);
    if !HasNonzeroByte(raw) {
      var z := LeadingZeros(raw);
      ZeroNumeral();
      assert ServiceEncoding(raw) == Repeat('1', z + 1) + Numeral(0);
      DecodeOnesThenNumeral(z + 1, 0);
      assert |ServiceEncoding(raw)| == |ToolEncoding(raw)| + 1;
    }
  }

  // ---------- Address check ----------

  predicate IsValidSolanaAddress(address: string)
  {
    32 <= |address| <= 44 && forall i :: 0 <= i < |address| ==> InAlphabet(address[i])
  }

  /** A number of at most m <= 32 bytes whose first byte is nonzero takes m to m + 12 digits. */
  lemma NumeralLength(bytes: seq<Byte>)
    requires 1 <= |bytes| <= 32 && bytes[0] != 0
    ensures |bytes| <= |Numeral(Number(bytes))| <= |bytes| + 12
  {
    hide Value, Digits, Pow, Symbol;
    var m, n := |bytes|, Number(bytes);
    var ds := Digits(n, 58);
    ValueRange(bytes, 256);
    ValueOfDigits(n, 58);
    ValueRange(ds, 58);
    PowMono(256, m - 1, m - 1);
    if |ds| > m + 12 {
      PowMono(58, m + 12, |ds| - 1);
      DigitBudget(m);
    } else if |ds| < m {
      PowMono(58, |ds|, m - 1);
      PowBaseMono(58, 256, m - 1);
    }
  }

  /** Every 32-byte value, zero included, becomes a string the address check accepts. */
  lemma ThirtyTwoBytesMakeAnAddress(raw: seq<Byte>)
    requires |raw| == 32
    ensures IsValidSolanaAddress(ServiceEncoding(raw))
    ensures IsValidSolanaAddress(ToolEncoding(raw))
  {
    var z := LeadingZeros(raw);
    var n := Number(raw);
    ZeroNumber(raw);
    NumberSkipsLeadingZeros(raw, z);
    ValueOfDigits(n, 58);
    if z < 32 {
      NumeralLength(raw[z..]);
    } else {
      assert Numeral(0) == "";
    }
    var num := Numeral(n);
    assert forall i :: 0 <= i < |num| ==> InAlphabet(num[i]);
  }
}
