/** Exact decimal amounts, and the roundings the services apply to them. */
module Money {
  datatype Currency = SOL | USDC

  /** ROUND_HALF_UP: to the nearest integer, ties away from zero. */
  function HalfUp(x: real): int
  {
    if x >= 0.0 then (x + 0.5).Floor else -((0.5 - x).Floor)
  }

  /** ROUND_HALF_EVEN: to the nearest integer, ties to the even one. */
  function HalfEven(x: real): int
  {
    var f := x.Floor;
    var rest := x - f as real;
    if rest < 0.5 || (rest == 0.5 && f % 2 == 0) then f else f + 1
  }

  /** ROUND_DOWN: towards zero. */
  function Truncate(x: real): int
  {
    if x >= 0.0 then x.Floor else -((-x).Floor)
  }

  function MicroUsdc(amount: real): real { amount * 1000000.0 }

  function QuantizeUsdc(value: real): real
  {
    HalfUp(MicroUsdc(value)) as real / 1000000.0
  }

  function QuantizeSol(value: real): real
  {
    HalfUp(value * 1000000000.0) as real / 1000000000.0
  }

  function Quantize(currency: Currency, value: real): real
  {
    if currency == USDC then QuantizeUsdc(value) else QuantizeSol(value)
  }

  /** An amount with at most six decimals. */
  predicate IsSixDecimal(amount: real)
  {
    MicroUsdc(amount).Floor as real == MicroUsdc(amount)
  }

  /** Half up is the nearest integer, and of two equally near ones the one further from zero. */
  lemma HalfUpIsNearest(x: real)
    ensures -0.5 <= HalfUp(x) as real - x <= 0.5
    ensures HalfUp(x) as real - x == 0.5 ==> x > 0.0
    ensures HalfUp(x) as real - x == -0.5 ==> x < 0.0
  {
  }

  /** Half even is the nearest integer, and of two equally near ones the even one. */
  lemma HalfEvenIsNearest(x: real)
    ensures -0.5 <= HalfEven(x) as real - x <= 0.5
    ensures HalfEven(x) as real - x == 0.5 || HalfEven(x) as real - x == -0.5 ==> HalfEven(x) % 2 == 0
  {
  }

  lemma HalfUpMonotone(x: real, y: real)
    requires x <= y
    ensures HalfUp(x) <= HalfUp(y)
  {
  }

  lemma QuantizeMonotone(currency: Currency, x: real, y: real)
    requires x <= y
    ensures Quantize(currency, x) <= Quantize(currency, y)
  {
    HalfUpMonotone(MicroUsdc(x), MicroUsdc(y));
    HalfUpMonotone(x * 1000000000.0, y * 1000000000.0);
  }

  /** All three roundings leave an integer alone. */
  lemma RoundingsFixIntegers(k: int)
    ensures HalfUp(k as real) == k && HalfEven(k as real) == k && Truncate(k as real) == k
  {
    assert (k as real + 0.5).Floor == k;
    assert (0.5 - k as real).Floor == -k;
  }

  /** Quantising yields a six-decimal amount within half a micro-USDC - away from zero at exactly half -
      and changes an amount only if it had more decimals. */
  lemma QuantizeUsdcIsNearest(value: real)
    ensures IsSixDecimal(QuantizeUsdc(value))
    ensures -0.5 <= MicroUsdc(QuantizeUsdc(value)) - MicroUsdc(value) <= 0.5
    ensures MicroUsdc(QuantizeUsdc(value)) - MicroUsdc(value) == 0.5 ==> value > 0.0
    ensures MicroUsdc(QuantizeUsdc(value)) - MicroUsdc(value) == -0.5 ==> value < 0.0
    ensures QuantizeUsdc(value) == value <==> IsSixDecimal(value)
  {
    var k := HalfUp(MicroUsdc(value));
    HalfUpIsNearest(MicroUsdc(value));
    assert MicroUsdc(QuantizeUsdc(value)) == k as real;
    if IsSixDecimal(value) {
      RoundingsFixIntegers(MicroUsdc(value).Floor);
    }
  }

  /** The same in lamports: nine decimals. */
  lemma QuantizeSolIsNearest(value: real)
    ensures var lamports := QuantizeSol(value) * 1000000000.0;
            && lamports.Floor as real == lamports
            && -0.5 <= lamports - value * 1000000000.0 <= 0.5
            && (lamports - value * 1000000000.0 == 0.5 ==> value > 0.0)
            && (lamports - value * 1000000000.0 == -0.5 ==> value < 0.0)
            && (QuantizeSol(value) == value
                <==> (value * 1000000000.0).Floor as real == value * 1000000000.0)
  {
    var x := value * 1000000000.0;
    var k := HalfUp(x);
    HalfUpIsNearest(x);
    assert QuantizeSol(value) * 1000000000.0 == k as real;
    if x.Floor as real == x {
      RoundingsFixIntegers(x.Floor);
    }
  }
}
