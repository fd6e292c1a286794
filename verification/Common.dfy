/** Small shared vocabulary: optional values and decimal rendering of integers. */
module Common {

  datatype Option<+T> = None | Some(value: T)

  datatype Result<+T, +E> = Ok(value: T) | Fail(error: E)

  function Min(a: int, b: int): int {
    if a <= b then a else b
  }

  lemma ConcatAssoc<T>(a: seq<T>, b: seq<T>, c: seq<T>)
    ensures a + b + c == a + (b + c)
  {
  }

  // ------------------------------------------------------------------
  // Python's "%d" / str(int)

  function Digit(d: nat): char
    requires d < 10
  {
    "0123456789"[d]
  }

  function DigitValue(c: char): nat {
    if '0' <= c <= '9' then (c as int - '0' as int) else 0
  }

  function DecimalNat(n: nat): (s: string)
    ensures |s| > 0
    ensures forall i :: 0 <= i < |s| ==> '0' <= s[i] <= '9'
  {
    if n < 10 then [Digit(n)] else DecimalNat(n / 10) + [Digit(n % 10)]
  }

  function Decimal(i: int): (s: string) {
    if i < 0 then "-" + DecimalNat(-i) else DecimalNat(i)
  }

  function ParseNat(s: string): nat {
    if s == [] then 0 else 10 * ParseNat(s[..|s| - 1]) + DigitValue(s[|s| - 1])
  }

  /** Reads back what Decimal writes. */
  function ParseInt(s: string): int {
    if s != [] && s[0] == '-' then 0 - ParseNat(s[1..]) else ParseNat(s)
  }

  lemma {:induction false} ParseNatDecimalNat(n: nat)
    ensures ParseNat(DecimalNat(n)) == n
  {
    if n < 10 {
      assert DecimalNat(n)[..0] == [];
    } else {
      ParseNatDecimalNat(n / 10);
      var s := DecimalNat(n);
      assert s[..|s| - 1] == DecimalNat(n / 10);
    }
  }

  lemma ParseIntDecimal(i: int)
    ensures ParseInt(Decimal(i)) == i
  {
    if i < 0 {
      ParseNatDecimalNat(-i);
      var s := DecimalNat(-i);
      assert ("-" + s)[1..] == s;
    } else {
      ParseNatDecimalNat(i);
    }
  }
}
