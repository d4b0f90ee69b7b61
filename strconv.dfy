/**
 * Decimal integers as text: Go's `strconv.Atoi`, used to read the `:id`
 * path parameter, and the `%d` verb of `fmt.Sprintf`, used by the
 * `String` methods of the model. Go's `int` is taken to be 64 bits wide.
 */
module Strconv {
  import opened Wrappers

  const MinInt: int := -0x8000_0000_0000_0000
  const MaxInt: int := 0x7fff_ffff_ffff_ffff

  predicate IsDigit(c: char)
  {
    '0' <= c <= '9'
  }

  predicate AllDigits(s: string)
  {
    forall i | 0 <= i < |s| :: IsDigit(s[i])
  }

  function DigitValue(c: char): nat
    requires IsDigit(c)
  {
    c as int - '0' as int
  }

  function DigitChar(d: nat): (c: char)
    requires d < 10
    ensures IsDigit(c) && DigitValue(c) == d
  {
    ('0' as int + d) as char
  }

  /** The value of a string of decimal digits, most significant first. */
  function DigitsValue(s: string): nat
    requires AllDigits(s)
    decreases |s|
  {
    if s == [] then 0 else DigitsValue(s[..|s| - 1]) * 10 + DigitValue(s[|s| - 1])
  }

  /** The shortest decimal spelling of `n`, as `%d` prints it. */
  function NatDigits(n: nat): (s: string)
    ensures |s| > 0 && AllDigits(s)
  {
    if n < 10 then [DigitChar(n)] else NatDigits(n / 10) + [DigitChar(n % 10)]
  }

  lemma {:induction false} NatDigitsValue(n: nat)
    ensures DigitsValue(NatDigits(n)) == n
  {
    var s := NatDigits(n);
    if n >= 10 {
      NatDigitsValue(n / 10);
      assert s[..|s| - 1] == NatDigits(n / 10);
    }
  }

  /** `fmt.Sprintf("%d", n)`: an optional minus sign, then the digits. */
  function Itoa(n: int): string
  {
    if n < 0 then "-" + NatDigits(-n) else NatDigits(n)
  }

  /** The part of `s` after an optional leading sign. */
  function Unsigned(s: string): string
  {
    if |s| > 0 && (s[0] == '-' || s[0] == '+') then s[1..] else s
  }

  /**
   * `strconv.Atoi(s)`: an optional `+` or `-` followed by at least one
   * decimal digit, whose value fits a 64-bit `int`. Anything else (an
   * empty string, a lone sign, any other character, an out-of-range
   * value) is an error, here `None`.
   */
  function Atoi(s: string): (r: Option<int>)
    ensures r.Some? ==> |Unsigned(s)| > 0 && AllDigits(Unsigned(s))
    ensures r.Some? ==> MinInt <= r.value <= MaxInt
    ensures r.Some? ==> (r.value < 0 ==> s[0] == '-')
    ensures |Unsigned(s)| > 0 && AllDigits(Unsigned(s)) ==>
      var m: int := DigitsValue(Unsigned(s));
      var v := if s[0] == '-' then -m else m;
      (MinInt <= v <= MaxInt <==> r.Some?) && (r.Some? ==> r.value == v)
  {
    var digits := Unsigned(s);
    if |digits| == 0 || !AllDigits(digits) then None
    else
      var magnitude: int := DigitsValue(digits);
      var v := if s[0] == '-' then -magnitude else magnitude;
      if MinInt <= v <= MaxInt then Some(v) else None
  }

  /** Reading back what `%d` printed gives the number again. */
  lemma AtoiItoa(n: int)
    requires MinInt <= n <= MaxInt
    ensures Atoi(Itoa(n)) == Some(n)
  {
    var s := Itoa(n);
    if n < 0 {
      NatDigitsValue(-n);
      assert Unsigned(s) == NatDigits(-n);
    } else {
      NatDigitsValue(n);
      assert IsDigit(s[0]);
      assert Unsigned(s) == s;
    }
  }

  /** The path parameters the router tests send as non-numbers are rejected. */
  lemma AtoiRejectsWords()
    ensures Atoi("abc") == None
    ensures Atoi("invalid") == None
    ensures Atoi("") == None && Atoi("-") == None
  {
    assert !IsDigit("abc"[0]);
    assert !IsDigit("invalid"[0]);
  }
}
