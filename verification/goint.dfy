/** Go's 64-bit `int` and `strconv.Atoi`, shared by the modules that parse
    or count with them. */
module GoInt {
  const IntMin: int := -0x8000_0000_0000_0000
  const IntMax: int := 0x7fff_ffff_ffff_ffff
  const Modulus: int := 0x1_0000_0000_0000_0000

  predicate InRange(x: int) {
    IntMin <= x <= IntMax
  }

  /** Two's-complement wrap-around of an exact result into a 64-bit int. */
  function Wrap(x: int): (r: int)
    ensures InRange(r)
    ensures InRange(x) ==> r == x
    ensures (r - x) % Modulus == 0
  {
    (x - IntMin) % Modulus + IntMin
  }
}

/** `strconv.Atoi` on a 64-bit platform: an optional `+` or `-`, then one
    or more decimal digits (leading zeros allowed), whose value must fit an
    `int`. The error's text is not modelled, only its presence. */
module Strconv {
  import opened Wrappers
  import GoInt
  import Semver

  /** The sign and the digits of an Atoi argument. */
  function SplitSign(s: string): (r: (bool, string))
    ensures |s| > 0 && (s[0] == '+' || s[0] == '-') ==> r == (s[0] == '-', s[1..])
    ensures !(|s| > 0 && (s[0] == '+' || s[0] == '-')) ==> r == (false, s)
  {
    if |s| > 0 && (s[0] == '+' || s[0] == '-') then (s[0] == '-', s[1..]) else (false, s)
  }

  function Atoi(s: string): (r: Option<int>)
    ensures r.Some? ==> GoInt.InRange(r.value)
    ensures r.Some? ==> Semver.IsDigitString(SplitSign(s).1)
    ensures r.Some? ==> r.value == (if SplitSign(s).0 then -1 else 1) * Semver.DecimalValue(SplitSign(s).1)
  {
    var (negative, digits) := SplitSign(s);
    if !Semver.IsDigitString(digits) then None
    else
      var magnitude: int := Semver.DecimalValue(digits);
      var v: int := if negative then -magnitude else magnitude;
      if GoInt.InRange(v) then Some(v) else None
  }

  /** Atoi reads back every int that `%d` prints. */
  lemma AtoiRoundTrip(n: int)
    requires GoInt.InRange(n)
    ensures Atoi(Semver.IntToDecimal(n)) == Some(n)
  {
    var m: nat := if n < 0 then -n else n;
    var d := Semver.NatToDecimal(m);
    Semver.DecimalRoundTrip(m);
    if n < 0 {
      assert Semver.IntToDecimal(n) == "-" + d;
      assert ("-" + d)[1..] == d;
    } else {
      assert Semver.IntToDecimal(n) == d;
      assert Semver.IsDigit(d[0]);
    }
  }

  /** No digits, a lone sign, or a stray character is an error; a plus
      sign and leading zeros are accepted. */
  lemma AtoiExamples()
    ensures Atoi("") == None && Atoi("+") == None && Atoi("-") == None && Atoi("1a") == None
    ensures Atoi("+007") == Some(7)
  {
    assert SplitSign("-") == (true, "");
    assert "+"[1..] == "";
    assert SplitSign("+") == (false, "");
    assert !Semver.IsDigit("1a"[1]);
    assert "+007"[1..] == "007";
    assert "007"[..2] == "00" && "00"[..1] == "0" && "0"[..0] == "";
  }
}
