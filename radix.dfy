// Integer text formats the dashboard uses: Go's `strconv.FormatInt(n, 36)`
// and JavaScript's `n.toString(36)` for generated names, Go's
// `strconv.Atoi` and JavaScript's `parseInt` for tmux window counts.
module Radix {
  import opened Strs
  import opened Wrappers

  /** The lower-case digit character for `d`. */
  function DigitChar(d: nat): char
    requires d < 36
  {
    if d < 10 then ('0' as int + d) as char else ('a' as int + d - 10) as char
  }

  const MaxInt64 := 0x7fff_ffff_ffff_ffff
  const MinInt64 := -0x8000_0000_0000_0000

  predicate ValidBase(base: int) { 2 <= base <= 36 }

  /** The value of one digit character in `base`, if it is one. */
  function DigitValue(c: char, base: int): (r: Option<nat>)
    requires ValidBase(base)
    ensures r.Some? ==> r.value < base
  {
    var d: int :=
      if IsDigit(c) then c as int - '0' as int
      else if IsLower(c) then c as int - 'a' as int + 10
      else if IsUpper(c) then c as int - 'A' as int + 10
      else 36;
    if d < base then Some(d) else None
  }

  lemma DigitCharValue(d: nat, base: int)
    requires ValidBase(base) && d < base
    ensures DigitValue(DigitChar(d), base) == Some(d)
  {
  }

  /** `n` written in `base` with lower-case digits and no leading zeros. */
  function FormatNat(n: nat, base: int): (r: string)
    requires ValidBase(base)
    ensures |r| >= 1
    ensures forall i :: 0 <= i < |r| ==> DigitValue(r[i], base).Some?
    ensures r[0] == '0' ==> n == 0
    decreases n
  {
    if n < base then
      DigitCharValue(n, base);
      [DigitChar(n)]
    else
      DivFacts(n, base);
      DigitCharValue(n % base, base);
      FormatNat(n / base, base) + [DigitChar(n % base)]
  }

  lemma DivFacts(n: nat, base: int)
    requires ValidBase(base) && n >= base
    ensures 1 <= n / base < n
    ensures 0 <= n % base < base
    ensures n == n / base * base + n % base
  {
  }

  /** The value of a string made only of digits of `base`. */
  function ParseNat(s: string, base: int): (r: nat)
    requires ValidBase(base)
    requires forall i :: 0 <= i < |s| ==> DigitValue(s[i], base).Some?
  {
    if s == [] then 0
    else
      var prefix := s[..|s| - 1];
      var p := ParseNat(prefix, base);
      NatProduct(p, base);
      p * base + DigitValue(s[|s| - 1], base).value
  }

  lemma NatProduct(a: nat, b: nat)
    ensures a * b >= 0
  {
  }

  /** Reading back what `FormatNat` wrote gives the number. */
  lemma {:induction false} ParseFormat(n: nat, base: int)
    requires ValidBase(base)
    ensures ParseNat(FormatNat(n, base), base) == n
    decreases n
  {
    if n >= base {
      DivFacts(n, base);
      var s := FormatNat(n, base);
      DigitCharValue(n % base, base);
      assert s[..|s| - 1] == FormatNat(n / base, base);
      ParseFormat(n / base, base);
    } else {
      DigitCharValue(n, base);
    }
  }

  function Pow(base: nat, k: nat): nat
  {
    if k == 0 then 1 else base * Pow(base, k - 1)
  }

  lemma MulMono(a: int, b: int, c: nat)
    requires a >= b
    ensures a * c >= b * c
  {
  }

  /** A number below base^k takes at most k digits. */
  lemma {:induction false} FormatNatLength(n: nat, base: int, k: nat)
    requires ValidBase(base) && k >= 1 && n < Pow(base, k)
    ensures |FormatNat(n, base)| <= k
    decreases n
  {
    if n >= base {
      DivFacts(n, base);
      var q := n / base;
      if k == 1 {
        assert false;
      }
      var p := Pow(base, k - 1);
      assert Pow(base, k) == base * p;
      if q >= p {
        MulMono(q, p, base);
        assert false;
      }
      FormatNatLength(q, base, k - 1);
    }
  }

  /** `strconv.FormatInt(n, base)` / `n.toString(base)` on integers. */
  function FormatInt(n: int, base: int): (r: string)
    requires ValidBase(base)
    ensures |r| >= 1
  {
    if n < 0 then "-" + FormatNat(-n, base) else FormatNat(n, base)
  }

  predicate AllDecimal(s: string)
  {
    forall i :: 0 <= i < |s| ==> IsDigit(s[i])
  }

  lemma DecimalDigits(s: string)
    requires AllDecimal(s)
    ensures forall i :: 0 <= i < |s| ==> DigitValue(s[i], 10).Some?
  {
  }

  /**
   * `strconv.Atoi`: an optional sign and at least one decimal digit, nothing
   * else. A syntax error gives (0, false); a value outside the 64-bit range
   * gives the nearest bound and false.
   */
  function Atoi(s: string): (r: (int, bool))
    ensures MinInt64 <= r.0 <= MaxInt64
    ensures !r.1 && r.0 != MaxInt64 && r.0 != MinInt64 ==> r.0 == 0
  {
    var neg := s != [] && s[0] == '-';
    var digits := if s != [] && (s[0] == '-' || s[0] == '+') then s[1..] else s;
    if digits == [] || !AllDecimal(digits) then (0, false)
    else
      DecimalDigits(digits);
      var p: int := ParseNat(digits, 10);
      var v := if neg then -p else p;
      if v > MaxInt64 then (MaxInt64, false)
      else if v < MinInt64 then (MinInt64, false)
      else (v, true)
  }

  /** `Atoi` reads back every 64-bit integer written in decimal. */
  lemma AtoiFormat(n: int)
    requires MinInt64 <= n <= MaxInt64
    ensures Atoi(FormatInt(n, 10)) == (n, true)
  {
    if n < 0 {
      AtoiNegative(-n);
    } else {
      AtoiNatural(n);
    }
  }

  /** The first character of a decimal rendering is a digit. */
  lemma DecimalLead(n: nat)
    ensures var f := FormatNat(n, 10);
            IsDigit(f[0]) && AllDecimal(f)
  {
    var f := FormatNat(n, 10);
    assert DigitValue(f[0], 10).Some?;
  }

  lemma AtoiNatural(n: nat)
    requires n <= MaxInt64
    ensures Atoi(FormatNat(n, 10)) == (n, true)
  {
    DecimalLead(n);
    ParseFormat(n, 10);
  }

  lemma AtoiNegative(m: nat)
    requires 0 < m <= -MinInt64
    ensures Atoi("-" + FormatNat(m, 10)) == (-(m as int), true)
  {
    var f := FormatNat(m, 10);
    var s := "-" + f;
    assert s[1..] == f;
    DecimalLead(m);
    ParseFormat(m, 10);
  }

  /** JavaScript's white space, restricted to ASCII. */
  predicate JsSpace(c: char) { IsSpace(c) }

  function SkipJsSpace(s: string): (r: string)
    ensures |r| <= |s| && r == s[|s| - |r|..]
    ensures r == [] || !JsSpace(r[0])
  {
    if s != [] && JsSpace(s[0]) then SkipJsSpace(s[1..]) else s
  }

  /** The longest prefix of `s` made of digits of `base`. */
  function DigitPrefix(s: string, base: int): (r: string)
    requires ValidBase(base)
    ensures |r| <= |s| && r == s[..|r|]
    ensures forall i :: 0 <= i < |r| ==> DigitValue(r[i], base).Some?
    ensures |r| < |s| ==> DigitValue(s[|r|], base).None?
  {
    if s != [] && DigitValue(s[0], base).Some? then [s[0]] + DigitPrefix(s[1..], base) else []
  }

  /** The digits at the front of `s` read in `base`; `None` when there are none. */
  function LeadingNumber(s: string, base: int): (r: Option<nat>)
    requires ValidBase(base)
  {
    var digits := DigitPrefix(s, base);
    if digits == [] then None else Some(ParseNat(digits, base))
  }

  /** An unsigned `parseInt` body: hexadecimal after "0x" or "0X", else decimal. */
  function ParseUnsigned(u: string): (r: Option<nat>)
  {
    if |u| >= 2 && u[0] == '0' && (u[1] == 'x' || u[1] == 'X') then LeadingNumber(u[2..], 16)
    else LeadingNumber(u, 10)
  }

  /**
   * `parseInt(s)` without a radix: leading white space, an optional sign, a
   * "0x" prefix for hexadecimal, then as many digits as there are; `None`
   * stands for NaN (no digit at all).
   */
  function ParseInt(s: string): (r: Option<int>)
  {
    var t := SkipJsSpace(s);
    if t != [] && t[0] == '-' then
      match ParseUnsigned(t[1..])
      case None => None
      case Some(v) => var m: int := v; Some(-m)
    else if t != [] && t[0] == '+' then
      match ParseUnsigned(t[1..])
      case None => None
      case Some(v) => Some(v)
    else
      match ParseUnsigned(t)
      case None => None
      case Some(v) => Some(v)
  }

  /** `parseInt` reads back every natural number written in decimal. */
  lemma ParseIntFormat(n: nat)
    ensures ParseInt(FormatNat(n, 10)) == Some(n)
  {
    var f := FormatNat(n, 10);
    DecimalLead(n);
    UnsignedText(f);
    LeadingFormat(n);
    assert |f| < 2 || IsDigit(f[1]);
  }

  /** Text that starts with a digit is read by `parseInt` without sign or space. */
  lemma UnsignedText(t: string)
    requires t != [] && IsDigit(t[0])
    ensures ParseUnsigned(t).None? ==> ParseInt(t) == None
    ensures ParseUnsigned(t).Some? ==> ParseInt(t) == Some(ParseUnsigned(t).value)
  {
    assert SkipJsSpace(t) == t;
  }

  lemma LeadingFormat(n: nat)
    ensures LeadingNumber(FormatNat(n, 10), 10) == Some(n)
  {
    var f := FormatNat(n, 10);
    DigitPrefixOf(f, []);
    assert f + [] == f;
    ParseFormat(n, 10);
  }

  lemma {:induction false} DigitPrefixOf(f: string, rest: string)
    requires forall i :: 0 <= i < |f| ==> DigitValue(f[i], 10).Some?
    requires rest == [] || !IsDigit(rest[0])
    ensures DigitPrefix(f + rest, 10) == f
  {
    if f != [] {
      assert (f + rest)[1..] == f[1..] + rest;
      DigitPrefixOf(f[1..], rest);
    }
  }
}
