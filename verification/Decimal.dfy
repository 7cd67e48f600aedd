/** The integer formatting verbs %d and %03d, with the parsers that show them to be injective. */
module Decimal {

  function DigitChar(d: nat): char
    requires d < 10
  {
    ('0' as int + d) as char
  }

  predicate IsDigit(c: char) {
    '0' <= c <= '9'
  }

  predicate AllDigits(s: string) {
    forall c <- s :: IsDigit(c)
  }

  /** Decimal digits of a natural number. */
  function Digits(n: nat): (s: string)
    ensures |s| > 0 && AllDigits(s)
  {
    if n < 10 then [DigitChar(n)] else Digits(n / 10) + [DigitChar(n % 10)]
  }

  /** %d */
  function Dec(n: int): string {
    if n < 0 then "-" + Digits(-n) else Digits(n)
  }

  /** Leading zeros. */
  function Zeros(k: nat): (s: string)
    ensures |s| == k && AllDigits(s) && forall i :: 0 <= i < k ==> s[i] == '0'
  {
    if k == 0 then "" else "0" + Zeros(k - 1)
  }

  /** %03d of a natural number: at least three characters, more when the number needs them. */
  function Pad3(n: nat): string {
    var s := Digits(n);
    if |s| < 3 then Zeros(3 - |s|) + s else s
  }

  /** Value of a string of digits. */
  function ParseDigits(s: string): nat
    requires AllDigits(s)
  {
    if s == "" then 0
    else
      var last := s[|s| - 1];
      assert last in s;
      10 * ParseDigits(s[..|s| - 1]) + (last as int - '0' as int)
  }

  lemma {:induction false} ParseUndoesDigits(n: nat)
    ensures ParseDigits(Digits(n)) == n
  {
    var s := Digits(n);
    if n < 10 {
      assert s[..|s| - 1] == "";
    } else {
      assert s[..|s| - 1] == Digits(n / 10);
      ParseUndoesDigits(n / 10);
    }
  }

  lemma {:induction false} ParseIgnoresZeros(k: nat, s: string)
    requires AllDigits(s)
    ensures ParseDigits(Zeros(k) + s) == ParseDigits(s)
    decreases k + |s|
  {
    var z := Zeros(k);
    if s != "" {
      assert (z + s)[..|z + s| - 1] == z + s[..|s| - 1];
      ParseIgnoresZeros(k, s[..|s| - 1]);
    } else if k > 0 {
      assert z + s == z && z[..k - 1] == Zeros(k - 1);
      assert Zeros(k - 1) + "" == Zeros(k - 1);
      ParseIgnoresZeros(k - 1, "");
    } else {
      assert z + s == s;
    }
  }

  lemma {:induction false} DigitsLead(n: nat)
    ensures Digits(n)[0] == '0' ==> n == 0 && Digits(n) == "0"
    decreases n
  {
    if n >= 10 {
      DigitsLead(n / 10);
      assert Digits(n)[0] == Digits(n / 10)[0];
    }
  }

  /** %d prints the number: a minus sign if it is negative, then its digits, without a leading zero unless it is 0. */
  lemma {:induction false} DecPrints(n: int)
    ensures var s := Dec(n);
            var digits := if n < 0 then s[1..] else s;
            && s != "" && (n < 0 ==> s[0] == '-')
            && AllDigits(digits) && ParseDigits(digits) == (if n < 0 then -n else n)
            && digits != "" && (digits[0] == '0' ==> n == 0 && digits == "0")
  {
    ParseUndoesDigits(if n < 0 then -n else n);
    DigitsLead(if n < 0 then -n else n);
    assert n < 0 ==> Dec(n)[1..] == Digits(-n);
  }

  /** %03d prints the number with at least three digits, and with a leading zero only when it has three. */
  lemma {:induction false} Pad3Prints(n: nat)
    ensures var s := Pad3(n);
            && |s| >= 3 && AllDigits(s) && ParseDigits(s) == n
            && (|s| > 3 ==> s[0] != '0')
  {
    ParseUndoesDigits(n);
    DigitsLead(n);
    var s := Digits(n);
    if |s| < 3 {
      ParseIgnoresZeros(3 - |s|, s);
    }
  }

  /** %d is injective over all integers. */
  lemma {:induction false} DecInjective(m: int, n: int)
    ensures Dec(m) == Dec(n) <==> m == n
  {
    ParseUndoesDigits(if m < 0 then -m else m);
    ParseUndoesDigits(if n < 0 then -n else n);
    assert m < 0 ==> Dec(m)[0] == '-' && Dec(m)[1..] == Digits(-m);
    assert n < 0 ==> Dec(n)[0] == '-' && Dec(n)[1..] == Digits(-n);
    assert m >= 0 ==> Dec(m)[0] in Dec(m) && IsDigit(Dec(m)[0]);
    assert n >= 0 ==> Dec(n)[0] in Dec(n) && IsDigit(Dec(n)[0]);
  }

  /** %03d is injective over all naturals, past 999 as well. */
  lemma {:induction false} Pad3Injective(m: nat, n: nat)
    ensures Pad3(m) == Pad3(n) <==> m == n
  {
    ParseUndoesDigits(m);
    ParseUndoesDigits(n);
    ParseIgnoresZeros(if |Digits(m)| < 3 then 3 - |Digits(m)| else 0, Digits(m));
    ParseIgnoresZeros(if |Digits(n)| < 3 then 3 - |Digits(n)| else 0, Digits(n));
    assert AllDigits(Pad3(m)) && AllDigits(Pad3(n));
    assert ParseDigits(Pad3(m)) == m;
    assert ParseDigits(Pad3(n)) == n;
  }
}
