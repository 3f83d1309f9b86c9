/** The parser of user-defined integer literals, for unsigned types of any width. */
module Literal {

  datatype Status = Valid | OutOfRange | InvalidCharacterSequence

  predicate IsDigit(c: char) {
    '0' <= c <= '9'
  }

  function DigitValue(c: char): nat
    requires IsDigit(c)
  {
    c as nat - '0' as nat
  }

  /** The digits are the ten decimal ones, each with its own value. */
  lemma Digits(c: char, k: nat)
    ensures IsDigit(c) <==> c in "0123456789"
    ensures k < 10 ==> IsDigit("0123456789"[k]) && DigitValue("0123456789"[k]) == k
  {
    if IsDigit(c) {
      assert "0123456789"[c as nat - '0' as nat] == c;
    }
  }

  predicate WellFormed(s: string) {
    forall i :: 0 <= i < |s| ==> IsDigit(s[i]) || s[i] == '\''
  }

  /** `s` without its separators. */
  function Strip(s: string): string {
    if s == "" then ""
    else Strip(s[..|s| - 1]) + (if s[|s| - 1] == '\'' then "" else [s[|s| - 1]])
  }

  function Power10(n: nat): nat {
    if n == 0 then 1 else 10 * Power10(n - 1)
  }

  function Power2(n: nat): (r: nat)
    ensures r >= 1
  {
    if n == 0 then 1 else 2 * Power2(n - 1)
  }

  lemma {:induction false} Power2Adds(a: nat, b: nat)
    ensures Power2(a + b) == Power2(a) * Power2(b)
  {
    if a == 0 {
      Times(1, 1, Power2(b));
    } else {
      Power2Adds(a - 1, b);
      assert a + b - 1 == a - 1 + b;
      Times(2, Power2(a - 1), Power2(b));
    }
  }

  lemma Times(k: nat, x: nat, y: nat)
    ensures (k * x) * y == k * (x * y)
  {
  }

  lemma Power2Small()
    ensures Power2(1) == 2 && Power2(2) == 4
  {
  }

  /** The moduli of the four unsigned types. */
  lemma {:induction false} Moduli()
    ensures Power2(1) == 2 && Power2(8) == 256 && Power2(16) == 65536
    ensures Power2(32) == 0x1_0000_0000 && Power2(64) == 0x1_0000_0000_0000_0000
  {
    hide Power2;
    Power2Small();
    Power2Adds(2, 2);
    Power2Adds(4, 4);
    Power2Adds(8, 8);
    Power2Adds(16, 16);
    Power2Adds(32, 32);
  }

  /** The number a decimal numeral denotes: each digit times the power of ten of its place. */
  function Denotes(digits: string): nat
    requires AllDigits(digits)
  {
    if digits == "" then 0
    else DigitValue(digits[0]) * Power10(|digits| - 1) + Denotes(digits[1..])
  }

  predicate AllDigits(s: string) {
    forall i :: 0 <= i < |s| ==> IsDigit(s[i])
  }

  lemma {:induction false} StripAppend(s: string, c: char)
    ensures Strip(s + [c]) == Strip(s) + (if c == '\'' then "" else [c])
  {
    assert (s + [c])[..|s|] == s;
  }

  lemma StripEmpty()
    ensures Strip("") == "" && Denotes("") == 0
  {
  }

  lemma TimesTen(d: nat, p: nat)
    ensures d * (10 * p) == 10 * (d * p)
  {
  }

  /** The place-value sum obeys Horner's rule. */
  lemma {:induction false} DenotesAppend(digits: string, c: char)
    requires AllDigits(digits) && IsDigit(c)
    ensures Denotes(digits + [c]) == 10 * Denotes(digits) + DigitValue(c)
  {
    if digits == "" {
      assert digits + [c] == [c];
      assert Power10(0) == 1 && [c][1..] == "";
    } else {
      var rest := digits[1..];
      assert (digits + [c])[1..] == rest + [c];
      DenotesAppend(rest, c);
      TimesTen(DigitValue(digits[0]), Power10(|rest|));
      assert Power10(|digits|) == 10 * Power10(|rest|);
    }
  }

  /** Quotient and remainder are unique. */
  lemma RemainderIs(x: nat, m: nat, q: int, r: nat)
    requires r < m && x == m * q + r
    ensures x % m == r
  {
    var d := x / m - q;
    assert x == m * (x / m) + x % m;
    assert m * d == r - x % m;
    assert (d >= 1 ==> m * d >= m) && (d <= -1 ==> m * d + m <= 0);
  }

  /** One step of the loop, on residues. */
  lemma ResidueStep(n: nat, d: nat, m: nat)
    requires m > 0
    ensures ((n % m) * 10 + d) % m == (10 * n + d) % m
  {
    var q, x := n / m, (n % m) * 10 + d;
    assert n == m * q + n % m;
    assert x == m * (x / m) + x % m;
    assert m * (10 * q + x / m) == 10 * (m * q) + m * (x / m);
    RemainderIs(10 * n + d, m, 10 * q + x / m, x % m);
  }

  /** `parse_literal` for an unsigned type of `width` bits: the arithmetic wraps. */
  method ParseLiteral(width: nat, str: string) returns (status: Status, value: nat)
    ensures status.Valid? <==> WellFormed(str)
    ensures !status.OutOfRange?
    ensures !WellFormed(str) ==> value == 0
    ensures WellFormed(str) ==> AllDigits(Strip(str)) && value == Denotes(Strip(str)) % Power2(width)
  {
    hide Strip, Denotes, Power2, DigitValue;
    var modulus := Power2(width);
    StripEmpty();
    RemainderIs(0, modulus, 0, 0);
    var sum: nat := 0;
    for k := 0 to |str|
      invariant WellFormed(str[..k]) && AllDigits(Strip(str[..k]))
      invariant sum == Denotes(Strip(str[..k])) % modulus
    {
      var digit := str[k];
      assert str[..k + 1] == str[..k] + [digit];
      StripAppend(str[..k], digit);
      if !IsDigit(digit) && digit != '\'' {
        assert !WellFormed(str);
        return InvalidCharacterSequence, 0;
      }
      if IsDigit(digit) {
        DenotesAppend(Strip(str[..k]), digit);
        ResidueStep(Denotes(Strip(str[..k])), DigitValue(digit), modulus);
        sum := (sum * 10 + DigitValue(digit)) % modulus;
      }
      assert Strip(str[..k]) + "" == Strip(str[..k]);
    }
    assert str[..|str|] == str;
    status := if sum > modulus - 1 then OutOfRange else Valid;
    value := sum;
  }

  // ---------------------------------------------------------------------------------------------
  // Printing and parsing

  function Print(n: nat): (s: string)
    ensures AllDigits(s)
  {
    if n < 10 then [n as char + '0'] else Print(n / 10) + [(n % 10) as char + '0']
  }

  lemma {:induction false} PrintDenotes(n: nat)
    ensures Denotes(Print(n)) == n
  {
    if n < 10 {
      assert Print(n)[1..] == "";
    } else {
      PrintDenotes(n / 10);
      DenotesAppend(Print(n / 10), (n % 10) as char + '0');
    }
  }

  lemma {:induction false} StrippedIsWellFormed(t: string)
    requires AllDigits(Strip(t))
    ensures WellFormed(t)
  {
    if t != "" {
      var init, c := t[..|t| - 1], t[|t| - 1];
      assert t == init + [c];
      StripAppend(init, c);
      assert forall i :: 0 <= i < |Strip(init)| ==> Strip(init)[i] == Strip(t)[i];
      if c != '\'' {
        assert Strip(t)[|Strip(init)|] == c;
      }
      StrippedIsWellFormed(init);
    }
  }

  /** Printing any number, with separators put in anywhere, gives a literal that parses, and parses to
      that number exactly when it fits the type; a larger one is not reported but reduced. */
  lemma {:induction false} RoundTrip(n: nat, t: string, width: nat)
    requires Strip(t) == Print(n)
    ensures WellFormed(t)
    ensures Denotes(Strip(t)) % Power2(width) == n <==> n < Power2(width)
  {
    StrippedIsWellFormed(t);
    PrintDenotes(n);
    if n < Power2(width) {
      RemainderIs(n, Power2(width), 0, n);
    }
  }
}
