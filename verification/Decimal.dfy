/** Decimal numerals: the two itoa functions (services/api/internal/moderation/repository.go and
    services/api/internal/live/repository.go) and parseInt
    (services/api/internal/http/handlers/moderation.go), all on 64-bit integers. */
module Decimal {
  import opened Options

  const DIGITS := "0123456789"

  predicate Digits(s: string) {
    forall i :: 0 <= i < |s| ==> '0' <= s[i] <= '9'
  }

  function DigitOf(c: char): (d: nat)
    requires '0' <= c <= '9'
    ensures d < 10 && DIGITS[d] == c
  {
    c as int - '0' as int
  }

  /** The number a numeral stands for; the empty numeral stands for 0. */
  function Value(s: string): nat
    requires Digits(s)
  {
    if s == "" then 0 else Value(s[..|s| - 1]) * 10 + DigitOf(s[|s| - 1])
  }

  function Print(n: nat): (s: string)
    ensures s != "" && Digits(s)
  {
    if n < 10 then [DIGITS[n]] else Print(n / 10) + [DIGITS[n % 10]]
  }

  lemma DigitPrinted(d: nat)
    requires d < 10
    ensures '0' <= DIGITS[d] <= '9' && DigitOf(DIGITS[d]) == d
  {
  }

  /** Printing and reading are inverse on all naturals. */
  lemma {:induction false} ValuePrint(n: nat)
    ensures Value(Print(n)) == n
  {
    DigitPrinted(n % 10);
    if n < 10 {
      assert Print(n)[..0] == "";
    } else {
      ValuePrint(n / 10);
      assert Print(n)[..|Print(n)| - 1] == Print(n / 10);
    }
  }

  predicate Canonical(s: string) {
    s != "" && Digits(s) && (|s| == 1 || s[0] != '0')
  }

  lemma {:induction false} ValuePositive(s: string)
    requires Canonical(s) && s != "0"
    ensures Value(s) > 0
  {
    if |s| > 1 { ValuePositive(s[..|s| - 1]); } else { assert s == [s[0]]; }
  }

  /** Reading and printing are inverse on exactly the numerals without superfluous zeros. */
  lemma {:induction false} PrintValue(s: string)
    requires Digits(s)
    ensures Print(Value(s)) == s <==> Canonical(s)
  {
    if Canonical(s) {
      PrintCanonical(s);
    } else {
      PrintedIsCanonical(Value(s));
    }
  }

  lemma {:induction false} PrintCanonical(s: string)
    requires Canonical(s)
    ensures Print(Value(s)) == s
  {
    var front := s[..|s| - 1];
    if |s| == 1 {
      assert front == "" && s == [s[0]];
    } else {
      PrintCanonical(front);
      ValuePositive(front);
      PrintNext(Value(front), s[|s| - 1]);
      assert s == front + [s[|s| - 1]];
    }
  }

  lemma PrintNext(n: nat, c: char)
    requires n > 0 && '0' <= c <= '9'
    ensures Print(n * 10 + DigitOf(c)) == Print(n) + [c]
  {
    assert (n * 10 + DigitOf(c)) / 10 == n;
  }

  lemma {:induction false} PrintedIsCanonical(n: nat)
    ensures Canonical(Print(n)) && (n > 0 ==> Print(n)[0] != '0')
  {
    if n >= 10 { PrintedIsCanonical(n / 10); }
  }

  // ---------- itoa, twice ----------

  // One turn of either loop moves the last digit of k to the front of what is done.
  lemma NextDigit(k: nat, done: string, whole: string)
    requires k > 0 && Print(k) + done == whole
    ensures if k >= 10 then Print(k / 10) + ([DIGITS[k % 10]] + done) == whole else [DIGITS[k % 10]] + done == whole
  {
    assert k >= 10 ==> Print(k / 10) + ([DIGITS[k % 10]] + done) == Print(k) + done;
  }

  // Out of range for the digit table below zero: the moderation package numbers placeholders from 1.
  method Itoa(n: int) returns (s: string)
    requires n >= 0
    ensures s == Print(n)
  {
    if n < 10 {
      return [DIGITS[n]];
    }
    var k := n;
    s := [];
    while k > 0
      invariant 0 <= k <= n
      invariant k > 0 ==> Print(k) + s == Print(n)
      invariant k == 0 ==> s == Print(n)
    {
      NextDigit(k, s, Print(n));
      s := [DIGITS[k % 10]] + s;
      k := k / 10;
    }
  }

  // The live package's version accepts every integer, and prints negative ones as nothing.
  method ItoaLive(i: int) returns (s: string)
    ensures s == if i < 0 then "" else Print(i)
  {
    if i == 0 {
      return "0";
    }
    var k := i;
    s := "";
    while k > 0
      invariant i < 0 ==> k == i && s == ""
      invariant 0 <= i ==> 0 <= k <= i
      invariant k > 0 ==> Print(k) + s == Print(i)
      invariant k == 0 ==> s == Print(i)
    {
      NextDigit(k, s, Print(i));
      DigitPrinted(k % 10);
      s := [('0' as int + k % 10) as char] + s;
      k := k / 10;
    }
  }

  // ---------- parseInt ----------

  const TWO_63 := 0x8000_0000_0000_0000
  const TWO_64 := 0x1_0000_0000_0000_0000

  // Two's-complement wrap-around of a 64-bit integer.
  function Wrap(x: int): (r: int)
    ensures -TWO_63 <= r < TWO_63
  {
    (x + TWO_63) % TWO_64 - TWO_63
  }

  lemma WrapShift(x: int, k: int)
    ensures Wrap(x + k * TWO_64) == Wrap(x)
  {
    var a := x + TWO_63;
    assert a == TWO_64 * (a / TWO_64) + a % TWO_64;
    ModUnique(a + k * TWO_64, a / TWO_64 + k, a % TWO_64);
  }

  lemma ModUnique(x: int, q: int, r: int)
    requires 0 <= r < TWO_64 && x == q * TWO_64 + r
    ensures x % TWO_64 == r
  {
    var d := x / TWO_64 - q;
    assert x % TWO_64 - r == -d * TWO_64;
    assert -TWO_64 < -d * TWO_64 < TWO_64;
  }

  lemma WrapTimesTen(a: int, d: int)
    ensures Wrap(Wrap(a) * 10 + d) == Wrap(a * 10 + d)
  {
    var k := (a + TWO_63) / TWO_64;
    assert Wrap(a) == a - k * TWO_64;
    WrapShift(a * 10 + d, -k * 10);
  }

  method ParseInt(s: string) returns (r: Option<int>)
    ensures r == if Digits(s) then Some(Wrap(Value(s))) else None
  {
    var n := 0;
    for i := 0 to |s|
      invariant Digits(s[..i])
      invariant n == Wrap(Value(s[..i]))
    {
      var c := s[i];
      if c < '0' || c > '9' {
        return None;
      }
      assert s[..i + 1][..i] == s[..i];
      WrapTimesTen(Value(s[..i]), DigitOf(c));
      n := Wrap(n * 10 + (c as int - '0' as int));
    }
    assert s[..|s|] == s;
    r := Some(n);
  }

  /** parseInt reads the number written in exactly the numerals below 2^63; longer ones come out as
      some other number, without an error. */
  lemma ReadsNumberIff(s: string)
    requires Digits(s)
    ensures Wrap(Value(s)) == Value(s) <==> Value(s) < TWO_63
  {
  }

  /** What itoa prints, parseInt reads back, for every nonnegative 64-bit integer. */
  lemma ItoaParseInt(n: nat)
    requires n < TWO_63
    ensures Digits(Print(n)) && Wrap(Value(Print(n))) == n
  {
    ValuePrint(n);
  }
}
