/** Integer settings in terms of numbers and characters. */
module IniSuffixes {
  import opened IniGrammar
  import opened IniInteger

  /** A product, unless it does not fit into 64 bits. */
  function Scaled(n: int): IntResult {
    if -9223372036854775808 <= n <= 9223372036854775807 then Value(n) else Overflow
  }

  /**
   What every number comes to with every character behind it, and whatever follows that:
   kibi, mebi, gibi and tebi are the only multipliers, a NUL is none, and a number that
   is itself too long is invalid.
   */
  lemma SuffixExact(n: int, c: char, rest: string)
    ensures var r := IntegerOf(Decimal(n) + [c] + rest);
            (|| -9223372036854775808 <= n <= 9223372036854775807 || '0' <= c <= '9'
             || c in {' ', '\t', '\n', '\r', '\U{0B}', '\U{0C}'} || r == InvalidArgument)
    ensures var r := IntegerOf(Decimal(n) + [c] + rest);
            -9223372036854775808 <= n <= 9223372036854775807 ==>
              && (c in {'k', 'K'} ==> r == Scaled(n * 1024))
              && (c in {'m', 'M'} ==> r == Scaled(n * 1_048_576))
              && (c in {'g', 'G'} ==> r == Scaled(n * 1_073_741_824))
              && (c in {'t', 'T'} ==> r == Scaled(n * 1_099_511_627_776))
              && (c == '\0' ==> r == Value(n))
              && (|| c in {'k', 'K', 'm', 'M', 'g', 'G', 't', 'T', '\0'} || '0' <= c <= '9'
                  || c in {' ', '\t', '\n', '\r', '\U{0B}', '\U{0C}'} || r == InvalidArgument)
  {
    hide Decimal, IntegerOf;
    if !IsSpace(c) && !IsDigit(c) {
      IntegerRoundTrip(n, [c] + rest);
      assert Decimal(n) + ([c] + rest) == Decimal(n) + [c] + rest;
    }
  }

  /** Without a suffix the text is worth its number. */
  lemma PlainExact(n: int)
    ensures IntegerOf(Decimal(n))
            == if -9223372036854775808 <= n <= 9223372036854775807 then Value(n) else InvalidArgument
  {
    hide Decimal, IntegerOf;
    IntegerRoundTrip(n, "");
    assert Decimal(n) + "" == Decimal(n);
  }

  function PowerOf10(k: nat): (p: nat)
    ensures p > 0
  {
    if k == 0 then 1 else 10 * PowerOf10(k - 1)
  }

  lemma QuotientIs(d: nat, q: nat, r: nat)
    requires r < d
    ensures (d * q + r) / d == q
  {
    var n := d * q + r;
    var e: int := q - n / d;
    assert n == n / d * d + n % d;
    assert d * e == n % d - r;
    assert e >= 1 ==> d * e >= d;
    assert e <= -1 ==> d * e + d <= 0;
  }

  lemma DivideTwice(n: nat, p: nat)
    requires p > 0
    ensures n / 10 / p == n / (10 * p)
  {
    var m := n / 10;
    var q, r := m / p, m % p;
    assert m == p * q + r;
    assert n == (10 * p) * q + (10 * r + n % 10);
    QuotientIs(10 * p, q, 10 * r + n % 10);
  }

  /** The last digit, and all digits before it. */
  lemma DigitsStep(n: nat)
    ensures var s := Digits(n);
            && s[|s| - 1] as int == '0' as int + n % 10
            && (if n < 10 then |s| == 1 else s[..|s| - 1] == Digits(n / 10))
  {
  }

  /** The notation is the decimal one: from the right, the k-th character is the digit of ten to the k. */
  lemma {:induction false} DecimalNotation(n: nat, k: nat)
    ensures k < |Digits(n)| ==> Digits(n)[|Digits(n)| - 1 - k] as int == '0' as int + n / PowerOf10(k) % 10
    ensures |Digits(n)| <= k + 1 <==> n < PowerOf10(k + 1)
    decreases n
  {
    hide Digits;
    DigitsStep(n);
    var s, p := Digits(n), PowerOf10(k);
    if n < 10 {
      assert PowerOf10(k + 1) == 10 * p;
    } else if k > 0 {
      DecimalNotation(n / 10, k - 1);
      DivideTwice(n, PowerOf10(k - 1));
      assert k < |s| ==> s[|s| - 1 - k] == s[..|s| - 1][|s| - 1 - k];
      hide PowerOf10;
    }
  }
}
