/** Integer settings: a decimal number and an optional one-letter multiplier. */
module IniInteger {
  import opened IniGrammar

  const INT64_MAX := 0x7FFF_FFFF_FFFF_FFFF
  const INT64_MIN := -0x8000_0000_0000_0000

  predicate Fits(n: int) {
    INT64_MIN <= n <= INT64_MAX
  }

  /** The two ways to fail are two exceptions. */
  datatype IntResult = Value(value: int) | InvalidArgument | Overflow

  // ---- decimal numbers ---------------------------------------------------------------------

  predicate IsDigit(c: char) {
    '0' <= c <= '9'
  }

  predicate AllDigits(s: string) {
    forall i | 0 <= i < |s| :: IsDigit(s[i])
  }

  function DigitValue(c: char): nat
    requires IsDigit(c)
  {
    c as int - '0' as int
  }

  function Number(s: string): nat
    requires AllDigits(s)
  {
    if s == "" then 0 else Number(s[..|s| - 1]) * 10 + DigitValue(s[|s| - 1])
  }

  function DigitChar(d: nat): (c: char)
    requires d < 10
    ensures IsDigit(c) && DigitValue(c) == d
  {
    '0' + d as char
  }

  function Digits(n: nat): (s: string)
    ensures s != "" && AllDigits(s)
  {
    if n < 10 then [DigitChar(n)] else Digits(n / 10) + [DigitChar(n % 10)]
  }

  lemma {:induction false} NumberOfDigits(n: nat)
    ensures Number(Digits(n)) == n
  {
    if n >= 10 {
      NumberOfDigits(n / 10);
      var s := Digits(n);
      assert s[..|s| - 1] == Digits(n / 10);
    } else {
      assert Number([DigitChar(n)][..0]) == 0;
    }
  }

  function Decimal(n: int): string {
    if n < 0 then "-" + Digits(-n) else Digits(n)
  }

  // ---- what the stream reads ------------------------------------------------------------------

  function DigitsEnd(s: string, pos: nat): (r: nat)
    requires pos <= |s|
    ensures pos <= r <= |s|
    ensures forall i | pos <= i < r :: IsDigit(s[i])
    ensures r < |s| ==> !IsDigit(s[r])
    decreases |s| - pos
  {
    if pos < |s| && IsDigit(s[pos]) then DigitsEnd(s, pos + 1) else pos
  }

  predicate HasSign(s: string, pos: nat) {
    pos < |s| && (s[pos] == '-' || s[pos] == '+')
  }

  /** Where the number starts behind its sign, and where it ends. */
  function NumberStart(s: string): (r: nat)
    ensures r <= |s|
  {
    var b := SkipWs(s, 0);
    if HasSign(s, b) then b + 1 else b
  }

  function NumberEnd(s: string): (r: nat)
    ensures NumberStart(s) <= r <= |s|
    ensures AllDigits(s[NumberStart(s)..r])
  {
    DigitsEnd(s, NumberStart(s))
  }

  predicate Negative(s: string) {
    var b := SkipWs(s, 0);
    b < |s| && s[b] == '-'
  }

  function Signed(negative: bool, n: int): int {
    if negative then -n else n
  }

  function SignedNumber(s: string): int {
    Signed(Negative(s), Number(s[NumberStart(s)..NumberEnd(s)]))
  }

  /** The first character behind the number that is not space, NUL if there is none. */
  function SuffixChar(s: string): char {
    var i := SkipWs(s, NumberEnd(s));
    if i < |s| then s[i] else '\0'
  }

  function Multiplier(c: char): nat {
    match c
    case 'k' => 1024
    case 'K' => 1024
    case 'm' => 1024 * 1024
    case 'M' => 1024 * 1024
    case 'g' => 1024 * 1024 * 1024
    case 'G' => 1024 * 1024 * 1024
    case 't' => 1024 * 1024 * 1024 * 1024
    case 'T' => 1024 * 1024 * 1024 * 1024
    case _ => 0
  }

  // ---- the overflow guard -----------------------------------------------------------------------

  /** Division as C++ does it: the quotient is cut off toward zero. */
  function TruncDiv(a: int, b: int): int
    requires b > 0
  {
    if a >= 0 then a / b else -((-a) / b)
  }

  predicate Guarded(n: int, m: int)
    requires m > 0
  {
    n != 0 && (n > TruncDiv(INT64_MAX, m) || n < TruncDiv(INT64_MIN, m))
  }

  lemma DivBound(a: nat, n: int, m: int)
    requires m > 0
    ensures n > a / m <==> n * m > a
  {
    var q := a / m;
    assert a == q * m + a % m;
    if n > q {
      assert n * m >= (q + 1) * m;
    } else {
      assert n * m <= q * m;
    }
  }

  /** The guard rejects exactly the products that do not fit. */
  lemma GuardExact(n: int, m: int)
    requires m > 0
    ensures !Guarded(n, m) <==> Fits(n * m)
  {
    DivBound(INT64_MAX, n, m);
    DivBound(-INT64_MIN, -n, m);
    assert (-n) * m == -(n * m);
  }

  // ---- reading an integer ---------------------------------------------------------------------------

  /** What the text of a setting comes to, from its parts. */
  function Worth(n: int, suffix: char): IntResult {
    if !Fits(n) then InvalidArgument
    else if suffix == '\0' then Value(n)
    else if Multiplier(suffix) == 0 then InvalidArgument
    else if !Fits(n * Multiplier(suffix)) then Overflow
    else Value(n * Multiplier(suffix))
  }

  /** The parts of a text that begins with a number. */
  datatype Parts = Parts(lead: string, sign: string, digits: string, gap: string, tail: string)

  ghost predicate Splits(s: string, p: Parts) {
    && s == p.lead + p.sign + p.digits + p.gap + p.tail
    && AllSpace(p.lead) && p.sign in {"", "-", "+"} && p.digits != "" && AllDigits(p.digits)
    && AllSpace(p.gap)
    && (p.tail != "" ==> !IsSpace(p.tail[0]) && (p.gap == "" ==> !IsDigit(p.tail[0])))
  }

  function PartsWorth(p: Parts): IntResult
    requires AllDigits(p.digits)
  {
    Worth(Signed(p.sign == "-", Number(p.digits)), if p.tail == "" then '\0' else p.tail[0])
  }

  function IntegerOf(s: string): IntResult {
    if NumberEnd(s) == NumberStart(s) then InvalidArgument else Worth(SignedNumber(s), SuffixChar(s))
  }

  lemma OneMoreDigit(s: string, b: nat, e: nat)
    requires b <= e < |s| && AllDigits(s[b..e]) && IsDigit(s[e])
    ensures AllDigits(s[b..e + 1]) && Number(s[b..e + 1]) == Number(s[b..e]) * 10 + DigitValue(s[e])
    ensures DigitsEnd(s, e) == DigitsEnd(s, e + 1)
  {
    assert s[b..e + 1][..e - b] == s[b..e];
  }

  /** The parts of the number from where its digits start and end. */
  lemma NumberIs(s: string, b: nat, e: nat)
    requires NumberStart(s) == b && b <= e <= |s| && DigitsEnd(s, b) == e
    ensures NumberEnd(s) == e && AllDigits(s[b..e])
    ensures SignedNumber(s) == Signed(Negative(s), Number(s[b..e]))
  {
    hide NumberStart, DigitsEnd, Number, Negative;
  }

  lemma DigitsStop(s: string, e: nat)
    requires e <= |s| && (e < |s| ==> !IsDigit(s[e]))
    ensures DigitsEnd(s, e) == e
  {
  }

  /** The stream's extraction of a number: false if there is none or it is out of range. */
  method ReadNumber(s: string) returns (ok: bool, ipart: int, end: nat)
    ensures end == NumberEnd(s)
    ensures ok == (NumberEnd(s) != NumberStart(s) && Fits(SignedNumber(s)))
    ensures ok ==> ipart == SignedNumber(s)
  {
    hide Number, AllDigits, DigitsEnd, SkipWs, Fits, DigitValue, IsDigit, NumberEnd, SignedNumber;
    var b := SkipWs(s, 0);
    var negative := false;
    if b < |s| && (s[b] == '-' || s[b] == '+') {
      negative := s[b] == '-';
      b := b + 1;
    }
    assert NumberStart(s) == b && Negative(s) == negative;
    hide NumberStart, Negative, HasSign;
    end := b;
    var n := 0;
    assert AllDigits(s[b..end]) && Number(s[b..end]) == 0 by { NoDigits(s[b..end]); }
    while end < |s| && IsDigit(s[end])
      invariant b <= end <= |s| && AllDigits(s[b..end]) && n == Number(s[b..end])
      invariant DigitsEnd(s, b) == DigitsEnd(s, end)
    {
      OneMoreDigit(s, b, end);
      n := n * 10 + DigitValue(s[end]);
      end := end + 1;
    }
    DigitsStop(s, end);
    NumberIs(s, b, end);
    ipart := if negative then -n else n;
    ok := end > b && Fits(ipart);
  }

  lemma NoDigits(s: string)
    requires s == ""
    ensures AllDigits(s) && Number(s) == 0
  {
  }

  method ReadInteger(s: string) returns (r: IntResult)
    ensures r == IntegerOf(s)
  {
    hide SkipWs, NumberStart, NumberEnd, SignedNumber, DigitsEnd;
    var ok, ipart, end := ReadNumber(s);
    if !ok {
      return InvalidArgument;
    }
    var i := SkipWs(s, end);
    var cpart := if i < |s| then s[i] else '\0';
    assert cpart == SuffixChar(s);
    hide SuffixChar, Multiplier;
    if cpart == '\0' {
      return Value(ipart);
    }
    var multiplier := Multiplier(cpart);
    if multiplier == 0 {
      return InvalidArgument;
    }
    GuardExact(ipart, multiplier);
    if ipart != 0 && (ipart > TruncDiv(INT64_MAX, multiplier) || ipart < TruncDiv(INT64_MIN, multiplier)) {
      return Overflow;
    }
    return Value(ipart * multiplier);
  }

  lemma SignsAreNeither()
    ensures forall c | c == '-' || c == '+' :: !IsSpace(c) && !IsDigit(c)
    ensures forall c | IsDigit(c) :: !IsSpace(c)
  {
  }

  lemma PartsFound(s: string, p: Parts)
    requires Splits(s, p)
    ensures NumberStart(s) == |p.lead| + |p.sign| && NumberEnd(s) == |p.lead| + |p.sign| + |p.digits|
    ensures s[NumberStart(s)..NumberEnd(s)] == p.digits
    ensures SuffixChar(s) == if p.tail == "" then '\0' else p.tail[0]
    ensures SignedNumber(s) == Signed(p.sign == "-", Number(p.digits))
  {
    hide SkipWs, DigitsEnd, Number, IsSpace, Signed;
    SignsAreNeither();
    var a := |p.lead|;
    var b := a + |p.sign|;
    var e := b + |p.digits|;
    var t := e + |p.gap|;
    assert forall i | 0 <= i < a :: s[i] == p.lead[i];
    assert forall i | b <= i < e :: s[i] == p.digits[i - b];
    assert s[a..b] == p.sign && s[b..e] == p.digits;
    assert forall i | e <= i < t :: s[i] == p.gap[i - e];
    assert t < |s| ==> s[t] == p.tail[0];
    assert s[b] == p.digits[0];
    if p.sign != "" {
      assert s[a] == p.sign[0];
    }
    assert SkipWs(s, 0) == a;
    assert NumberStart(s) == b;
    assert e < |s| ==> !IsDigit(s[e]);
    assert DigitsEnd(s, b) == e;
    assert SkipWs(s, e) == t;
  }

  lemma PartsExist(s: string) returns (p: Parts)
    requires NumberEnd(s) != NumberStart(s)
    ensures Splits(s, p)
  {
    hide SkipWs, DigitsEnd, Number;
    var a := SkipWs(s, 0);
    var b, e := NumberStart(s), NumberEnd(s);
    var t := SkipWs(s, e);
    p := Parts(s[..a], s[a..b], s[b..e], s[e..t], s[t..]);
    assert s == p.lead + p.sign + p.digits + p.gap + p.tail;
    if b > a {
      assert p.sign == [s[a]];
    }
  }

  /**
   Every text either has the parts of a number, and then whichever way it is divided
   the parts say what it is worth, or it is invalid.
   */
  lemma IntegerExact(s: string)
    ensures (exists p :: Splits(s, p)) || IntegerOf(s) == InvalidArgument
    ensures forall p | Splits(s, p) :: IntegerOf(s) == PartsWorth(p)
  {
    hide Splits;
    if NumberEnd(s) != NumberStart(s) {
      var p := PartsExist(s);
    }
    forall p | Splits(s, p)
      ensures AllDigits(p.digits) && IntegerOf(s) == PartsWorth(p)
    {
      PartsWorthIt(s, p);
    }
  }

  lemma PartsWorthIt(s: string, p: Parts)
    requires Splits(s, p)
    ensures AllDigits(p.digits) && IntegerOf(s) == PartsWorth(p)
  {
    PartsFound(s, p);
    hide NumberStart, NumberEnd, SuffixChar, SignedNumber, Worth;
  }

  /** A printed number with a suffix is worth what it says, for every number. */
  lemma IntegerRoundTrip(n: int, suffix: string)
    requires suffix == "" || (!IsSpace(suffix[0]) && !IsDigit(suffix[0]))
    ensures IntegerOf(Decimal(n) + suffix) == Worth(n, if suffix == "" then '\0' else suffix[0])
  {
    hide Digits, Number, Worth, IntegerOf;
    var m := if n < 0 then -n else n;
    var p := Parts("", if n < 0 then "-" else "", Digits(m), "", suffix);
    assert Decimal(n) + suffix == p.lead + p.sign + p.digits + p.gap + p.tail;
    NumberOfDigits(m);
    PartsWorthIt(Decimal(n) + suffix, p);
  }
}
