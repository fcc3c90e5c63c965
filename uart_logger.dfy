/**
 * The debug logger's number formatting (uartLogger.c): a signed 32-bit
 * number written into a character array as a NUL-terminated decimal
 * string, and sent up to its terminator.  The serial port itself is not
 * modelled; sending returns the characters that would go out.
 */
module UartLogger {

  const Int32Min: int := -0x8000_0000
  const Int32Max: int := 0x7fff_ffff

  /** The space sendNumSigned reserves, terminator included. */
  const NumStringSize: nat := 6

  function Pow10(k: nat): (p: nat)
    ensures p >= 1
  {
    if k == 0 then 1 else 10 * Pow10(k - 1)
  }

  lemma {:induction false} Pow10Monotone(j: nat, k: nat)
    requires j <= k
    ensures Pow10(j) <= Pow10(k)
  {
    if j < k {
      Pow10Monotone(j, k - 1);
    }
  }

  /** The character of a decimal digit. */
  function DigitChar(d: int): (c: char)
    requires 0 <= d < 10
    ensures '0' <= c <= '9'
  {
    ('0' as int + d) as char
  }

  /** The value of a decimal digit character. */
  function DigitValue(c: char): int {
    c as int - '0' as int
  }

  function IsDigit(c: char): bool {
    '0' <= c <= '9'
  }

  /** The decimal representation of n, most significant digit first and
      without leading zeros (zero is "0"). */
  function Digits(n: nat): (s: seq<char>)
    ensures |s| >= 1
    ensures forall k :: 0 <= k < |s| ==> IsDigit(s[k])
    decreases n
  {
    if n < 10 then [DigitChar(n)] else Digits(n / 10) + [DigitChar(n % 10)]
  }

  /** The exact decimal digit count, the value of (int)log10(n) + 1. */
  function DigitCount(n: nat): nat {
    |Digits(n)|
  }

  /** n has d digits exactly when 10^(d-1) <= n < 10^d. */
  lemma {:induction false} DigitCountBounds(n: nat)
    ensures n > 0 ==> Pow10(DigitCount(n) - 1) <= n
    ensures n < Pow10(DigitCount(n))
    decreases n
  {
    if n >= 10 {
      DigitCountBounds(n / 10);
      assert DigitCount(n) == DigitCount(n / 10) + 1;
    }
  }

  /** A non-negative number has at most k digits iff it is below 10^k. */
  lemma DigitCountAtMost(n: nat, k: nat)
    requires k >= 1
    ensures DigitCount(n) <= k <==> n < Pow10(k)
  {
    DigitCountBounds(n);
    if DigitCount(n) <= k {
      Pow10Monotone(DigitCount(n), k);
    } else {
      Pow10Monotone(k, DigitCount(n) - 1);
    }
  }

  /** The text numToString produces, before the terminator. */
  function Render(num: int): (s: seq<char>)
    ensures |s| >= 1 && '\0' !in s
  {
    if num < 0 then ['-'] + Digits(-num) else Digits(num)
  }

  /** Reads a run of decimal digits. */
  function ParseDigits(s: seq<char>): int {
    if |s| == 0 then 0 else ParseDigits(s[..|s| - 1]) * 10 + DigitValue(s[|s| - 1])
  }

  /** Reads an optionally signed decimal number. */
  function ParseSigned(s: seq<char>): int {
    if |s| > 0 && s[0] == '-' then -ParseDigits(s[1..]) else ParseDigits(s)
  }

  lemma {:induction false} ParseDigitsOfDigits(n: nat)
    ensures ParseDigits(Digits(n)) == n
    decreases n
  {
    if n >= 10 {
      var s := Digits(n);
      assert s[..|s| - 1] == Digits(n / 10);
      ParseDigitsOfDigits(n / 10);
    }
  }

  /** Reading the rendered text gives the number back. */
  lemma RenderRoundTrip(num: int)
    ensures ParseSigned(Render(num)) == num
  {
    if num < 0 {
      assert Render(num)[1..] == Digits(-num);
      ParseDigitsOfDigits(-num);
    } else {
      ParseDigitsOfDigits(num);
      assert IsDigit(Render(num)[0]);
    }
  }

  /** The rendered text and its terminator fit in the six characters
      sendNumSigned reserves exactly for -9999 to 99999. */
  lemma RenderFitsNumString(num: int)
    ensures |Render(num)| + 1 <= NumStringSize <==> -9999 <= num <= 99999
  {
    if num < 0 {
      DigitCountAtMost(-num, 4);
    } else {
      DigitCountAtMost(num, 5);
    }
  }

  /**
   * numToString: writes the sign, then the digits from the least
   * significant end backwards, then the terminator.  `num` must not be the
   * most negative 32-bit value, whose negation overflows, and `str` must
   * hold the text and its terminator.
   */
  method NumToString(num: int, str: array<char>)
    requires Int32Min < num <= Int32Max
    requires str.Length >= |Render(num)| + 1
    modifies str
    ensures str[..|Render(num)|] == Render(num)
    ensures str[|Render(num)|] == '\0'
    ensures str[|Render(num)| + 1..] == old(str[..])[|Render(num)| + 1..]
  {
    var neg := 0;
    var n := num;
    if n < 0 {
      str[0] := '-';
      neg := 1;
      n := -n;
    } else if n == 0 {
      str[0] := '0';
      str[1] := '\0';
      ZeroText(str, old(str[..]));
      return;
    }
    assert str[..] == if num < 0 then old(str[..])[0 := '-'] else old(str[..]);
    WriteTerminatedDigits(n, neg, str);
    SignedText(str, old(str[..]), num, neg, n);
  }

  /** What the zero branch leaves: "0" and the terminator. */
  lemma ZeroText(str: array<char>, s: seq<char>)
    requires 2 <= str.Length == |s| && str[..] == s[0 := '0'][1 := '\0']
    ensures str[..|Render(0)|] == Render(0) && str[|Render(0)|] == '\0'
    ensures str[|Render(0)| + 1..] == s[|Render(0)| + 1..]
  {
    assert Render(0) == ['0'];
  }

  /** What the other branches leave: the sign, when there is one, then the
      digits of the magnitude n and the terminator. */
  lemma SignedText(str: array<char>, s: seq<char>, num: int, neg: nat, n: nat)
    requires num != 0 && neg == (if num < 0 then 1 else 0) && n == (if num < 0 then -num else num)
    requires |s| == str.Length && |Render(num)| < |s|
    requires str[..] == Placed(if num < 0 then s[0 := '-'] else s, neg, Digits(n) + ['\0'])
    ensures str[..|Render(num)|] == Render(num) && str[|Render(num)|] == '\0'
    ensures str[|Render(num)| + 1..] == s[|Render(num)| + 1..]
  {
    var sign: seq<char> := if num < 0 then ['-'] else [];
    assert (if num < 0 then s[0 := '-'] else s) == Placed(s, 0, sign);
    PlacedConcat(s, sign, Digits(n) + ['\0']);
    assert Render(num) + ['\0'] == sign + (Digits(n) + ['\0']);
    TerminatedText(str, s, Render(num));
  }

  /** The rest of numToString once the sign is written: the digits of n
      from position neg on, then the terminator. */
  method WriteTerminatedDigits(n: nat, neg: nat, str: array<char>)
    requires n > 0 && neg + DigitCount(n) < str.Length
    modifies str
    ensures str[..] == Placed(old(str[..]), neg, Digits(n) + ['\0'])
  {
    var digitCount := DigitCount(n);
    var i := WriteDigits(n, digitCount, neg, str);
    str[i + neg] := '\0';
    PlacedExtend(old(str[..]), neg, Digits(n), '\0');
  }

  /** The digit loop of numToString: the digits of n, found by repeated
      division by ten, are stored from the last position backwards, into
      str[neg .. neg + digitCount]; nothing else is written.  Returns the
      number of digits written. */
  method WriteDigits(n: nat, digitCount: nat, neg: nat, str: array<char>) returns (i: nat)
    requires n > 0 && digitCount == DigitCount(n) && neg + digitCount < str.Length
    modifies str
    ensures i == digitCount
    ensures str[..] == Placed(old(str[..]), neg, Digits(n))
  {
    i := 0;
    var rest: nat := n;
    ghost var written: seq<char> := [];
    ghost var original := str[..];
    while rest > 0
      invariant |written| == i && |Pending(rest)| + i == digitCount
      invariant str[..] == Placed(original, neg + digitCount - i, written)
      invariant Digits(n) == Pending(rest) + written
    {
      var digit := DigitChar(rest % 10);
      DigitMoves(Digits(n), rest, written);
      var j := neg + digitCount - i - 1;
      PlacedStore(original, j, written, digit);
      str[j] := digit;
      written := [digit] + written;
      rest := rest / 10;
      i := i + 1;
    }
  }

  /** s with t written over it from position lo on. */
  function Placed(s: seq<char>, lo: nat, t: seq<char>): (r: seq<char>)
    requires lo + |t| <= |s|
    ensures |r| == |s|
  {
    s[..lo] + t + s[lo + |t|..]
  }

  /** Storing c just before the written run extends the run by c. */
  lemma PlacedStore(s: seq<char>, j: nat, t: seq<char>, c: char)
    requires j + 1 + |t| <= |s|
    ensures Placed(s, j + 1, t)[j := c] == Placed(s, j, [c] + t)
  {
  }

  /** Storing c just after the written run extends the run by c. */
  lemma PlacedExtend(s: seq<char>, lo: nat, t: seq<char>, c: char)
    requires lo + |t| < |s|
    ensures Placed(s, lo, t)[lo + |t| := c] == Placed(s, lo, t + [c])
  {
  }

  /** Writing a, then b right after it, writes a + b. */
  lemma PlacedConcat(s: seq<char>, a: seq<char>, b: seq<char>)
    requires |a| + |b| <= |s|
    ensures Placed(Placed(s, 0, a), |a|, b) == Placed(s, 0, a + b)
  {
  }

  /** An array holding s with the terminated text r written at its start
      begins with r, then the terminator, then the rest of s. */
  lemma TerminatedText(str: array<char>, s: seq<char>, r: seq<char>)
    requires |r| < str.Length == |s| && str[..] == Placed(s, 0, r + ['\0'])
    ensures str[..|r|] == r && str[|r|] == '\0' && str[|r| + 1..] == s[|r| + 1..]
  {
    PlacedSlices(s, 0, r + ['\0']);
    assert str[..|r|] == str[..][..|r| + 1][..|r|];
  }

  /** The three parts of Placed(s, lo, t). */
  lemma PlacedSlices(s: seq<char>, lo: nat, t: seq<char>)
    requires lo + |t| <= |s|
    ensures Placed(s, lo, t)[..lo] == s[..lo]
    ensures Placed(s, lo, t)[lo .. lo + |t|] == t
    ensures Placed(s, lo, t)[lo + |t|..] == s[lo + |t|..]
  {
  }

  /** The digits the loop of numToString has still to write while `rest`
      remains of the number: none once it reaches zero. */
  function Pending(rest: nat): seq<char> {
    if rest == 0 then [] else Digits(rest)
  }

  /** Each turn of the loop peels the last pending digit off. */
  lemma PendingStep(rest: nat)
    requires rest > 0
    ensures Pending(rest) == Pending(rest / 10) + [DigitChar(rest % 10)]
  {
  }

  /** Each turn of the loop moves the last pending digit to the front of
      the written ones. */
  lemma DigitMoves(all: seq<char>, rest: nat, written: seq<char>)
    requires rest > 0 && all == Pending(rest) + written
    ensures |Pending(rest / 10)| + 1 == |Pending(rest)|
    ensures all == Pending(rest / 10) + ([DigitChar(rest % 10)] + written)
  {
    PendingStep(rest);
    MoveLast(all, Pending(rest), Pending(rest / 10), DigitChar(rest % 10), written);
  }

  /** Moving the last element of p, which is q followed by c, to the front
      of w keeps the concatenation p + w. */
  lemma MoveLast(all: seq<char>, p: seq<char>, q: seq<char>, c: char, w: seq<char>)
    requires p == q + [c] && all == p + w
    ensures |q| + 1 == |p| && all == q + ([c] + w)
  {
  }

  /** sendBytes: the first `length` bytes of the array, in order. */
  method SendBytes(bytes: array<bv8>, length: nat) returns (sent: seq<bv8>)
    requires length <= bytes.Length
    ensures sent == bytes[..length]
  {
    sent := [];
    for i := 0 to length
      invariant sent == bytes[..i]
    {
      sent := sent + [bytes[i]];
    }
  }

  /** sendString: the characters before the first terminator, the ones the
      loop sends. */
  method SendString(str: array<char>) returns (sent: seq<char>)
    requires '\0' in str[..]
    ensures |sent| < str.Length && str[|sent|] == '\0'
    ensures sent == str[..|sent|] && '\0' !in sent
  {
    var i := 0;
    while str[i] != '\0'
      invariant 0 <= i < str.Length
      invariant '\0' !in str[..i] && '\0' in str[i..]
      decreases str.Length - i
    {
      assert str[i..] == [str[i]] + str[i + 1..];
      i := i + 1;
    }
    sent := str[..i];
  }

  /** sendNumSigned: formats into a six-character buffer and sends it; the
      text sent reads back as the number. */
  method SendNumSigned(num: int) returns (sent: seq<char>)
    requires -9999 <= num <= 99999
    ensures sent == Render(num)
    ensures ParseSigned(sent) == num
  {
    RenderFitsNumString(num);
    RenderRoundTrip(num);
    var numStr := new char[NumStringSize];
    NumToString(num, numStr);
    assert numStr[..NumStringSize][|Render(num)|] == '\0';
    sent := SendString(numStr);
  }
}
