/**
 * The identifier engine of BankingSystem: findChecksum, generateCardNumber
 * and generatePIN, with the random digits supplied by the caller.
 *
 * findChecksum adds up the character CODES of its intermediate string
 * ('0' counts 48), not the digit values; the lemmas below pin down exactly
 * when that still yields the Luhn check digit.
 */
module Identifiers {
  import opened Luhn

  /** The Issuer Identification Number every generated card number starts with. */
  const Iin: string := "400000"

  /**
   * findChecksum parses the character at every odd 1-based position as a
   * number (and throws otherwise); the other characters are copied as they are.
   */
  predicate OddPositionsAreDigits(s: string) {
    forall i :: 0 <= i < |s| && i % 2 == 0 ==> IsDigit(s[i])
  }

  /** What the first loop appends for character c at 1-based position p. */
  function ProcessedChar(c: char, p: nat): (r: char)
    requires p % 2 == 1 ==> IsDigit(c)
  {
    if p % 2 != 0 then Char(Double(Value(c))) else c
  }

  /** The StringBuilder contents after the first loop of findChecksum. */
  function Processed(s: string): (t: string)
    requires OddPositionsAreDigits(s)
    ensures |t| == |s|
  {
    if s == [] then [] else Processed(s[..|s| - 1]) + [ProcessedChar(s[|s| - 1], |s|)]
  }

  /** Position by position: doubled-and-reduced digits at odd 1-based positions, unchanged characters at even ones. */
  lemma {:induction false} ProcessedAt(s: string, i: nat)
    requires OddPositionsAreDigits(s) && i < |s|
    ensures Processed(s)[i] == ProcessedChar(s[i], i + 1)
  {
    var p := s[..|s| - 1];
    if i < |s| - 1 {
      ProcessedAt(p, i);
    }
  }

  /** The second loop: the sum of the character codes. */
  function CodeSum(t: string): (r: int) {
    if t == [] then 0 else CodeSum(t[..|t| - 1]) + t[|t| - 1] as int
  }

  /** One more character processed. */
  lemma ProcessedStep(s: string, i: nat)
    requires i < |s| && OddPositionsAreDigits(s)
    ensures OddPositionsAreDigits(s[..i]) && OddPositionsAreDigits(s[..i + 1])
    ensures Processed(s[..i + 1]) == Processed(s[..i]) + [ProcessedChar(s[i], i + 1)]
  {
    assert s[..i + 1][..i] == s[..i];
  }

  /** One more character summed. */
  lemma CodeSumStep(t: string, j: nat)
    requires j < |t|
    ensures CodeSum(t[..j + 1]) == CodeSum(t[..j]) + t[j] as int
  {
    assert t[..j + 1][..j] == t[..j];
  }

  /** The last two statements of findChecksum: the digit that tops `sum` up to a multiple of 10. */
  function ChecksumOf(sum: int): (r: int)
    ensures 0 <= r <= 9
    ensures (sum + r) % 10 == 0
  {
    var checksum := 10 - sum % 10;
    if checksum == 10 then 0 else checksum
  }

  /** The value findChecksum returns. */
  function Checksum(s: string): (r: int)
    requires OddPositionsAreDigits(s)
    ensures 0 <= r <= 9
  {
    ChecksumOf(CodeSum(Processed(s)))
  }

  method FindChecksum(accountNumber: string) returns (checksum: int)
    requires OddPositionsAreDigits(accountNumber)
    ensures checksum == Checksum(accountNumber)
    ensures 0 <= checksum <= 9
  {
    var sb: string := [];
    var i := 1;
    while i <= |accountNumber|
      invariant 1 <= i <= |accountNumber| + 1
      invariant sb == Processed(accountNumber[..i - 1])
    {
      ProcessedStep(accountNumber, i - 1);
      if i % 2 != 0 {
        var num := Value(accountNumber[i - 1]);
        num := num * 2;
        if num > 9 {
          num := num - 9;
        }
        sb := sb + [Char(num)];
      } else {
        sb := sb + [accountNumber[i - 1]];
      }
      i := i + 1;
    }
    assert accountNumber[..|accountNumber|] == accountNumber;
    var processedNumber := sb;
    var sum := 0;
    var j := 0;
    while j < |processedNumber|
      invariant 0 <= j <= |processedNumber|
      invariant sum == CodeSum(processedNumber[..j])
    {
      CodeSumStep(processedNumber, j);
      sum := sum + processedNumber[j] as int;
      j := j + 1;
    }
    assert processedNumber[..j] == processedNumber;
    var c := 10 - sum % 10;
    checksum := if c == 10 then 0 else c;
  }

  /**
   * The Luhn sum as the comments of findChecksum describe it: 1-based odd
   * positions counted from the LEFT are doubled, digit VALUES are added.
   */
  function PositionSum(s: string): (r: nat)
    requires AllDigits(s)
  {
    if s == [] then 0
    else PositionSum(s[..|s| - 1]) + Weighted(Value(s[|s| - 1]), |s| % 2 == 1)
  }

  lemma CodeSumAppend(t: string, c: char)
    ensures CodeSum(t + [c]) == CodeSum(t) + c as int
  {
    assert (t + [c])[..|t|] == t;
  }

  /** The code of a processed digit is 48 plus its Luhn weight. */
  lemma ProcessedCharCode(c: char, p: nat)
    requires IsDigit(c)
    ensures ProcessedChar(c, p) as int == 48 + Weighted(Value(c), p % 2 == 1)
  {
  }

  /** On digits, the code sum of findChecksum is 48 per character plus the Luhn sum. */
  lemma {:induction false} CodeSumOfProcessed(s: string)
    requires AllDigits(s)
    ensures OddPositionsAreDigits(s)
    ensures CodeSum(Processed(s)) == 48 * |s| + PositionSum(s)
  {
    if s != [] {
      var p, c := s[..|s| - 1], s[|s| - 1];
      assert AllDigits(p);
      CodeSumOfProcessed(p);
      var pc := ProcessedChar(c, |s|);
      var w := Weighted(Value(c), |s| % 2 == 1);
      assert Processed(s) == Processed(p) + [pc];
      CodeSumAppend(Processed(p), pc);
      ProcessedCharCode(c, |s|);
      assert CodeSum(Processed(s)) == CodeSum(Processed(p)) + 48 + w;
      assert PositionSum(s) == PositionSum(p) + w;
    }
  }

  /** Counting from the left agrees with Annex B's counting from the right when the rightmost digit is at an odd position. */
  lemma {:induction false} PositionSumFromRight(s: string)
    requires AllDigits(s)
    ensures PositionSum(s) == RightSum(s, |s| % 2 == 1)
  {
    if s != [] {
      PositionSumFromRight(s[..|s| - 1]);
    }
  }

  lemma ChecksumOfModulo(x: int, y: int)
    ensures ChecksumOf(x) == ChecksumOf(y) <==> x % 10 == y % 10
  {
  }

  /** The completing digit of findChecksum, written as Annex B's check digit is. */
  lemma ChecksumOfIsCompletion(sum: int)
    ensures ChecksumOf(sum) == if sum % 10 == 0 then 0 else 10 - sum % 10
  {
  }

  lemma {:induction false} EightTimesModTen(n: nat)
    ensures (48 * n) % 10 == 0 <==> n % 5 == 0
  {
    if n >= 5 {
      EightTimesModTen(n - 5);
      var x := 48 * (n - 5);
      assert 48 * n == x + 240;
      assert (x + 240) % 10 == x % 10 by {
        assert x + 240 == 10 * (x / 10 + 24) + x % 10;
      }
      assert n % 5 == (n - 5) % 5 by {
        assert n == 5 * ((n - 5) / 5 + 1) + (n - 5) % 5;
      }
    } else if n == 0 {
    } else if n == 1 {
      assert 48 * n == 48;
    } else if n == 2 {
      assert 48 * n == 96;
    } else if n == 3 {
      assert 48 * n == 144;
    } else {
      assert 48 * n == 192;
    }
  }

  lemma ModShift(a: int, l: int)
    ensures (a + l) % 10 == l % 10 <==> a % 10 == 0
  {
  }

  /** Adding 48 per character changes the check digit unless the count is a multiple of 5. */
  lemma ShiftedChecksum(x: int, n: nat, l: int)
    requires x == 48 * n + l
    ensures ChecksumOf(x) == ChecksumOf(l) <==> n % 5 == 0
  {
    var a := 48 * n;
    ChecksumOfModulo(a + l, l);
    EightTimesModTen(n);
    ModShift(a, l);
  }

  /**
   * findChecksum returns the check digit of the left-counted Luhn sum exactly
   * when the input length is a multiple of 5: the extra 48 per character
   * vanishes modulo 10 only then.
   */
  lemma ChecksumIsLuhnIff(s: string)
    requires AllDigits(s)
    ensures OddPositionsAreDigits(s)
    ensures Checksum(s) == ChecksumOf(PositionSum(s)) <==> |s| % 5 == 0
  {
    CodeSumOfProcessed(s);
    ShiftedChecksum(CodeSum(Processed(s)), |s|, PositionSum(s));
  }

  /**
   * For an odd multiple of 5 digits (15 in particular) findChecksum returns
   * the ISO/IEC 7812-1 Annex B check digit.
   */
  lemma ChecksumIsIsoCheckDigit(s: string)
    requires AllDigits(s) && |s| % 10 == 5
    ensures OddPositionsAreDigits(s)
    ensures Checksum(s) == CheckDigit(s)
  {
    assert |s| % 5 == 0 && |s| % 2 == 1;
    ChecksumIsLuhnIff(s);
    PositionSumFromRight(s);
    var r := RightSum(s, true);
    assert Checksum(s) == ChecksumOf(r);
    ChecksumOfIsCompletion(r);
    assert CheckDigit(s) == if r % 10 == 0 then 0 else 10 - r % 10;
  }

  /** Character.getNumericValue on ASCII characters: digits 0-9, letters 10-35, everything else -1. */
  function NumericValue(c: char): (v: int)
    ensures IsDigit(c) ==> v == Value(c)
    ensures -1 <= v <= 35
  {
    if '0' <= c <= '9' then c as int - '0' as int
    else if 'a' <= c <= 'z' then c as int - 'a' as int + 10
    else if 'A' <= c <= 'Z' then c as int - 'A' as int + 10
    else -1
  }

  /** The outcome of the card-number check doTransfer makes on its input. */
  datatype CardCheck = Malformed | Mismatch | Match

  /**
   * doTransfer's check: findChecksum of all but the last character against
   * the numeric value of the last. Malformed is the exception path: an empty
   * input (substring with end -1) or a non-digit at an odd position.
   */
  function CheckCard(input: string): (r: CardCheck)
    ensures r != Malformed <==> |input| >= 1 && OddPositionsAreDigits(input[..|input| - 1])
    ensures r == Match ==> IsDigit(input[|input| - 1]) && Value(input[|input| - 1]) == Checksum(input[..|input| - 1])
  {
    if |input| == 0 || !OddPositionsAreDigits(input[..|input| - 1]) then Malformed
    else if Checksum(input[..|input| - 1]) == NumericValue(input[|input| - 1]) then Match
    else Mismatch
  }

  /** On all-digit strings of 6, 16, 26, ... digits the check is Annex B validation, in both directions. */
  lemma CheckCardIsIsoValidation(s: string)
    requires AllDigits(s) && |s| % 10 == 6
    ensures CheckCard(s) == Match <==> IsValid(s)
    ensures CheckCard(s) != Malformed
  {
    var p := s[..|s| - 1];
    assert s == p + [s[|s| - 1]];
    assert AllDigits(p);
    ChecksumIsIsoCheckDigit(p);
    CheckDigitCompletes(p, Value(s[|s| - 1]));
  }

  /** The random digits of a card number: nine, each drawn from [0, 9). */
  predicate CardDigitsInRange(nums: seq<int>) {
    |nums| == 9 && forall k :: 0 <= k < 9 ==> 0 <= nums[k] <= 8
  }

  /** The shape of every card number generateCardNumber can produce. */
  predicate IsGeneratedCard(card: string) {
    && |card| == 16
    && AllDigits(card)
    && card[..6] == Iin
    && (forall k :: 6 <= k < 15 ==> card[k] != '9')
    && OddPositionsAreDigits(card[..15])
    && card[15] == Char(Checksum(card[..15]))
  }

  method GenerateCardNumber(nums: seq<int>) returns (card: string)
    requires CardDigitsInRange(nums)
    ensures IsGeneratedCard(card)
    ensures forall k :: 0 <= k < 9 ==> card[6 + k] == Char(nums[k])
    ensures IsValid(card)
  {
    var digits := seq(9, k requires 0 <= k < 9 => Char(nums[k]));
    var iin := Iin + digits;
    assert AllDigits(iin);
    var checksum := FindChecksum(iin);
    card := iin + [Char(checksum)];
    assert card[..15] == iin;
    assert card[..6] == Iin;
    ChecksumIsIsoCheckDigit(iin);
    CheckDigitCompletes(iin, checksum);
  }

  /** Round trip: every generated card number passes doTransfer's card check. */
  lemma GeneratedCardPassesCheck(card: string)
    requires IsGeneratedCard(card)
    ensures CheckCard(card) == Match
    ensures IsValid(card)
  {
    CheckCardIsIsoValidation(card);
  }

  /** The random digits of a PIN: four, each drawn from [1, 9). */
  predicate PinDigitsInRange(nums: seq<int>) {
    |nums| == 4 && forall k :: 0 <= k < 4 ==> 1 <= nums[k] <= 8
  }

  /** The PINs generatePIN can produce: four decimal digits, none of them 0 or 9. */
  predicate IsGeneratedPin(pin: int) {
    && 1111 <= pin <= 8888
    && 1 <= pin / 1000 <= 8
    && 1 <= pin / 100 % 10 <= 8
    && 1 <= pin / 10 % 10 <= 8
    && 1 <= pin % 10 <= 8
  }

  /** The decimal number whose digits are ds, most significant first. */
  function DecimalValue(ds: seq<int>): (r: int) {
    if ds == [] then 0 else 10 * DecimalValue(ds[..|ds| - 1]) + ds[|ds| - 1]
  }

  method GeneratePIN(nums: seq<int>) returns (pin: int)
    requires PinDigitsInRange(nums)
    ensures pin == 1000 * nums[0] + 100 * nums[1] + 10 * nums[2] + nums[3]
    ensures pin / 1000 == nums[0] && pin / 100 % 10 == nums[1]
    ensures pin / 10 % 10 == nums[2] && pin % 10 == nums[3]
    ensures IsGeneratedPin(pin)
  {
    pin := 0;
    for i := 0 to |nums|
      invariant pin == DecimalValue(nums[..i])
    {
      assert nums[..i + 1][..i] == nums[..i];
      pin := 10 * pin + nums[i];
    }
    assert nums[..4] == nums;
    assert nums[..4][..3] == nums[..3];
    assert nums[..3][..2] == nums[..2];
    assert nums[..2][..1] == nums[..1];
    assert nums[..1][..0] == [];
    assert DecimalValue(nums[..1]) == nums[0];
    assert DecimalValue(nums[..2]) == 10 * nums[0] + nums[1];
    assert DecimalValue(nums[..3]) == 100 * nums[0] + 10 * nums[1] + nums[2];
    PinDigits(nums[0], nums[1], nums[2], nums[3]);
  }

  /** Four digits in 1..8 read back from their decimal number, which is then a generated PIN. */
  lemma PinDigits(a: int, b: int, c: int, d: int)
    requires 1 <= a <= 8 && 1 <= b <= 8 && 1 <= c <= 8 && 1 <= d <= 8
    ensures var pin := 1000 * a + 100 * b + 10 * c + d;
      && pin / 1000 == a && pin / 100 % 10 == b && pin / 10 % 10 == c && pin % 10 == d
      && IsGeneratedPin(pin)
  {
    var pin := 1000 * a + 100 * b + 10 * c + d;
    assert pin / 1000 == a;
    assert pin / 100 == 10 * a + b;
    assert pin / 10 == 100 * a + 10 * b + c;
  }
}
