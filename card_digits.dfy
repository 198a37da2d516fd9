/** Card numbers and CVVs: one decimal digit per random byte (the byte's
    value modulo 10), a card number being "4000" and twelve such digits. The
    random bytes are an input; reading them never fails here. */
module CardDigits {
  import opened Errs
  import opened Domain

  newtype byte = x: int | 0 <= x < 256

  const CardPrefix: string := "4000"
  const CardNumberDigits: nat := 12
  const CvvDigits: nat := 3

  predicate IsDigit(c: char) {
    '0' <= c <= '9'
  }

  predicate AllDigits(s: string) {
    forall i | 0 <= i < |s| :: IsDigit(s[i])
  }

  /** The character fmt prints for a digit. */
  function DigitChar(d: int): (c: char)
    requires 0 <= d < 10
    ensures IsDigit(c) && DigitValue(c) == d
  {
    ('0' as int + d) as char
  }

  /** The digit a character stands for. */
  function DigitValue(c: char): int {
    c as int - '0' as int
  }

  /** The digits printed for `random`, one per byte. */
  function DigitsOf(random: seq<byte>): (s: string)
    ensures |s| == |random|
    ensures forall i | 0 <= i < |s| :: IsDigit(s[i]) && DigitValue(s[i]) == random[i] as int % 10
  {
    seq(|random|, i requires 0 <= i < |random| => DigitChar(random[i] as int % 10))
  }

  /** Two byte strings print the same digits exactly when they agree
      modulo 10 byte by byte. */
  lemma DigitsAgreeIffResidues(a: seq<byte>, b: seq<byte>)
    requires |a| == |b|
    ensures DigitsOf(a) == DigitsOf(b) <==> forall i | 0 <= i < |a| :: a[i] as int % 10 == b[i] as int % 10
  {
    if forall i | 0 <= i < |a| :: a[i] as int % 10 == b[i] as int % 10 {
      assert forall i | 0 <= i < |a| :: DigitsOf(a)[i] == DigitsOf(b)[i];
    }
  }

  /** generateRandomDigits: the digits of the random bytes, appended one by
      one. */
  method GenerateRandomDigits(random: seq<byte>) returns (result: string)
    ensures result == DigitsOf(random)
  {
    result := "";
    var i := 0;
    while i < |random|
      invariant 0 <= i <= |random|
      invariant result == DigitsOf(random[..i])
    {
      result := result + [DigitChar(random[i] as int % 10)];
      i := i + 1;
      assert random[..i] == random[..i - 1] + [random[i - 1]];
    }
    assert random[..i] == random;
  }

  /** GenerateCardNumber: "4000" and twelve digits; never an error. */
  method GenerateCardNumber(random: seq<byte>) returns (number: string, err: Option<Error>)
    requires |random| == CardNumberDigits
    ensures err.None?
    ensures number == CardPrefix + DigitsOf(random)
    ensures |number| == 16 && number[..4] == "4000" && AllDigits(number)
  {
    var rest := GenerateRandomDigits(random);
    number := CardPrefix + rest;
    err := None;
  }

  /** GenerateCVV: three digits; never an error. */
  method GenerateCVV(random: seq<byte>) returns (cvv: string, err: Option<Error>)
    requires |random| == CvvDigits
    ensures err.None?
    ensures cvv == DigitsOf(random) && |cvv| == 3 && AllDigits(cvv)
  {
    cvv := GenerateRandomDigits(random);
    err := None;
  }
}
