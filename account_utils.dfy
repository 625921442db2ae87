/** The e-mail code helpers of the accounts app. */
module AccountUtils {
  import opened PyText

  /** A value of secrets.randbelow(10). */
  type Digit = d: int | 0 <= d < 10

  /** generate_2fa_code(length); draw(i) is the value randbelow(10) returns on the i-th call.
      The result is exactly length characters, the i-th being the decimal digit of draw(i). */
  function GenerateCode(length: nat, draw: nat -> Digit): (code: string)
    ensures |code| == length
    ensures forall i :: 0 <= i < length ==> IsDigit(code[i]) && code[i] == DigitChar(draw(i))
  {
    if length == 0 then "" else GenerateCode(length - 1, draw) + [DigitChar(draw(length - 1))]
  }

  /** The digits a string of decimal characters spells. */
  function CodeDigits(code: string): (ds: seq<int>)
    requires forall i :: 0 <= i < |code| ==> IsDigit(code[i])
    ensures |ds| == |code|
  {
    seq(|code|, i requires 0 <= i < |code| => DigitOf(code[i]))
  }

  /** Reading a generated code back digit by digit gives exactly the random draws, in order. */
  lemma CodeDigitsOfGenerateCode(length: nat, draw: nat -> Digit)
    ensures CodeDigits(GenerateCode(length, draw)) == seq(length, (i: int) requires 0 <= i => draw(i))
  {
    var code := GenerateCode(length, draw);
    forall i | 0 <= i < length ensures CodeDigits(code)[i] == draw(i) {
      assert DigitOf(DigitChar(draw(i))) == draw(i);
    }
  }
}
