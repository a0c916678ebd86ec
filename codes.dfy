/** Room codes (server.js, `generateCode`). */
module Codes {
  import Chance

  /** The 32 characters a code is drawn from. */
  const Alphabet: string := "ABCDEFGHJKLMNPQRSTUVWXYZ23456789"

  const CodeLength: nat := 6

  /** An upper-case letter other than I and O, or a digit other than 0 and 1. */
  predicate Typeable(c: char)
  {
    ('A' <= c <= 'Z' && c != 'I' && c != 'O') || ('2' <= c <= '9')
  }

  /** None of I, O, 0 and 1, the characters a reader could confuse with one another. */
  predicate Unambiguous(c: char)
  {
    c != 'I' && c != 'O' && c != '0' && c != '1'
  }

  /** The alphabet has 32 characters and every one of them is typeable. */
  lemma AlphabetIsTypeable()
    ensures |Alphabet| == 32
    ensures forall i :: 0 <= i < |Alphabet| ==> Typeable(Alphabet[i])
  {
  }

  /**
   * Appends one character per draw, `draws[i]` choosing the i-th character
   * of the code.
   */
  method GenerateCode(draws: seq<real>) returns (code: string)
    requires |draws| == CodeLength
    requires forall i :: 0 <= i < |draws| ==> Chance.IsDraw(draws[i])
    ensures |code| == CodeLength
    ensures forall i :: 0 <= i < |code| ==> code[i] == Alphabet[Chance.Pick(draws[i], |Alphabet|)]
    ensures forall i :: 0 <= i < |code| ==> code[i] in Alphabet && Unambiguous(code[i])
  {
    AlphabetIsTypeable();
    code := "";
    var i := 0;
    while i < CodeLength
      invariant 0 <= i <= CodeLength && |code| == i
      invariant forall j :: 0 <= j < i ==> code[j] == Alphabet[Chance.Pick(draws[j], |Alphabet|)]
    {
      code := code + [Alphabet[Chance.Pick(draws[i], |Alphabet|)]];
      i := i + 1;
    }
  }
}
