/** The character sets the password generator draws from, and the alphabet
    it assembles from them according to the two options. */
module Alphabet {

  /** The 52 letters as they appear in the generator (one lower-case `u`
      was typed as `q`). */
  const Letters: string := "ABCDEFGHIJKLMNOPQRSTUVWXYZabcdefghijklmnopqrstqvwxyz"
  /** Appended when digits are requested. */
  const Digits: string := "0123456789"
  /** Appended when special characters are requested (`'` appears twice). */
  const Symbols: string := "`~!@#$%^&*()_+-={}[]:;<>,.?/''|"

  /** The two halves of `Letters`, used only to reason about it. */
  const UpperHalf: string := "ABCDEFGHIJKLMNOPQRSTUVWXYZ"
  const LowerHalf: string := "abcdefghijklmnopqrstqvwxyz"

  predicate IsUpper(c: char) { 'A' <= c <= 'Z' }
  predicate IsLower(c: char) { 'a' <= c <= 'z' }
  predicate IsDigit(c: char) { '0' <= c <= '9' }
  /** A character of the special-character set. */
  predicate IsSymbol(c: char) { c in Symbols }

  /** The alphabet: the letters, then the digits if `isNumber`, then the
      special characters if `isChar`, in that order. */
  function Build(isNumber: bool, isChar: bool): (s: string)
    ensures |s| == 52 + (if isNumber then 10 else 0) + (if isChar then 31 else 0)
    ensures s[..52] == Letters
    ensures isNumber ==> s[52..62] == Digits
    ensures isChar ==> s[|s| - 31..] == Symbols
  {
    Letters + (if isNumber then Digits else "") + (if isChar then Symbols else "")
  }

  lemma LettersHalves()
    ensures Letters == UpperHalf + LowerHalf
  {
  }

  lemma UpperHalfFacts()
    ensures forall i :: 0 <= i < |UpperHalf| ==> IsUpper(UpperHalf[i])
    ensures forall i :: 1 <= i < |UpperHalf| ==> UpperHalf[i] != 'A'
  {
  }

  lemma LowerHalfFacts()
    ensures forall i :: 0 <= i < |LowerHalf| ==> IsLower(LowerHalf[i]) && LowerHalf[i] != 'u'
    ensures forall i :: 0 <= i < |LowerHalf| && LowerHalf[i] == 'q' ==> i == 16 || i == 20
  {
  }

  lemma SymbolsFacts()
    ensures forall i :: 0 <= i < |Symbols| ==>
      !IsUpper(Symbols[i]) && !IsLower(Symbols[i]) && !IsDigit(Symbols[i])
  {
  }

  /** The alphabet has 52, 62, 83 or 93 characters. */
  lemma {:induction false} BuildSizes(isNumber: bool, isChar: bool)
    ensures |Build(isNumber, isChar)| in {52, 62, 83, 93}
    ensures |Build(isNumber, isChar)| == 52 <==> !isNumber && !isChar
    ensures |Build(isNumber, isChar)| == 62 <==> isNumber && !isChar
    ensures |Build(isNumber, isChar)| == 83 <==> !isNumber && isChar
    ensures |Build(isNumber, isChar)| == 93 <==> isNumber && isChar
  {
  }

  /** The letter set holds `q` twice (positions 42 and 46) and no lower-case `u`. */
  lemma {:induction false} LettersTypo()
    ensures Letters[42] == 'q' && Letters[46] == 'q'
    ensures forall i :: 0 <= i < |Letters| && Letters[i] == 'q' ==> i == 42 || i == 46
    ensures 'u' !in Letters
  {
    LettersHalves();
    LowerHalfFacts();
    forall i | 0 <= i < |Letters| && Letters[i] == 'q'
      ensures i == 42 || i == 46
    {
      assert i >= 26 && Letters[i] == LowerHalf[i - 26];
    }
    forall i | 0 <= i < |Letters|
      ensures Letters[i] != 'u'
    {
      if i >= 26 {
        assert Letters[i] == LowerHalf[i - 26];
      } else {
        UpperHalfFacts();
        assert Letters[i] == UpperHalf[i];
      }
    }
  }

  /** Every letter is an ASCII letter, and `A` occurs only at position 0. */
  lemma {:induction false} LettersFacts()
    ensures forall i :: 0 <= i < |Letters| ==> IsUpper(Letters[i]) || IsLower(Letters[i])
    ensures Letters[0] == 'A' && 'A' !in Letters[1..]
  {
    LettersHalves();
    UpperHalfFacts();
    LowerHalfFacts();
    forall i | 0 <= i < |Letters|
      ensures (IsUpper(Letters[i]) || IsLower(Letters[i])) && (i > 0 ==> Letters[i] != 'A')
    {
      if i < 26 {
        assert Letters[i] == UpperHalf[i];
      } else {
        assert Letters[i] == LowerHalf[i - 26];
      }
    }
    assert forall i :: 0 <= i < |Letters[1..]| ==> Letters[1..][i] == Letters[i + 1];
  }

  /** Position 0 is the only `A` in any alphabet the generator builds. */
  lemma {:induction false} AOnlyFirst(isNumber: bool, isChar: bool)
    ensures Build(isNumber, isChar)[0] == 'A'
    ensures 'A' !in Build(isNumber, isChar)[1..]
  {
    var s := Build(isNumber, isChar);
    LettersFacts();
    SymbolsFacts();
    forall i | 1 <= i < |s|
      ensures s[i] != 'A'
    {
      if i < 52 {
        assert s[i] == s[..52][i] == Letters[i];
        assert Letters[i] == Letters[1..][i - 1];
      } else if isNumber && i < 62 {
        assert s[i] == s[52..62][i - 52] == Digits[i - 52];
      } else {
        assert isChar && s[i] == s[|s| - 31..][i - (|s| - 31)];
      }
    }
    assert forall i :: 0 <= i < |s[1..]| ==> s[1..][i] == s[i + 1];
  }

  /** Without `isNumber` the alphabet holds no digit; without `isChar` it
      holds no special character. */
  lemma {:induction false} OptionsExclude(isNumber: bool, isChar: bool, c: char)
    requires c in Build(isNumber, isChar)
    ensures !isNumber ==> !IsDigit(c)
    ensures !isChar ==> !IsSymbol(c)
  {
    var s := Build(isNumber, isChar);
    var i :| 0 <= i < |s| && s[i] == c;
    LettersFacts();
    SymbolsFacts();
    if i < 52 {
      assert c == s[..52][i] == Letters[i];
    } else if isNumber && i < 62 {
      assert c == s[52..62][i - 52] == Digits[i - 52];
    } else {
      assert isChar && c == s[|s| - 31..][i - (|s| - 31)] == Symbols[i - (|s| - 31)];
    }
  }

  /** The special-character set repeats `'` (positions 28 and 29). */
  lemma SymbolsQuoteTwice()
    ensures |Symbols| == 31
    ensures Symbols[28] == '\'' && Symbols[29] == '\''
  {
  }
}
