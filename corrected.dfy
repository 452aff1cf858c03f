/** The generator as evidently intended: the letter set with `u` in its
    place, and the index `floor(r * n)` so that every position of the
    alphabet can be drawn and every pass appends exactly one character. */
module Corrected {
  import opened Alphabet
  import opened Sampling
  import opened Generator

  const CorrectLetters: string := "ABCDEFGHIJKLMNOPQRSTUVWXYZabcdefghijklmnopqrstuvwxyz"
  const CorrectLowerHalf: string := "abcdefghijklmnopqrstuvwxyz"

  /** The alphabet built from the corrected letter set. */
  function CorrectBuild(isNumber: bool, isChar: bool): (s: string)
    ensures |s| == 52 + (if isNumber then 10 else 0) + (if isChar then 31 else 0)
    ensures s[..52] == CorrectLetters
    ensures isNumber ==> s[52..62] == Digits
    ensures isChar ==> s[|s| - 31..] == Symbols
  {
    CorrectLetters + (if isNumber then Digits else "") + (if isChar then Symbols else "")
  }

  /** The password built from the draws with index `u` rather than `u + 1`. */
  function CorrectSampled(alphabet: string, draws: seq<nat>): (pw: string)
    ensures |pw| <= |draws|
  {
    if draws == [] then ""
    else CorrectSampled(alphabet, draws[..|draws| - 1]) + CharAt(alphabet, draws[|draws| - 1])
  }

  lemma CorrectHalves()
    ensures CorrectLetters == UpperHalf + CorrectLowerHalf
  {
  }

  lemma UpperHalfCodes()
    ensures forall i :: 0 <= i < |UpperHalf| ==> UpperHalf[i] as int == 'A' as int + i
  {
  }

  lemma CorrectLowerHalfCodes()
    ensures forall i :: 0 <= i < |CorrectLowerHalf| ==> CorrectLowerHalf[i] as int == 'a' as int + i
  {
  }

  /** The corrected letter set holds each of the 52 ASCII letters exactly
      once: position `i` holds the `i`-th letter. */
  lemma {:induction false} CorrectLettersComplete()
    ensures forall i :: 0 <= i < 26 ==> CorrectLetters[i] as int == 'A' as int + i
    ensures forall i :: 26 <= i < 52 ==> CorrectLetters[i] as int == 'a' as int + i - 26
    ensures forall i, j :: 0 <= i < j < |CorrectLetters| ==> CorrectLetters[i] != CorrectLetters[j]
    ensures 'u' in CorrectLetters
  {
    CorrectHalves();
    UpperHalfCodes();
    CorrectLowerHalfCodes();
    assert forall i :: 0 <= i < 26 ==> CorrectLetters[i] == UpperHalf[i];
    assert forall i :: 26 <= i < 52 ==> CorrectLetters[i] == CorrectLowerHalf[i - 26];
    assert CorrectLetters[46] == 'u';
  }

  /** With the corrected index, each draw appends exactly the character at
      its position: the password has one character per draw. */
  lemma {:induction false} CorrectSampledExact(alphabet: string, draws: seq<nat>)
    requires DrawsFit(draws, |alphabet|)
    ensures |CorrectSampled(alphabet, draws)| == |draws|
    ensures forall k :: 0 <= k < |draws| ==> CorrectSampled(alphabet, draws)[k] == alphabet[draws[k]]
  {
    if draws != [] {
      var init := draws[..|draws| - 1];
      assert DrawsFit(init, |alphabet|) by {
        forall i | 0 <= i < |init| ensures init[i] < |alphabet| {
          assert init[i] == draws[i];
        }
      }
      CorrectSampledExact(alphabet, init);
      forall k | 0 <= k < |init|
        ensures CorrectSampled(alphabet, draws)[k] == alphabet[draws[k]]
      {
        assert init[k] == draws[k];
      }
    }
  }

  /** Each draw moved one place up. */
  function Shifted(draws: seq<nat>): (r: seq<nat>)
    ensures |r| == |draws|
    ensures forall k :: 0 <= k < |draws| ==> r[k] == draws[k] + 1
  {
    seq(|draws|, k requires 0 <= k < |draws| => draws[k] + 1)
  }

  /** The generator as written is the corrected one fed with every draw
      moved one place up: it reads one past the drawn position. */
  lemma {:induction false} AsWrittenIsShifted(alphabet: string, draws: seq<nat>)
    ensures Sampled(alphabet, draws) == CorrectSampled(alphabet, Shifted(draws))
  {
    if draws != [] {
      var init := draws[..|draws| - 1];
      AsWrittenIsShifted(alphabet, init);
      assert Shifted(draws)[..|draws| - 1] == Shifted(init);
    }
  }

  /** One pass of the corrected loop. */
  lemma {:induction false} CorrectStep(alphabet: string, draws: seq<nat>, i: nat)
    requires i < |draws|
    ensures CorrectSampled(alphabet, draws[..i + 1])
      == CorrectSampled(alphabet, draws[..i]) + CharAt(alphabet, draws[i])
  {
    assert draws[..i + 1][..i] == draws[..i];
  }

  /** The corrected generator: `NoOp` below the minimum length, otherwise a
      password of exactly `length` characters, the k-th being the alphabet's
      character at the k-th draw. */
  method PasswordGenerator(length: nat, isNumber: bool, isChar: bool, draws: seq<nat>)
    returns (o: Outcome)
    requires |draws| == length && DrawsFit(draws, |CorrectBuild(isNumber, isChar)|)
    ensures o.NoOp? <==> length < MinLength
    ensures o.Generated? ==> |o.password| == length
    ensures o.Generated? ==>
      forall k :: 0 <= k < length ==> o.password[k] == CorrectBuild(isNumber, isChar)[draws[k]]
  {
    if length < MinLength {
      return NoOp;
    }
    var str := CorrectLetters;
    if isNumber {
      str := str + Digits;
    }
    if isChar {
      str := str + Symbols;
    }
    assert str == CorrectBuild(isNumber, isChar);
    var pw := CorrectLoop(str, length, draws);
    return Generated(pw);
  }

  /** The corrected loop: index `u` for each draw. */
  method CorrectLoop(str: string, length: nat, draws: seq<nat>) returns (pw: string)
    requires |draws| == length && DrawsFit(draws, |str|)
    ensures |pw| == length
    ensures forall k :: 0 <= k < length ==> pw[k] == str[draws[k]]
  {
    pw := "";
    for i := 0 to length
      invariant pw == CorrectSampled(str, draws[..i])
    {
      pw := pw + CharAt(str, draws[i]);
      CorrectStep(str, draws, i);
    }
    assert draws[..length] == draws;
    CorrectSampledExact(str, draws);
  }

  /** Every position of the corrected alphabet, `A` at position 0
      included, is reachable by some draw, and `u` can appear. */
  lemma {:induction false} EveryPositionReachable(isNumber: bool, isChar: bool, j: nat)
    requires j < |CorrectBuild(isNumber, isChar)|
    ensures CorrectSampled(CorrectBuild(isNumber, isChar), [j]) == [CorrectBuild(isNumber, isChar)[j]]
    ensures CorrectSampled(CorrectBuild(isNumber, isChar), [0]) == "A"
    ensures CorrectSampled(CorrectBuild(isNumber, isChar), [46]) == "u"
  {
    var s := CorrectBuild(isNumber, isChar);
    assert [j][..0] == [] && [0][..0] == [] && [46][..0] == [];
    CorrectLettersComplete();
    assert s[0] == s[..52][0] == CorrectLetters[0];
    assert s[46] == s[..52][46] == CorrectLetters[46];
  }
}
