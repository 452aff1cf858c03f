/** The password generator (`passwordGenerator`) as the component runs it:
    a length guard, the alphabet assembled with `+=`, and a loop that appends
    one `charAt` per pass. The random numbers come in as `draws`. */
module Generator {
  import opened Alphabet
  import opened Sampling

  /** Below this length the generator does nothing. */
  const MinLength: nat := 8

  /** What one run of the generator does: nothing, or produce a password
      that the component then stores. */
  datatype Outcome = NoOp | Generated(password: string)

  /** The oracle owes one draw per pass of the loop, each below the size of
      the alphabet the options select. */
  predicate DrawsFor(length: nat, isNumber: bool, isChar: bool, draws: seq<nat>) {
    |draws| == length && DrawsFit(draws, |Build(isNumber, isChar)|)
  }

  method PasswordGenerator(length: nat, isNumber: bool, isChar: bool, draws: seq<nat>)
    returns (o: Outcome)
    requires DrawsFor(length, isNumber, isChar, draws)
    ensures o.NoOp? <==> length < MinLength
    ensures o.Generated? ==> o.password == Sampled(Build(isNumber, isChar), draws)
    ensures o.Generated? ==> |o.password| == length - Hits(draws, |Build(isNumber, isChar)|)
  {
    if length < MinLength {
      return NoOp;
    }
    var str := Letters;
    if isNumber {
      str := str + Digits;
    }
    if isChar {
      str := str + Symbols;
    }
    assert str == Build(isNumber, isChar);
    var pw := SampleLoop(str, length, draws);
    return Generated(pw);
  }

  /** The `for` loop of the generator: `length` passes, each computing the
      index from the next draw and appending `charAt` of it to `pw`. */
  method SampleLoop(str: string, length: nat, draws: seq<nat>) returns (pw: string)
    requires |draws| == length && DrawsFit(draws, |str|)
    ensures pw == Sampled(str, draws)
    ensures |pw| == length - Hits(draws, |str|)
  {
    pw := "";
    for i := 0 to length
      invariant pw == Sampled(str, draws[..i])
      invariant |pw| == i - Hits(draws[..i], |str|)
    {
      var index := DrawIndex(draws[i]);
      pw := pw + CharAt(str, index);
      SampleStep(str, draws, i);
    }
    assert draws[..length] == draws;
  }

  /** One pass of the loop: extending the draws seen by one extends the
      password by that draw's `charAt`. */
  lemma {:induction false} SampleStep(alphabet: string, draws: seq<nat>, i: nat)
    requires i < |draws|
    requires DrawsFit(draws, |alphabet|)
    ensures Sampled(alphabet, draws[..i + 1])
      == Sampled(alphabet, draws[..i]) + CharAt(alphabet, DrawIndex(draws[i]))
    ensures Hits(draws[..i + 1], |alphabet|)
      == Hits(draws[..i], |alphabet|) + (if DrawIndex(draws[i]) == |alphabet| then 1 else 0)
  {
    assert draws[..i + 1][..i] == draws[..i];
  }

  /** A generated password is never longer than requested, never contains
      `A`, holds a digit only if digits were requested and a special
      character only if those were requested. */
  lemma {:induction false} GeneratedPasswordFacts(isNumber: bool, isChar: bool, draws: seq<nat>)
    requires DrawsFit(draws, |Build(isNumber, isChar)|)
    ensures |Sampled(Build(isNumber, isChar), draws)| <= |draws|
    ensures 'A' !in Sampled(Build(isNumber, isChar), draws)
    ensures !isNumber ==> forall c :: c in Sampled(Build(isNumber, isChar), draws) ==> !IsDigit(c)
    ensures !isChar ==> forall c :: c in Sampled(Build(isNumber, isChar), draws) ==> !IsSymbol(c)
  {
    var s := Build(isNumber, isChar);
    var pw := Sampled(s, draws);
    SampledLength(s, draws);
    SampledFromTail(s, draws);
    AOnlyFirst(isNumber, isChar);
    forall c | c in pw
      ensures c != 'A'
      ensures !isNumber ==> !IsDigit(c)
      ensures !isChar ==> !IsSymbol(c)
    {
      var k :| 0 <= k < |pw| && pw[k] == c;
      assert c in s[1..];
      var j :| 0 <= j < |s[1..]| && s[1..][j] == c;
      assert s[j + 1] == c;
      OptionsExclude(isNumber, isChar, c);
    }
  }

  /** The password may come out shorter than requested: with eight draws
      that all land on index 52, the default options give "" instead of an
      eight-character password. */
  lemma EmptyDefaultPassword()
    ensures DrawsFor(8, false, false, [51, 51, 51, 51, 51, 51, 51, 51])
    ensures Sampled(Build(false, false), [51, 51, 51, 51, 51, 51, 51, 51]) == ""
  {
    AllHitsGiveEmpty(Build(false, false), [51, 51, 51, 51, 51, 51, 51, 51]);
  }
}
