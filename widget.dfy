/** The password generator component: its four state values, the handlers
    of its controls, and the effect that re-runs the generator whenever an
    option changes. Each handler makes the state update and then the
    regeneration the effect would trigger, with the random draws supplied by
    the caller. */
module Widget {
  import opened Alphabet
  import opened Sampling
  import opened Generator

  /** The range control's bounds. */
  const MaxLength: nat := 20

  class PasswordWidget {
    var length: nat
    var isNumber: bool
    var isChar: bool
    var password: string

    /** The state the controls can reach: the length within the range
        control's bounds, and a password that `A` never enters and that,
        while the length admits generation, came from the current options. */
    ghost predicate Valid()
      reads this
      ensures Valid() ==> length <= MaxLength && 'A' !in password
      ensures Valid() && length >= MinLength ==> |password| <= length
    {
      Bounded() && (length >= MinLength ==> Fits(password, length, isNumber, isChar))
    }

    /** What holds even between an option's update and the regeneration
        that follows it. */
    ghost predicate Bounded()
      reads this
    {
      length <= MaxLength && |password| <= MaxLength && 'A' !in password
    }

    /** The default state, before the first render's effect has run. */
    constructor ()
      ensures Valid()
      ensures length == 8 && !isNumber && !isChar && password == ""
    {
      length := 8;
      isNumber := false;
      isChar := false;
      password := "";
    }

    /** `passwordGenerator` run on the current options: below the minimum
        length the password stays as it was; otherwise it is replaced by the
        sampled one. Nothing else changes. */
    method Generate(draws: seq<nat>)
      requires Bounded()
      requires DrawsFor(length, isNumber, isChar, draws)
      modifies this`password
      ensures Valid()
      ensures password == if length >= MinLength then Sampled(Build(isNumber, isChar), draws)
                          else old(password)
    {
      var o := PasswordGenerator(length, isNumber, isChar, draws);
      if o.Generated? {
        GeneratedFits(length, isNumber, isChar, draws);
        password := o.password;
      }
    }

    /** The effect's first run, after the component mounts. */
    method Mount(draws: seq<nat>)
      requires Valid()
      requires DrawsFor(length, isNumber, isChar, draws)
      modifies this`password
      ensures Valid()
      ensures password == if length >= MinLength then Sampled(Build(isNumber, isChar), draws)
                          else old(password)
    {
      Generate(draws);
    }

    /** The range control: store the new length; when it differs from the
        old one, the effect regenerates with it. */
    method SetLength(value: nat, draws: seq<nat>)
      requires Valid()
      requires value <= MaxLength
      requires DrawsFor(value, isNumber, isChar, draws)
      modifies this`length, this`password
      ensures Valid()
      ensures length == value
      ensures password ==
        if value != old(length) && value >= MinLength then Sampled(Build(isNumber, isChar), draws)
        else old(password)
    {
      if value != length {
        length := value;
        Generate(draws);
      }
    }

    /** The digits checkbox: negate `isNumber`, then regenerate. */
    method ToggleNumber(draws: seq<nat>)
      requires Valid()
      requires DrawsFor(length, !isNumber, isChar, draws)
      modifies this`isNumber, this`password
      ensures Valid()
      ensures isNumber == !old(isNumber)
      ensures password == if length >= MinLength then Sampled(Build(isNumber, isChar), draws)
                          else old(password)
    {
      isNumber := !isNumber;
      Generate(draws);
    }

    /** The special-characters checkbox: negate `isChar`, then regenerate. */
    method ToggleChar(draws: seq<nat>)
      requires Valid()
      requires DrawsFor(length, isNumber, !isChar, draws)
      modifies this`isChar, this`password
      ensures Valid()
      ensures isChar == !old(isChar)
      ensures password == if length >= MinLength then Sampled(Build(isNumber, isChar), draws)
                          else old(password)
    {
      isChar := !isChar;
      Generate(draws);
    }

    /** The "generate new password" button calls the generator directly. */
    method ClickGenerate(draws: seq<nat>)
      requires Valid()
      requires DrawsFor(length, isNumber, isChar, draws)
      modifies this`password
      ensures Valid()
      ensures password == if length >= MinLength then Sampled(Build(isNumber, isChar), draws)
                          else old(password)
    {
      Generate(draws);
    }
  }

  /** A password is consistent with the options: no longer than `length`,
      and made only of characters the generator can pick for them. */
  predicate Fits(password: string, length: nat, isNumber: bool, isChar: bool) {
    |password| <= length &&
    forall k :: 0 <= k < |password| ==> password[k] in Build(isNumber, isChar)[1..]
  }

  /** What the generator produces fits the options it ran with, and holds
      no `A`. */
  lemma {:induction false} GeneratedFits(length: nat, isNumber: bool, isChar: bool, draws: seq<nat>)
    requires DrawsFor(length, isNumber, isChar, draws)
    ensures Fits(Sampled(Build(isNumber, isChar), draws), length, isNumber, isChar)
    ensures 'A' !in Sampled(Build(isNumber, isChar), draws)
  {
    SampledLength(Build(isNumber, isChar), draws);
    SampledFromTail(Build(isNumber, isChar), draws);
    GeneratedPasswordFacts(isNumber, isChar, draws);
  }

  /** A fitting password has no digit without `isNumber` and no special
      character without `isChar`. */
  lemma {:induction false} FitsExcludes(password: string, length: nat, isNumber: bool, isChar: bool)
    requires Fits(password, length, isNumber, isChar)
    ensures !isNumber ==> forall c :: c in password ==> !IsDigit(c)
    ensures !isChar ==> forall c :: c in password ==> !IsSymbol(c)
  {
    var s := Build(isNumber, isChar);
    forall c | c in password
      ensures !isNumber ==> !IsDigit(c)
      ensures !isChar ==> !IsSymbol(c)
    {
      var k :| 0 <= k < |password| && password[k] == c;
      var j :| 0 <= j < |s[1..]| && s[1..][j] == c;
      assert s[j + 1] == c;
      OptionsExclude(isNumber, isChar, c);
    }
  }

  /** A password that fits the default options is made of ASCII letters
      other than `A`. */
  lemma {:induction false} DefaultFitsLetters(password: string, length: nat)
    requires Fits(password, length, false, false)
    ensures forall k :: 0 <= k < |password| ==>
      (IsUpper(password[k]) || IsLower(password[k])) && password[k] != 'A'
  {
    LettersFacts();
    var s := Build(false, false);
    assert s == Letters;
    forall k | 0 <= k < |password|
      ensures (IsUpper(password[k]) || IsLower(password[k])) && password[k] != 'A'
    {
      var j :| 0 <= j < |s[1..]| && s[1..][j] == password[k];
      assert password[k] == Letters[j + 1] == Letters[1..][j];
    }
  }

  /** The first render and its effect: with the defaults, the password the
      user first sees has eight characters less one per draw that hits index
      52, all letters other than `A`. */
  method MountedPassword(draws: seq<nat>) returns (pw: string)
    requires DrawsFor(8, false, false, draws)
    ensures |pw| == 8 - Hits(draws, 52)
    ensures forall k :: 0 <= k < |pw| ==> (IsUpper(pw[k]) || IsLower(pw[k])) && pw[k] != 'A'
  {
    var w := new PasswordWidget();
    w.Mount(draws);
    pw := w.password;
    SampledLength(Build(false, false), draws);
    DefaultFitsLetters(pw, 8);
  }

  /** A password that fits letters and digits is made of ASCII letters
      other than `A` and of digits. */
  lemma {:induction false} NumbersFitsAlnum(password: string, length: nat)
    requires Fits(password, length, true, false)
    ensures forall c :: c in password ==> (IsUpper(c) || IsLower(c) || IsDigit(c)) && c != 'A'
  {
    LettersFacts();
    var s := Build(true, false);
    assert s == Letters + Digits;
    forall c | c in password
      ensures (IsUpper(c) || IsLower(c) || IsDigit(c)) && c != 'A'
    {
      var k :| 0 <= k < |password| && password[k] == c;
      var j :| 0 <= j < |s[1..]| && s[1..][j] == c;
      if j + 1 < 52 {
        assert c == Letters[j + 1] == Letters[1..][j];
      } else {
        assert c == Digits[j + 1 - 52];
      }
    }
  }

  /** A user who ticks "Number" and then moves the length to twelve gets
      twelve characters less one per draw that hits index 62, all letters
      other than `A` or digits, so no special character. */
  method NumbersOnlyPassword(first: seq<nat>, draws: seq<nat>) returns (pw: string)
    requires DrawsFor(8, true, false, first)
    requires DrawsFor(12, true, false, draws)
    ensures |pw| == 12 - Hits(draws, 62)
    ensures forall c :: c in pw ==> (IsUpper(c) || IsLower(c) || IsDigit(c)) && c != 'A'
    ensures forall c :: c in pw ==> !IsSymbol(c)
  {
    var w := new PasswordWidget();
    w.ToggleNumber(first);
    w.SetLength(12, draws);
    pw := w.password;
    SampledLength(Build(true, false), draws);
    assert Fits(pw, 12, true, false);
    NumbersFitsAlnum(pw, 12);
    FitsExcludes(pw, 12, true, false);
  }
}
