/** How the generator turns random draws into characters. `Math.random()`
    is replaced by an oracle: the i-th draw is a whole number `u < n`, where
    `n` is the alphabet size, standing for `floor(r * n)` with `r` in [0, 1).
    The index the generator computes, `floor(r * n + 1)`, is then `u + 1`. */
module Sampling {

  /** The draws are what `floor(r * n)` can produce for an alphabet of size `n`. */
  predicate DrawsFit(draws: seq<nat>, n: nat) {
    forall i :: 0 <= i < |draws| ==> draws[i] < n
  }

  /** The index computed from one draw, as written: one more than the draw. */
  function DrawIndex(u: nat): (index: nat)
    ensures index > 0
  {
    u + 1
  }

  /** An as-written index always lies in [1, n]: never 0, sometimes n. */
  lemma {:induction false} DrawIndexRange(u: nat, n: nat)
    requires u < n
    ensures 1 <= DrawIndex(u) <= n
    ensures DrawIndex(u) == n <==> u == n - 1
  {
  }

  /** JavaScript's `String.prototype.charAt`: the character at `index`, or the
      empty string when `index` is outside the string. */
  function CharAt(s: string, index: int): (r: string)
    ensures |r| <= 1
    ensures |r| == 1 <==> 0 <= index < |s|
    ensures |r| == 1 ==> r[0] == s[index]
  {
    if 0 <= index < |s| then [s[index]] else ""
  }

  /** The number of draws whose index is `n`, where `charAt` yields "". */
  function Hits(draws: seq<nat>, n: nat): (h: nat)
    ensures h <= |draws|
  {
    if draws == [] then 0
    else Hits(draws[..|draws| - 1], n) + (if DrawIndex(draws[|draws| - 1]) == n then 1 else 0)
  }

  /** The password the loop accumulates: one `charAt` per draw, in order. */
  function Sampled(alphabet: string, draws: seq<nat>): (pw: string)
    ensures |pw| <= |draws|
  {
    if draws == [] then ""
    else Sampled(alphabet, draws[..|draws| - 1]) + CharAt(alphabet, DrawIndex(draws[|draws| - 1]))
  }

  /** Each draw that hits index `n` loses one character: the password is
      `|draws| - Hits` long, so never longer than the number of draws. */
  lemma {:induction false} SampledLength(alphabet: string, draws: seq<nat>)
    requires DrawsFit(draws, |alphabet|)
    ensures |Sampled(alphabet, draws)| == |draws| - Hits(draws, |alphabet|)
    ensures |Sampled(alphabet, draws)| <= |draws|
  {
    if draws != [] {
      var init := draws[..|draws| - 1];
      assert DrawsFit(init, |alphabet|) by {
        forall i | 0 <= i < |init| ensures init[i] < |alphabet| {
          assert init[i] == draws[i];
        }
      }
      SampledLength(alphabet, init);
    }
  }

  /** Every character of the password comes from the alphabet past its first
      position: position 0 is never chosen. */
  lemma {:induction false} SampledFromTail(alphabet: string, draws: seq<nat>)
    requires |alphabet| > 0
    ensures forall k :: 0 <= k < |Sampled(alphabet, draws)| ==>
      Sampled(alphabet, draws)[k] in alphabet[1..]
  {
    if draws != [] {
      var init := draws[..|draws| - 1];
      SampledFromTail(alphabet, init);
      var prev := Sampled(alphabet, init);
      var last := CharAt(alphabet, DrawIndex(draws[|draws| - 1]));
      forall k | 0 <= k < |prev + last|
        ensures (prev + last)[k] in alphabet[1..]
      {
        if k >= |prev| {
          var j := DrawIndex(draws[|draws| - 1]);
          assert (prev + last)[k] == alphabet[j] == alphabet[1..][j - 1];
        } else {
          assert (prev + last)[k] == prev[k];
        }
      }
    }
  }

  /** When no draw hits index `n`, the password has one character per draw,
      namely the alphabet's character at that draw's index. */
  lemma {:induction false} SampledExact(alphabet: string, draws: seq<nat>)
    requires DrawsFit(draws, |alphabet|)
    requires Hits(draws, |alphabet|) == 0
    ensures |Sampled(alphabet, draws)| == |draws|
    ensures forall k :: 0 <= k < |draws| ==>
      draws[k] + 1 < |alphabet| && Sampled(alphabet, draws)[k] == alphabet[draws[k] + 1]
  {
    if draws != [] {
      var init := draws[..|draws| - 1];
      assert DrawsFit(init, |alphabet|) by {
        forall i | 0 <= i < |init| ensures init[i] < |alphabet| {
          assert init[i] == draws[i];
        }
      }
      SampledExact(alphabet, init);
      var u := draws[|draws| - 1];
      var prev := Sampled(alphabet, init);
      assert u + 1 < |alphabet|;
      var last := CharAt(alphabet, DrawIndex(u));
      forall k | 0 <= k < |draws|
        ensures draws[k] + 1 < |alphabet| && (prev + last)[k] == alphabet[draws[k] + 1]
      {
        if k < |init| {
          assert init[k] == draws[k];
        }
      }
    }
  }

  /** Every draw landing on the last character's slot (index `n`) gives the
      empty password, whatever the number of draws. */
  lemma {:induction false} AllHitsGiveEmpty(alphabet: string, draws: seq<nat>)
    requires |alphabet| > 0
    requires forall i :: 0 <= i < |draws| ==> draws[i] == |alphabet| - 1
    ensures Sampled(alphabet, draws) == ""
  {
    if draws != [] {
      var init := draws[..|draws| - 1];
      assert forall i :: 0 <= i < |init| ==> init[i] == draws[i];
      AllHitsGiveEmpty(alphabet, init);
    }
  }
}
