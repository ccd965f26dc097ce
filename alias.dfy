/** The random alias generator. `crypto/rand` appears as the sequence of
    answers its reader gives to successive index draws. */
module Alias {
  import opened Common
  import Requests

  const Lowercase: string := "abcdefghijklmnopqrstuvwxyz"
  const Uppercase: string := "ABCDEFGHIJKLMNOPQRSTUVWXYZ"
  const DecimalDigits: string := "0123456789"

  /** The 62 letters and digits an alias is drawn from, in this order. */
  const Alphabet: string := Lowercase + Uppercase + DecimalDigits

  /** An index into the alphabet: `rand.Int` with bound 62 never returns
      more. */
  type Index = i: nat | i < 62

  /** One call of `rand.Int`: an index, or a failure of the random reader. */
  datatype Draw = Drawn(index: Index) | SourceFailed

  /** The answer to the `i`-th draw, from 0. */
  type RandomSource = nat -> Draw

  predicate AllDrawn(source: RandomSource, length: nat)
  {
    forall i :: 0 <= i < length ==> source(i).Drawn?
  }

  lemma ConcatAlphanumeric(a: string, b: string)
    requires Requests.IsAlphanumeric(a) && Requests.IsAlphanumeric(b)
    ensures Requests.IsAlphanumeric(a + b)
  {
    assert forall i :: 0 <= i < |a + b| ==> (a + b)[i] == if i < |a| then a[i] else b[i - |a|];
  }

  /** The alphabet has 62 characters, all ASCII letters or digits. */
  lemma AlphabetIsAlphanumeric()
    ensures |Alphabet| == 62 && Requests.IsAlphanumeric(Alphabet)
  {
    assert forall i :: 0 <= i < |Lowercase| ==> 'a' <= Lowercase[i] <= 'z';
    assert forall i :: 0 <= i < |Uppercase| ==> 'A' <= Uppercase[i] <= 'Z';
    assert forall i :: 0 <= i < |DecimalDigits| ==> '0' <= DecimalDigits[i] <= '9';
    ConcatAlphanumeric(Lowercase, Uppercase);
    ConcatAlphanumeric(Lowercase + Uppercase, DecimalDigits);
  }

  /** The alias a call returns: one alphabet letter per successful draw,
      or the empty string as soon as one draw fails. */
  function Generated(length: nat, source: RandomSource): (s: string)
    ensures AllDrawn(source, length) <==> |s| == length
    ensures !AllDrawn(source, length) ==> s == ""
    ensures AllDrawn(source, length) ==>
              forall i :: 0 <= i < length ==> s[i] == Alphabet[source(i).index]
  {
    if AllDrawn(source, length) then
      seq(length, i requires 0 <= i < length && source(i).Drawn? => Alphabet[source(i).index])
    else ""
  }

  /** Fill a buffer of `length` bytes index by index. A failing draw makes
      the call return the empty alias and swallows the error, so the error
      result is never set. */
  method GenerateRandomAlias(length: nat, source: RandomSource) returns (s: string, err: Option<Error>)
    ensures err.None?
    ensures s == Generated(length, source)
  {
    var result := new char[length];
    for i := 0 to length
      invariant forall j :: 0 <= j < i ==> source(j).Drawn? && result[j] == Alphabet[source(j).index]
    {
      var draw := source(i);
      if draw.SourceFailed? {
        return "", None;
      }
      result[i] := Alphabet[draw.index];
    }
    s, err := result[..], None;
  }

  /** A generated alias of length 6 passes the custom-alias rule: it is
      alphanumeric and 3 <= 6 <= 100 when the draws succeed, and it is the
      empty string, which the rule lets through, when one fails. */
  lemma GeneratedAliasPassesCustomRule(source: RandomSource)
    ensures Requests.ValidCustomAlias(Generated(6, source))
    ensures AllDrawn(source, 6) ==> |Generated(6, source)| == 6
  {
    var s := Generated(6, source);
    if s != "" {
      AlphabetIsAlphanumeric();
      assert forall i :: 0 <= i < 6 ==> s[i] in Alphabet;
    }
  }
}
