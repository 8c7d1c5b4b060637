/**
  The "Generate Password" click handler, without the page: the length the
  user typed (already through `parseInt`), the two checkboxes and the random
  source come in; a password or the error notification's text comes out.
*/
module GenerateHandler {
  import opened Outcomes
  import opened CharSets
  import opened Generator

  const MinLength: int := 8
  const MaxLength: int := 30
  const LengthError: string := "Password length must be between 8 and 30!"

  /** The handler's guard: a number, neither below 8 nor above 30. */
  predicate LengthAccepted(parsed: Option<int>)
  {
    !(parsed.None? || parsed.value < MinLength || parsed.value > MaxLength)
  }

  /** `Math.max(8, Math.min(30, length))`. */
  function Clamp(n: int): (r: int)
    ensures MinLength <= r <= MaxLength
    ensures MinLength <= n <= MaxLength ==> r == n
    ensures n < MinLength ==> r == MinLength
    ensures n > MaxLength ==> r == MaxLength
  {
    var upper := if n < MaxLength then n else MaxLength;
    if MinLength > upper then MinLength else upper
  }

  /** Every length the guard accepts is left unchanged by the clamp that follows it. */
  lemma ClampIsIdentityAfterGuard(parsed: Option<int>)
    requires LengthAccepted(parsed)
    ensures Clamp(parsed.value) == parsed.value
    ensures MinLength <= parsed.value <= MaxLength
  {
  }

  /**
    The click handler. A missing or out-of-range length yields the error text
    and no password; otherwise the password has exactly the typed length and
    its i-th character is the one the i-th random word picks from the alphabet.
  */
  method OnGenerate(parsed: Option<int>, useNumbers: bool, useSymbols: bool, random: nat -> Uint32)
    returns (r: Result<string, string>)
    ensures r.Failure? <==> !LengthAccepted(parsed)
    ensures r.Failure? ==> r.error == LengthError
    ensures r.Success? ==> MinLength <= |r.value| <= MaxLength && |r.value| == parsed.value
    ensures r.Success? ==> forall i :: 0 <= i < |r.value| ==>
      r.value[i] == PickChar(Alphabet(useNumbers, useSymbols), random(i))
  {
    if parsed.None? || parsed.value < MinLength || parsed.value > MaxLength {
      return Failure(LengthError);
    }
    var length := Clamp(parsed.value);
    var values := seq(length, i requires 0 <= i => random(i));
    var password := GeneratePassword(length, useNumbers, useSymbols, values);
    return Success(password);
  }
}
