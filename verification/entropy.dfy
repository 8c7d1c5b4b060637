/**
  `calculateEntropy`: class-presence flags, the summed charset size with its
  `charset || 1` fallback, the distinct-character count, and the idealised
  guess space `2^E` that the strength check turns into seconds.

  The program computes `E = log2(charset^length) + unique * 0.5` in floating
  point and then `seconds = 2^E / 1e11`. Here `2^E = charset^length * 2^(unique/2)`
  is kept exact by squaring it: `(2^E)^2 = charset^(2 * length) * 2^unique`, an
  integer, and the crack time is any non-negative real whose square times
  `1e11^2` equals that integer.
*/
module Entropy {
  import opened CharSets

  /** The four `RegExp.test` flags: some position of the password is in the class. */
  predicate HasLower(p: string) { exists i :: 0 <= i < |p| && IsLower(p[i]) }
  predicate HasUpper(p: string) { exists i :: 0 <= i < |p| && IsUpper(p[i]) }
  predicate HasNumber(p: string) { exists i :: 0 <= i < |p| && IsDigit(p[i]) }
  predicate HasSymbol(p: string) { exists i :: 0 <= i < |p| && IsSymbol(p[i]) }

  /** A non-empty password has at least one of the four classes present. */
  lemma SomeClassPresent(p: string)
    ensures |p| > 0 ==> HasLower(p) || HasUpper(p) || HasNumber(p) || HasSymbol(p)
  {
    if |p| > 0 {
      match ClassOf(p[0])
      case Lower => assert IsLower(p[0]);
      case Upper => assert IsUpper(p[0]);
      case Digit => assert IsDigit(p[0]);
      case Symbol => assert IsSymbol(p[0]);
    }
  }

  /**
    The charset size: 26 for lower case, 26 for upper case, 10 for digits and 32
    for symbols, summed over the classes present. It is at most 94, and 0
    exactly for the empty password.
  */
  function Charset(p: string): (n: nat)
    ensures n <= 94
    ensures n == 0 <==> |p| == 0
    ensures |p| > 0 ==> n >= 10
  {
    SomeClassPresent(p);
    (if HasLower(p) then 26 else 0)
    + (if HasUpper(p) then 26 else 0)
    + (if HasNumber(p) then 10 else 0)
    + (if HasSymbol(p) then 32 else 0)
  }

  /** `charset || 1`: the size used in the logarithm, never 0, and 1 only for the empty password. */
  function EffectiveCharset(p: string): (n: nat)
    ensures 1 <= n <= 94
    ensures n == 1 <==> |p| == 0
  {
    if Charset(p) == 0 then 1 else Charset(p)
  }

  /** Appending characters never removes a class, so the charset size never shrinks. */
  lemma CharsetGrows(p: string, q: string)
    ensures Charset(p) <= Charset(p + q)
  {
    var pq := p + q;
    assert forall i :: 0 <= i < |p| ==> pq[i] == p[i];
    if HasLower(p) { var i :| 0 <= i < |p| && IsLower(p[i]); assert IsLower(pq[i]); }
    if HasUpper(p) { var i :| 0 <= i < |p| && IsUpper(p[i]); assert IsUpper(pq[i]); }
    if HasNumber(p) { var i :| 0 <= i < |p| && IsDigit(p[i]); assert IsDigit(pq[i]); }
    if HasSymbol(p) { var i :| 0 <= i < |p| && IsSymbol(p[i]); assert IsSymbol(pq[i]); }
  }

  /**
    For a password drawn from the generator's alphabet the estimator sees no
    digits without numbers and no symbols without symbols. It still credits 32
    for symbols, although the generator offers only 26 of them.
  */
  lemma CharsetOfGenerated(useNumbers: bool, useSymbols: bool, p: string)
    requires forall i :: 0 <= i < |p| ==> p[i] in Alphabet(useNumbers, useSymbols)
    ensures Charset(p) <= 52 + (if useNumbers then 10 else 0) + (if useSymbols then 32 else 0)
  {
    if HasNumber(p) {
      var i :| 0 <= i < |p| && IsDigit(p[i]);
      AlphabetClasses(useNumbers, useSymbols, p[i]);
    }
    if HasSymbol(p) {
      var i :| 0 <= i < |p| && IsSymbol(p[i]);
      AlphabetClasses(useNumbers, useSymbols, p[i]);
    }
  }

  /**
    `new Set(password)`: the distinct characters. It holds exactly the characters
    of the password, has no more members than the password has positions, and is
    empty only for the empty password.
  */
  function UniqueChars(p: string): (r: set<char>)
    ensures forall c :: c in r <==> c in p
    ensures |r| <= |p|
    ensures |r| == 0 <==> |p| == 0
  {
    if |p| == 0 then {}
    else
      assert p[0] in p;
      {p[0]} + UniqueChars(p[1..])
  }

  /** `new Set(password).size`. */
  function UniqueCount(p: string): nat
  {
    |UniqueChars(p)|
  }

  function Pow(b: nat, e: nat): (r: nat)
    ensures b >= 1 ==> r >= 1
  {
    if e == 0 then 1 else b * Pow(b, e - 1)
  }

  /** The attacker's assumed throughput, in guesses per second. */
  const GuessesPerSecond: nat := 100_000_000_000

  /** `GuessesPerSecond` squared, the scale of the squared guess space. */
  const GuessesSquared: nat := GuessesPerSecond * GuessesPerSecond

  /**
    The square of the guess space `2^E`: `charset^(2 * length) * 2^unique`,
    with the `charset || 1` fallback.
  */
  function GuessSpaceSquared(p: string): (n: nat)
    ensures n >= 1
  {
    Pow(EffectiveCharset(p), 2 * |p|) * Pow(2, UniqueCount(p))
  }

  /**
    `seconds` is the idealised crack time of `p`: `2^E / 1e11`, stated through
    its square so that no irrational root has to be computed.
  */
  predicate IsCrackSeconds(p: string, seconds: real)
  {
    0.0 <= seconds
    && seconds * seconds * GuessesSquared as real == GuessSpaceSquared(p) as real
  }

  /**
    The empty password falls back to charset 1 and has no distinct characters,
    so its guess space is 1 and its crack time exactly `1 / 1e11` seconds.
  */
  lemma EmptyPasswordSeconds(seconds: real)
    ensures GuessSpaceSquared("") == 1
    ensures IsCrackSeconds("", seconds) <==> seconds == 1.0 / GuessesPerSecond as real
  {
    assert UniqueChars("") == {};
    var g := GuessesPerSecond as real;
    if IsCrackSeconds("", seconds) {
      var x := seconds * g;
      assert x * x == 1.0;
      SquareMonotone(x, 1.0);
      SquareMonotone(1.0, x);
    }
  }

  /** For non-negative reals, comparing the numbers is comparing their squares. */
  lemma SquareMonotone(s: real, t: real)
    requires 0.0 <= s && 0.0 < t
    ensures s < t <==> s * s < t * t
  {
    if s < t {
      var d := t - s;
      assert t * t == (s + d) * (s + d) == s * s + 2.0 * s * d + d * d;
      assert s * d >= 0.0;
      assert d * d > 0.0;
    } else {
      var d := s - t;
      assert s * s == (t + d) * (t + d) == t * t + 2.0 * t * d + d * d;
      assert t * d >= 0.0;
      assert d * d >= 0.0;
    }
  }
}
