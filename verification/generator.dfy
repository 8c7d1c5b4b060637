/**
  `generatePassword`: one character of the working alphabet per random word.

  The random words that the browser's `crypto.getRandomValues` writes into a
  `Uint32Array` of the requested length are an input here, so the generator is
  a deterministic function of the length, the two options and those words.
*/
module Generator {
  import opened CharSets

  /** An element of a `Uint32Array`. */
  type Uint32 = x: int | 0 <= x < 0x1_0000_0000

  /** `chars[value % chars.length]`: the character one random word selects. */
  function PickChar(chars: string, value: Uint32): (c: char)
    requires |chars| > 0
    ensures c in chars
  {
    chars[value % |chars|]
  }

  /** The password that the words `values` spell over `chars`, position by position. */
  function Spell(chars: string, values: seq<Uint32>): string
    requires |chars| > 0
  {
    seq(|values|, i requires 0 <= i < |values| => PickChar(chars, values[i]))
  }

  /**
    The generator: the working alphabet is letters, then digits when `useNumbers`,
    then symbols when `useSymbols`; each of the `length` random words then picks
    one character of it.
  */
  method GeneratePassword(length: nat, useNumbers: bool, useSymbols: bool, values: seq<Uint32>)
    returns (password: string)
    requires |values| == length
    ensures |password| == length
    ensures forall i :: 0 <= i < length ==>
      password[i] == Alphabet(useNumbers, useSymbols)[values[i] % |Alphabet(useNumbers, useSymbols)|]
    ensures forall i :: 0 <= i < length ==> password[i] in Alphabet(useNumbers, useSymbols)
    ensures !useNumbers ==> forall i :: 0 <= i < length ==> !IsDigit(password[i])
    ensures !useSymbols ==> forall i :: 0 <= i < length ==> !IsSymbol(password[i])
  {
    var chars := Letters;
    if useNumbers {
      chars := chars + Digits;
    }
    if useSymbols {
      chars := chars + Symbols;
    }
    assert chars == Alphabet(useNumbers, useSymbols);
    password := "";
    var i := 0;
    while i < length
      invariant 0 <= i <= length
      invariant |password| == i
      invariant forall k :: 0 <= k < i ==> password[k] == chars[values[k] % |chars|]
    {
      password := password + [chars[values[i] % |chars|]];
      i := i + 1;
    }
    SpelledClasses(useNumbers, useSymbols, values);
    assert password == Spell(chars, values);
  }

  /**
    Everything the generator can produce lies in the working alphabet, and so
    carries no digit without `useNumbers` and no symbol without `useSymbols`.
  */
  lemma SpelledClasses(useNumbers: bool, useSymbols: bool, values: seq<Uint32>)
    ensures |Spell(Alphabet(useNumbers, useSymbols), values)| == |values|
    ensures forall i :: 0 <= i < |values| ==>
      Spell(Alphabet(useNumbers, useSymbols), values)[i] in Alphabet(useNumbers, useSymbols)
    ensures !useNumbers ==> forall i :: 0 <= i < |values| ==>
      !IsDigit(Spell(Alphabet(useNumbers, useSymbols), values)[i])
    ensures !useSymbols ==> forall i :: 0 <= i < |values| ==>
      !IsSymbol(Spell(Alphabet(useNumbers, useSymbols), values)[i])
  {
    var chars := Alphabet(useNumbers, useSymbols);
    var password := Spell(chars, values);
    forall i | 0 <= i < |values|
      ensures password[i] in chars
      ensures IsDigit(password[i]) ==> useNumbers
      ensures IsSymbol(password[i]) ==> useSymbols
    {
      AlphabetClasses(useNumbers, useSymbols, password[i]);
    }
  }

  /** Conversely, every character of the alphabet is selected by some random word. */
  lemma EveryCharReachable(useNumbers: bool, useSymbols: bool, c: char)
    requires c in Alphabet(useNumbers, useSymbols)
    ensures exists v: Uint32 :: PickChar(Alphabet(useNumbers, useSymbols), v) == c
  {
    var chars := Alphabet(useNumbers, useSymbols);
    AlphabetSize(useNumbers, useSymbols);
    var k :| 0 <= k < |chars| && chars[k] == c;
    var v: Uint32 := k;
    WordForIndex(chars, v);
  }

  /** A word smaller than the alphabet selects the character at that index. */
  lemma WordForIndex(chars: string, v: Uint32)
    requires v < |chars|
    ensures PickChar(chars, v) == chars[v]
  {
  }

  /**
    The generator samples from the union of the enabled classes and does not
    force one character per class: with numbers and symbols enabled, eight zero
    words still spell a password of letters only.
  */
  lemma NoClassCoverage()
    ensures var p := Spell(Alphabet(true, true), seq(8, _ => 0));
      |p| == 8 && forall i :: 0 <= i < 8 ==> p[i] == 'A' && !IsDigit(p[i]) && !IsSymbol(p[i])
  {
    var chars := Alphabet(true, true);
    AlphabetSize(true, true);
    LettersHalves();
    assert chars[0] == Letters[0] == UpperLetters[0] == 'A';
    var p := Spell(chars, seq(8, _ => 0));
    forall i | 0 <= i < 8 ensures p[i] == 'A' {
      assert p[i] == PickChar(chars, 0) == chars[0];
    }
  }
}
