/**
  The character classes of the password core.

  Two views of "character class" live side by side in the program:
  - the generator's fixed alphabets (`charSets`: letters, numbers, symbols), and
  - the estimator's regular-expression classes `[a-z]`, `[A-Z]`, `\d` and `[\W_]`.
  This module defines both and proves how they relate.
*/
module CharSets {

  /** The generator's three fixed alphabets, in the program's order. */
  const Letters: string := "ABCDEFGHIJKLMNOPQRSTUVWXYZabcdefghijklmnopqrstuvwxyz"
  const Digits: string := "0123456789"
  const Symbols: string := "!@#$%^&*()_+-=[]{}|;:,.<>?"

  /** `[a-z]`, `[A-Z]` and `\d` (ASCII digits only: the patterns carry no `u` flag). */
  predicate IsLower(c: char) { 'a' <= c <= 'z' }
  predicate IsUpper(c: char) { 'A' <= c <= 'Z' }
  predicate IsDigit(c: char) { '0' <= c <= '9' }

  /** `\w` without the `u` flag: `[A-Za-z0-9_]`. */
  predicate IsWordChar(c: char) { IsLower(c) || IsUpper(c) || IsDigit(c) || c == '_' }

  /** `[\W_]`: a non-word character, or the underscore. */
  predicate IsSymbol(c: char) { !IsWordChar(c) || c == '_' }

  datatype CharClass = Lower | Upper | Digit | Symbol

  /** The one estimator class a character belongs to. */
  function ClassOf(c: char): (k: CharClass)
    ensures k == Lower <==> IsLower(c)
    ensures k == Upper <==> IsUpper(c)
    ensures k == Digit <==> IsDigit(c)
    ensures k == Symbol <==> IsSymbol(c)
  {
    if IsLower(c) then Lower
    else if IsUpper(c) then Upper
    else if IsDigit(c) then Digit
    else Symbol
  }

  /** `[\W_]` is exactly "not an ASCII letter or digit": the underscore counts as a symbol. */
  lemma SymbolIsNonAlphanumeric(c: char)
    ensures IsSymbol(c) <==> !(IsLower(c) || IsUpper(c) || IsDigit(c))
    ensures IsSymbol('_')
  {
  }

  /**
    The working alphabet of `generatePassword`: letters always, then the digits
    when numbers are enabled, then the symbols when symbols are enabled.
  */
  function Alphabet(useNumbers: bool, useSymbols: bool): string
  {
    Letters + (if useNumbers then Digits else "") + (if useSymbols then Symbols else "")
  }

  predicate IsLetter(c: char) { IsLower(c) || IsUpper(c) }

  /** The two halves of `Letters`, named so that each can be reasoned about on its own. */
  const UpperLetters: string := "ABCDEFGHIJKLMNOPQRSTUVWXYZ"
  const LowerLetters: string := "abcdefghijklmnopqrstuvwxyz"

  /** A string with no character repeated. */
  predicate Distinct(s: string) {
    forall i, j :: 0 <= i < j < |s| ==> s[i] != s[j]
  }

  lemma LettersHalves()
    ensures Letters == UpperLetters + LowerLetters
    ensures forall j :: 0 <= j < 26 ==> UpperLetters[j] as int == 'A' as int + j
    ensures forall j :: 0 <= j < 26 ==> LowerLetters[j] as int == 'a' as int + j
  {
  }

  /** `Letters` holds exactly the 52 ASCII letters, each once. */
  lemma LettersAreAsciiLetters(c: char)
    ensures c in Letters <==> IsLetter(c)
    ensures |Letters| == 52
    ensures forall j :: 0 <= j < |Letters| ==> IsLetter(Letters[j])
    ensures Distinct(Letters)
  {
    LettersHalves();
    if IsUpper(c) {
      assert UpperLetters[c as int - 'A' as int] == c;
      assert Letters[c as int - 'A' as int] == c;
    } else if IsLower(c) {
      assert LowerLetters[c as int - 'a' as int] == c;
      assert Letters[26 + (c as int - 'a' as int)] == c;
    }
    assert forall j :: 0 <= j < 52 ==> IsLetter(Letters[j]) by {
      forall j | 0 <= j < 52 ensures IsLetter(Letters[j]) {
        if j < 26 { assert Letters[j] == UpperLetters[j]; }
        else { assert Letters[j] == LowerLetters[j - 26]; }
      }
    }
    forall i, j | 0 <= i < j < 52 ensures Letters[i] != Letters[j] {
      if j < 26 {
        assert Letters[i] == UpperLetters[i] && Letters[j] == UpperLetters[j];
      } else if 26 <= i {
        assert Letters[i] == LowerLetters[i - 26] && Letters[j] == LowerLetters[j - 26];
      } else {
        assert Letters[i] == UpperLetters[i] && Letters[j] == LowerLetters[j - 26];
      }
    }
  }

  /** `Digits` holds exactly the ten ASCII digits, each once. */
  lemma DigitsAreAsciiDigits(c: char)
    ensures c in Digits <==> IsDigit(c)
    ensures |Digits| == 10
    ensures forall j :: 0 <= j < |Digits| ==> IsDigit(Digits[j])
    ensures Distinct(Digits)
  {
  }

  /** Every generator symbol is a `[\W_]` symbol for the estimator, and none repeats. */
  lemma SymbolsAreSymbols()
    ensures |Symbols| == 26
    ensures forall j :: 0 <= j < |Symbols| ==> IsSymbol(Symbols[j])
    ensures Distinct(Symbols)
  {
  }

  /**
    Membership in the working alphabet: a character is available exactly when it
    is a letter, a digit with numbers enabled, or one of the symbols with symbols enabled.
  */
  lemma AlphabetMembership(useNumbers: bool, useSymbols: bool, c: char)
    ensures c in Alphabet(useNumbers, useSymbols) <==>
      IsLetter(c) || (useNumbers && IsDigit(c)) || (useSymbols && c in Symbols)
  {
    LettersAreAsciiLetters(c);
    DigitsAreAsciiDigits(c);
  }

  /**
    The working alphabet never offers a digit unless numbers are enabled, nor a
    `[\W_]` symbol unless symbols are enabled.
  */
  lemma AlphabetClasses(useNumbers: bool, useSymbols: bool, c: char)
    requires c in Alphabet(useNumbers, useSymbols)
    ensures IsDigit(c) ==> useNumbers
    ensures IsSymbol(c) ==> useSymbols
    ensures IsSymbol(c) ==> c in Symbols
  {
    AlphabetMembership(useNumbers, useSymbols, c);
    SymbolsAreSymbols();
  }

  lemma DistinctConcat(a: string, b: string)
    requires Distinct(a) && Distinct(b)
    requires forall i, j :: 0 <= i < |a| && 0 <= j < |b| ==> a[i] != b[j]
    ensures Distinct(a + b)
  {
  }

  /**
    The working alphabet has 52, 62, 78 or 88 characters, none of them repeated,
    so it offers exactly that many distinct characters.
  */
  lemma AlphabetSize(useNumbers: bool, useSymbols: bool)
    ensures |Alphabet(useNumbers, useSymbols)| ==
      52 + (if useNumbers then 10 else 0) + (if useSymbols then 26 else 0)
    ensures |Alphabet(useNumbers, useSymbols)| in {52, 62, 78, 88}
    ensures Distinct(Alphabet(useNumbers, useSymbols))
  {
    var digits := if useNumbers then Digits else "";
    var symbols := if useSymbols then Symbols else "";
    LettersAreAsciiLetters('a');
    DigitsAreAsciiDigits('0');
    SymbolsAreSymbols();
    DistinctConcat(Letters, digits);
    var front := Letters + digits;
    forall i | 0 <= i < |front| ensures !IsSymbol(front[i]) {
      if i < 52 { assert front[i] == Letters[i]; } else { assert front[i] == digits[i - 52]; }
    }
    DistinctConcat(front, symbols);
  }
}
