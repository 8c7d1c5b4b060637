# WizardPass password core, in Dafny

This project models the password logic of WizardPass, a browser page that generates
passwords and rates their strength (`script.js`). It models three pure pieces and
proves their properties:

- **Generation** (`generatePassword`). The working alphabet is the 52 letters, then
  the 10 digits when "numbers" is ticked, then the 26 symbols `!@#$%^&*()_+-=[]{}|;:,.<>?`
  when "symbols" is ticked. Each random 32-bit word `v` picks `chars[v % chars.length]`.
  The random words are an input. This makes the generator a deterministic function,
  so its output length and alphabet can be stated exactly.
- **Entropy** (`calculateEntropy`). It has four class flags: `[a-z]`, `[A-Z]`, `\d` and
  `[\W_]`. The charset size sums 26/26/10/32 over the classes present, with the
  `charset || 1` fallback. It also counts distinct characters. The floating-point
  `E = log2(charset^length) + unique * 0.5` and `seconds = 2^E / 1e11` are kept
  exact by squaring: a crack time `s` belongs to password `p` when `s >= 0` and
  `s^2 * 1e22 == charset^(2*length) * 2^unique` (`Entropy.IsCrackSeconds`).
- **Strength** (`checkPasswordStrength`). A threshold classifier turns seconds into
  one of five categories at 1 / 60 / 3600 / 86400 seconds. It shows the time as
  "Instantly" or as a rounded count of seconds, minutes, hours or days. A
  case-insensitive denylist (`password`, `123456`, `qwerty`) then forces
  "Very Weak" / "Instantly". Every returned strength is a key of the phrase table.
- **Generate handler**. It has the length guard (a number from 8 to 30) and the clamp after it.

Modules: `CharSets` (alphabets and character classes), `Generator`, `Entropy`,
`Strength`, `GenerateHandler`, and `Outcomes` (Option/Result values).

The generator does **not** guarantee one character per enabled class. It samples
freely from the union of the enabled classes, with no shuffle and no policy error
(`Generator.NoClassCoverage` exhibits such an output). The strength check has no
hash-prefix breach lookup.

## Model

| member | source | states |
|---|---|---|
| CharSets.ClassOf | script.js:56-59 | every character is in exactly one of lower, upper, digit, symbol, and the class agrees with the four regex tests |
| CharSets.SymbolIsNonAlphanumeric | script.js:59 | `[\W_]` matches exactly the characters that are not ASCII letters or digits, underscore included |
| CharSets.LettersAreAsciiLetters | script.js:21 | the letters constant holds exactly the 52 ASCII letters, each once |
| CharSets.DigitsAreAsciiDigits | script.js:22 | the numbers constant holds exactly the 10 ASCII digits, each once |
| CharSets.SymbolsAreSymbols | script.js:23 | the symbols constant has 26 distinct characters, each a `[\W_]` symbol |
| CharSets.AlphabetMembership | script.js:30-32 | a character is in the working alphabet iff it is a letter, a digit with numbers on, or a listed symbol with symbols on |
| CharSets.AlphabetClasses | script.js:30-32 | the working alphabet has no digit unless numbers are on and no symbol unless symbols are on |
| CharSets.AlphabetSize | script.js:20-32 | the working alphabet has 52, 62, 78 or 88 characters, according to the options, with no repeats |
| Generator.PickChar | script.js:41 | the character a random word selects is in the alphabet |
| Generator.GeneratePassword | script.js:29-50 | the password has exactly `length` characters; character i is `chars[values[i] % chars.length]`; all are in the alphabet; there are no digits or symbols unless enabled |
| Generator.SpelledClasses | script.js:38-42 | every generated character is in the working alphabet and respects the two options |
| Generator.EveryCharReachable | script.js:41 | every character of the working alphabet is selected by some 32-bit word |
| Generator.NoClassCoverage | script.js:29-50 | with numbers and symbols enabled, a password with no digit and no symbol can still be generated |
| Entropy.SomeClassPresent | script.js:56-59 | a non-empty password has at least one class flag set |
| Entropy.Charset | script.js:63-67 | the charset size is at most 94, is 0 exactly for the empty password, and is at least 10 otherwise |
| Entropy.EffectiveCharset | script.js:70 | the fallback to charset 1 is between 1 and 94, and is 1 exactly for the empty password |
| Entropy.CharsetGrows | script.js:56-67 | appending characters never lowers the charset size |
| Entropy.CharsetOfGenerated | script.js:64-67 | for a password over the working alphabet, the estimator credits at most 52, plus 10 with numbers, plus 32 with symbols |
| Entropy.UniqueChars | script.js:60 | the distinct characters are exactly the password's characters; there are no more of them than its length, and none only for the empty password |
| Entropy.GuessSpaceSquared | script.js:70 | the squared guess space `charset^(2*length) * 2^unique` is at least 1 |
| Entropy.EmptyPasswordSeconds | script.js:63-79 | for the empty password the squared guess space is 1, so the crack time is exactly 1e-11 seconds |
| Strength.NamesAreThePhraseKeys | script.js:113-174 | the five strength names are distinct and are exactly the keys of the phrase table |
| Strength.Round | script.js:89 | `Math.round` gives the integer within half of x, with halves rounded up |
| Strength.NatToString | script.js:89-98 | the text of a count is one or more decimal digits, with no leading zero unless the count is 0 |
| Strength.NatToStringRoundTrip | script.js:89-98 | the decimal text of a count reads back as the same count |
| Strength.Duration | script.js:89-98 | a shown duration is never the text "Instantly" |
| Strength.RoundingReachesNextUnit | script.js:87-89 | 59.5 seconds is Weak yet shows "60 seconds": rounding can display a full unit of the next category |
| Strength.ClassifyMonotone | script.js:84-99 | a longer crack time never gives a weaker category |
| Strength.Classify | script.js:84-99 | the time text is "Instantly" iff Very Weak; otherwise it is the `Math.round` count in the category's unit (at least 1, at most 60 s, 60 min or 24 h) followed by the category's own unit |
| Strength.ToLowerCase | script.js:102 | lower-casing keeps the length, leaves no upper-case ASCII letter, and changes nothing but upper-case ASCII letters |
| Strength.IsSubstringIff | script.js:102 | the substring search succeeds iff the pattern occurs at some position |
| Strength.CommonPatternIgnoresCase | script.js:102 | two passwords that agree up to letter case are both denylisted or both not |
| Strength.CheckPasswordStrength | script.js:76-108 | a denylisted password is Very Weak / "Instantly"; the result is Very Weak iff denylisted or under 1 second, and Very Weak iff "Instantly"; the strength is always a phrase-table key |
| Strength.ClassifyMatchesGuessSpace | script.js:77-99 | for a password's idealised crack time, the classifier's category equals the one its integer guess space gives |
| Strength.StrengthOfPassword | script.js:76-107 | the category of a password is Very Weak if denylisted, and otherwise is given by its guess space |
| Strength.EmptyPasswordIsVeryWeak | script.js:70-86 | the empty password rates Very Weak / "Instantly" |
| Strength.PasswordWithDigitsIsVeryWeak | script.js:101-105 | "password123" rates Very Weak / "Instantly" for any crack time |
| Strength.UpperCaseQwertyIsVeryWeak | script.js:101-105 | "MyQWERTYkeys" rates Very Weak / "Instantly" for any crack time: the match ignores case |
| GenerateHandler.Clamp | script.js:210 | the clamp lands in [8, 30] and leaves lengths already in [8, 30] unchanged |
| GenerateHandler.ClampIsIdentityAfterGuard | script.js:205-210 | every length the guard accepts passes through the clamp unchanged |
| GenerateHandler.OnGenerate | script.js:201-217 | a missing or out-of-range length gives the error text and no password; otherwise the password has the typed length, and character i is the one random word i picks |

## Left out

- Randomness: `crypto.getRandomValues` and the `Math.random()` fallback (script.js:43-47) are left out. The random words are an input. Uniformity and the modulo bias of `% chars.length` are not modelled.
- Floating point: `Math.log2`, `Math.pow`, overflow to `Infinity` on long passwords, and binary rounding are left out. Entropy and seconds are exact ideal values.
- Strength.CheckPasswordStrength: takes the crack time as a real parameter instead of computing it from the password. It is tied to the password only through `Entropy.IsCrackSeconds`, which relates the square of the time to the guess space, because `2^(unique/2)` is irrational for an odd count.
- Strength.Classify: shows the count of days as its exact plain decimal digits. The program formats a double instead. Every count of 1e21 days or more prints in exponent form (a count of exactly 1.9e22 shows as `1.9e+22 days+`), and ordinary passwords reach it: 18 distinct characters over all four classes give about 127 bits, about 1.9e22 days. The generator's lengths 18-30 produce such passwords routinely. Above 2^53 days, from about 16 characters, the program also prints the double's rounded digits, not the exact count.
- Strength.NatToString: writes plain decimal digits for every count. JavaScript's number-to-text switches to exponent notation for every count of 1e21 or more, so the two texts differ from there on.
- `parseInt` itself is not modelled. The handler receives its result, with `None` standing for `NaN`.
- Unicode: passwords are sequences of BMP characters. The difference between UTF-16 length and `Set` iteration over code points for astral characters is not modelled.
- The page is not modelled. This covers element lookups, notifications and their fade timers, clipboard copy, tab switching, and HTML rendering (script.js:4-15, 178-197, 221-239, 264-285). It also covers the "Check Strength" handler's trimming and empty-input message (script.js:243-262), and the random choice of a phrase and the phrase texts themselves (script.js:258).
