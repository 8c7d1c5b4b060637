/**
  `checkPasswordStrength`: the crack-time classifier, the case-insensitive
  denylist override, and the five strength names that key the phrase table.

  The classifier takes the estimated crack time in seconds as a real number;
  `Entropy.IsCrackSeconds` says which real that is for a given password, and
  `CategoryFromGuessSpace` computes the resulting category exactly in integers.
*/
module Strength {
  import opened Entropy

  datatype Category = VeryWeak | Weak | Medium | Strong | VeryStrong {

    /** The strength text the program returns, which is also the phrase-table key. */
    function Name(): string
    {
      match this
      case VeryWeak => "Very Weak"
      case Weak => "Weak"
      case Medium => "Medium"
      case Strong => "Strong"
      case VeryStrong => "Very Strong"
    }

    /** Position in the ascending order of strength. */
    function Rank(): nat
    {
      match this
      case VeryWeak => 0
      case Weak => 1
      case Medium => 2
      case Strong => 3
      case VeryStrong => 4
    }

    /** The unit the crack time is shown in, in seconds (unused for `VeryWeak`). */
    function UnitSeconds(): real
    {
      match this
      case VeryWeak => 1.0
      case Weak => 1.0
      case Medium => 60.0
      case Strong => 3600.0
      case VeryStrong => 86400.0
    }

    /** The text after the count: " seconds", " minutes", " hours" or " days+". */
    function UnitSuffix(): string
    {
      match this
      case VeryWeak => ""
      case Weak => " seconds"
      case Medium => " minutes"
      case Strong => " hours"
      case VeryStrong => " days+"
    }
  }

  /** The object `{ strength, timeToCrack }`, with the strength kept as a category. */
  datatype Rating = Rating(category: Category, timeToCrack: string)

  /** The keys of the phrase table. */
  const PhraseKeys: set<string> := {"Very Weak", "Weak", "Medium", "Strong", "Very Strong"}

  /** Each category names a distinct key of the phrase table, and every key is named. */
  lemma NamesAreThePhraseKeys()
    ensures forall c: Category :: c.Name() in PhraseKeys
    ensures forall c: Category, d: Category :: c.Name() == d.Name() ==> c == d
    ensures forall k :: k in PhraseKeys ==> exists c: Category :: c.Name() == k
  {
    assert VeryWeak.Name() == "Very Weak";
    assert Weak.Name() == "Weak";
    assert Medium.Name() == "Medium";
    assert Strong.Name() == "Strong";
    assert VeryStrong.Name() == "Very Strong";
  }

  /** `Math.round`: the nearest integer, halves rounded up. */
  function Round(x: real): (n: int)
    ensures x - 0.5 < n as real <= x + 0.5
  {
    (x + 0.5).Floor
  }

  function DigitChar(d: nat): (c: char)
    requires d < 10
  {
    ('0' as int + d) as char
  }

  /** The decimal text of a whole number, as a template literal renders it. */
  function NatToString(n: nat): (s: string)
    ensures |s| >= 1
    ensures forall i :: 0 <= i < |s| ==> '0' <= s[i] <= '9'
    ensures s[0] == '0' ==> n == 0
  {
    if n < 10 then [DigitChar(n)] else NatToString(n / 10) + [DigitChar(n % 10)]
  }

  /** Reads decimal digits back into a number. */
  function DecimalValue(s: string): nat
    requires forall i :: 0 <= i < |s| ==> '0' <= s[i] <= '9'
  {
    if |s| == 0 then 0
    else DecimalValue(s[..|s| - 1]) * 10 + (s[|s| - 1] as int - '0' as int)
  }

  /** The rendered count reads back as the same number, so distinct counts render distinctly. */
  lemma {:induction false} NatToStringRoundTrip(n: nat)
    ensures DecimalValue(NatToString(n)) == n
  {
    var s := NatToString(n);
    if n >= 10 {
      NatToStringRoundTrip(n / 10);
      assert s[..|s| - 1] == NatToString(n / 10);
    }
  }

  /** The count shown next to the unit: seconds divided by the unit, rounded. */
  function Count(seconds: real, c: Category): int
  {
    Round(seconds / c.UnitSeconds())
  }

  /** The shown crack time for a count in a category's unit, such as "5 minutes". */
  function Duration(n: nat, c: Category): (text: string)
    ensures text != "Instantly"
  {
    var digits := NatToString(n);
    var text := digits + c.UnitSuffix();
    assert text[0] == digits[0] != 'I' == "Instantly"[0];
    text
  }

  /**
    The thresholds: under 1 second is Very Weak, under a minute Weak, under an
    hour Medium, under a day Strong, and anything longer Very Strong.
  */
  function CategoryOf(seconds: real): Category
  {
    if seconds < 1.0 then VeryWeak
    else if seconds < 60.0 then Weak
    else if seconds < 3600.0 then Medium
    else if seconds < 86400.0 then Strong
    else VeryStrong
  }

  /** A longer crack time never gives a weaker category. */
  lemma ClassifyMonotone(s1: real, s2: real)
    requires s1 <= s2
    ensures CategoryOf(s1).Rank() <= CategoryOf(s2).Rank()
  {
  }

  /**
    The classifier: the category of the crack time, shown as "Instantly" for
    Very Weak and otherwise as the rounded count in the category's unit, which
    is at least 1, at most 60 seconds, 60 minutes or 24 hours below Very Strong.
  */
  function Classify(seconds: real): (r: Rating)
    ensures r.category == CategoryOf(seconds)
    ensures r.category == VeryWeak <==> r.timeToCrack == "Instantly"
    ensures r.category != VeryWeak ==>
      && 1 <= Count(seconds, r.category)
      && r.timeToCrack == Duration(Count(seconds, r.category), r.category)
    ensures r.category == Weak || r.category == Medium ==> Count(seconds, r.category) <= 60
    ensures r.category == Strong ==> Count(seconds, r.category) <= 24
  {
    var c := CategoryOf(seconds);
    if c == VeryWeak then
      Rating(VeryWeak, "Instantly")
    else
      assert seconds / c.UnitSeconds() >= 1.0;
      Rating(c, Duration(Round(seconds / c.UnitSeconds()), c))
  }

  /**
    Rounding can show the next unit's worth: 59.5 seconds is still Weak, but
    reads "60 seconds".
  */
  lemma RoundingReachesNextUnit()
    ensures Classify(59.5) == Rating(Weak, "60 seconds")
  {
  }

  /** The denylist: substrings that make any password Very Weak. */
  const CommonPatterns: seq<string> := ["password", "123456", "qwerty"]

  function LowerAscii(c: char): char
  {
    if 'A' <= c <= 'Z' then (c as int - 'A' as int + 'a' as int) as char else c
  }

  /** ASCII lower-casing, position by position. */
  function ToLowerCase(s: string): (r: string)
    ensures |r| == |s|
    ensures forall i :: 0 <= i < |s| ==> r[i] == LowerAscii(s[i])
    ensures forall i :: 0 <= i < |r| ==> !('A' <= r[i] <= 'Z')
    ensures forall i :: 0 <= i < |s| && !('A' <= s[i] <= 'Z') ==> r[i] == s[i]
  {
    seq(|s|, i requires 0 <= i < |s| => LowerAscii(s[i]))
  }

  /** `needle` occurs in `hay` starting at position `i`. */
  predicate OccursAt(needle: string, hay: string, i: int)
  {
    0 <= i && i + |needle| <= |hay| && hay[i..i + |needle|] == needle
  }

  /** Whether `needle` occurs in `hay`, trying each start position in turn. */
  function IsSubstring(needle: string, hay: string): bool
    decreases |hay|
  {
    if |hay| < |needle| then false
    else hay[..|needle|] == needle || IsSubstring(needle, hay[1..])
  }

  /** The search succeeds exactly when `needle` occurs at some position of `hay`. */
  lemma {:induction false} IsSubstringIff(needle: string, hay: string)
    ensures IsSubstring(needle, hay) <==> exists i :: OccursAt(needle, hay, i)
    decreases |hay|
  {
    if |hay| < |needle| {
      assert forall i :: !OccursAt(needle, hay, i);
    } else if hay[..|needle|] == needle {
      assert OccursAt(needle, hay, 0);
    } else {
      IsSubstringIff(needle, hay[1..]);
      if IsSubstring(needle, hay[1..]) {
        var i :| OccursAt(needle, hay[1..], i);
        assert hay[i + 1..i + 1 + |needle|] == hay[1..][i..i + |needle|];
        assert OccursAt(needle, hay, i + 1);
      }
      if exists i :: OccursAt(needle, hay, i) {
        var i :| OccursAt(needle, hay, i);
        assert i != 0;
        assert hay[1..][i - 1..i - 1 + |needle|] == hay[i..i + |needle|];
        assert OccursAt(needle, hay[1..], i - 1);
      }
    }
  }

  /**
    `/password|123456|qwerty/i.test(password)`. The patterns are lower-case ASCII
    letters and digits, so matching them case-insensitively is matching them in
    the ASCII lower-cased password.
  */
  predicate IsCommonPattern(p: string)
  {
    exists k :: 0 <= k < |CommonPatterns| && IsSubstring(CommonPatterns[k], ToLowerCase(p))
  }

  /** Letter case never matters to the denylist. */
  lemma CommonPatternIgnoresCase(p: string, q: string)
    requires ToLowerCase(p) == ToLowerCase(q)
    ensures IsCommonPattern(p) <==> IsCommonPattern(q)
  {
  }

  /**
    The strength check: the classifier's verdict on the crack time, overridden
    to Very Weak and "Instantly" when the password holds a common pattern.
  */
  function CheckPasswordStrength(p: string, seconds: real): (r: Rating)
    ensures IsCommonPattern(p) ==> r == Rating(VeryWeak, "Instantly")
    ensures r.category == VeryWeak <==> IsCommonPattern(p) || seconds < 1.0
    ensures r.category != VeryWeak ==> r == Classify(seconds)
    ensures r.category == VeryWeak <==> r.timeToCrack == "Instantly"
    ensures r.category.Name() in PhraseKeys
  {
    NamesAreThePhraseKeys();
    if IsCommonPattern(p) then Rating(VeryWeak, "Instantly") else Classify(seconds)
  }

  /**
    The classifier's category computed from the squared guess space alone, in
    integers: `seconds < t` exactly when `(2^E)^2 < t^2 * 1e11^2`.
  */
  function CategoryFromGuessSpace(p: string): Category
  {
    var n := GuessSpaceSquared(p);
    if n < GuessesSquared then VeryWeak
    else if n < 3600 * GuessesSquared then Weak
    else if n < 12_960_000 * GuessesSquared then Medium
    else if n < 7_464_960_000 * GuessesSquared then Strong
    else VeryStrong
  }

  /** Crack time `seconds` is below `t` exactly when the squared guess space is below `bound`. */
  lemma BelowThreshold(seconds: real, n: nat, t: real, bound: nat)
    requires 0.0 <= seconds && 0.0 < t
    requires seconds * seconds * GuessesSquared as real == n as real
    requires bound as real == t * t * GuessesSquared as real
    ensures seconds < t <==> n < bound
  {
    SquareMonotone(seconds, t);
    if seconds < t {
      assert seconds * seconds < t * t;
    } else {
      assert seconds * seconds >= t * t;
    }
  }

  /**
    For the password's idealised crack time, the classifier's category is the
    one the integer guess space determines.
  */
  lemma ClassifyMatchesGuessSpace(p: string, seconds: real)
    requires IsCrackSeconds(p, seconds)
    ensures CategoryOf(seconds) == CategoryFromGuessSpace(p)
  {
    var n := GuessSpaceSquared(p);
    BelowThreshold(seconds, n, 1.0, GuessesSquared);
    BelowThreshold(seconds, n, 60.0, 3600 * GuessesSquared);
    BelowThreshold(seconds, n, 3600.0, 12_960_000 * GuessesSquared);
    BelowThreshold(seconds, n, 86400.0, 7_464_960_000 * GuessesSquared);
  }

  /**
    The whole check on a password's idealised crack time: Very Weak by the
    denylist, otherwise the category of its guess space.
  */
  lemma StrengthOfPassword(p: string, seconds: real)
    requires IsCrackSeconds(p, seconds)
    ensures CheckPasswordStrength(p, seconds).category ==
      if IsCommonPattern(p) then VeryWeak else CategoryFromGuessSpace(p)
  {
    ClassifyMatchesGuessSpace(p, seconds);
  }

  /** The empty password takes `1e-11` seconds to crack: Very Weak, "Instantly". */
  lemma EmptyPasswordIsVeryWeak(seconds: real)
    requires IsCrackSeconds("", seconds)
    ensures CheckPasswordStrength("", seconds) == Rating(VeryWeak, "Instantly")
  {
  }

  /** A denylisted substring in any letter case forces Very Weak, whatever the crack time. */
  lemma PasswordWithDigitsIsVeryWeak(seconds: real)
    ensures CheckPasswordStrength("password123", seconds) == Rating(VeryWeak, "Instantly")
  {
    var q := ToLowerCase("password123");
    assert q[..8] == "password";
    assert IsSubstring(CommonPatterns[0], q);
  }

  lemma UpperCaseQwertyIsVeryWeak(seconds: real)
    ensures CheckPasswordStrength("MyQWERTYkeys", seconds) == Rating(VeryWeak, "Instantly")
  {
    var q := ToLowerCase("MyQWERTYkeys");
    assert q[2..8] == "qwerty";
    assert OccursAt(CommonPatterns[2], q, 2);
    IsSubstringIff(CommonPatterns[2], q);
  }
}
