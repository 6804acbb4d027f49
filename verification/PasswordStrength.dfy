/** The password strength meter of the sign-up form: five independent
    criteria, one point each, reported as a fraction of five. */
module PasswordStrength {

  /** The length criterion needs at least this many characters. */
  const MinPasswordLength: nat := 8

  /** The number of criteria, and so the highest score. */
  const CriteriaCount: nat := 5

  /** The special-character class of the fifth criterion, exactly as the
      pattern lists it (with U+00A9 COPYRIGHT SIGN and without '@'). */
  const SpecialCharacters: set<char> := {'!', '©', '#', '$', '%', '^', '&', '*'}

  /** The four character classes the pattern criteria look for. */
  datatype CharClass = Lowercase | Uppercase | Digit | Special

  predicate InClass(c: char, k: CharClass) {
    match k
    case Lowercase => 'a' <= c <= 'z'
    case Uppercase => 'A' <= c <= 'Z'
    case Digit => '0' <= c <= '9'
    case Special => c in SpecialCharacters
  }

  /** The characters ICU counts as line terminators: U+000A..U+000D,
      U+0085, U+2028 and U+2029. The pattern's `.` matches any other
      character. */
  predicate IsLineTerminator(c: char) {
    ('\n' <= c <= '\r') || c == '\U{85}' || c == '\U{2028}' || c == '\U{2029}'
  }

  predicate MatchesDot(c: char) {
    !IsLineTerminator(c)
  }

  /** The split of `s` into `s[..lo]`, `s[lo..hi]` and `s[hi..]` matches
      `.*`, `[K]+` and `.*` in turn. */
  predicate MatchesAt(s: string, k: CharClass, lo: nat, hi: nat)
    requires lo < hi <= |s|
    ensures MatchesAt(s, k, lo, hi) ==> InClass(s[lo], k) && IsSingleLine(s)
  {
    (forall j | 0 <= j < lo :: MatchesDot(s[j])) &&
    (forall j | lo <= j < hi :: InClass(s[j], k)) &&
    (forall j | hi <= j < |s| :: MatchesDot(s[j]))
  }

  /** `SELF MATCHES ".*[K]+.*"`: the whole string matches the pattern for
      some split. */
  predicate MatchesClassPattern(s: string, k: CharClass)
    ensures MatchesClassPattern(s, k) ==> IsSingleLine(s) && ContainsClass(s, k)
  {
    exists lo: nat, hi: nat | lo < hi <= |s| :: MatchesAt(s, k, lo, hi)
  }

  /** No character of `s` is a line terminator. */
  predicate IsSingleLine(s: string) {
    forall i | 0 <= i < |s| :: MatchesDot(s[i])
  }

  /** At least one character of `s` belongs to class `k`. */
  predicate ContainsClass(s: string, k: CharClass) {
    exists i | 0 <= i < |s| :: InClass(s[i], k)
  }

  lemma ClassCharIsNotLineTerminator(c: char, k: CharClass)
    requires InClass(c, k)
    ensures MatchesDot(c)
  {
  }

  /** The pattern criterion is an existence test: on a single-line string
      it holds exactly when one character of the class occurs; a string
      with a line terminator never matches. */
  lemma MatchesClassPatternIff(s: string, k: CharClass)
    ensures MatchesClassPattern(s, k) <==> IsSingleLine(s) && ContainsClass(s, k)
  {
    if MatchesClassPattern(s, k) {
      var lo: nat, hi: nat :| lo < hi <= |s| && MatchesAt(s, k, lo, hi);
      forall i | 0 <= i < |s| ensures MatchesDot(s[i]) {
        if lo <= i < hi {
          ClassCharIsNotLineTerminator(s[i], k);
        }
      }
      assert InClass(s[lo], k);
    }
    if IsSingleLine(s) && ContainsClass(s, k) {
      var i :| 0 <= i < |s| && InClass(s[i], k);
      assert MatchesAt(s, k, i, i + 1);
    }
  }

  /** The five criteria, in the order the meter tests them. */
  function Criteria(password: string): (cs: seq<bool>)
    ensures |cs| == CriteriaCount
  {
    [ |password| >= MinPasswordLength,
      MatchesClassPattern(password, Lowercase),
      MatchesClassPattern(password, Uppercase),
      MatchesClassPattern(password, Digit),
      MatchesClassPattern(password, Special) ]
  }

  /** All five criteria hold. */
  predicate AllCriteria(password: string) {
    |password| >= MinPasswordLength &&
    MatchesClassPattern(password, Lowercase) &&
    MatchesClassPattern(password, Uppercase) &&
    MatchesClassPattern(password, Digit) &&
    MatchesClassPattern(password, Special)
  }

  /** The number of true entries of `bs`. */
  function CountTrue(bs: seq<bool>): (n: nat)
    ensures n <= |bs|
    ensures n == 0 <==> forall i | 0 <= i < |bs| :: !bs[i]
  {
    if bs == [] then 0
    else CountTrue(bs[..|bs| - 1]) + (if bs[|bs| - 1] then 1 else 0)
  }

  /** Counting a prefix one entry longer adds that entry. */
  lemma CountTrueExtend(bs: seq<bool>, k: nat)
    requires k < |bs|
    ensures CountTrue(bs[..k + 1]) == CountTrue(bs[..k]) + (if bs[k] then 1 else 0)
  {
    assert bs[..k + 1][..k] == bs[..k];
  }

  /** Counting is monotone in the entries. */
  lemma {:induction false} CountTrueMonotone(as_: seq<bool>, bs: seq<bool>)
    requires |as_| == |bs|
    requires forall i | 0 <= i < |as_| :: as_[i] ==> bs[i]
    ensures CountTrue(as_) <= CountTrue(bs)
  {
    if as_ != [] {
      var n := |as_| - 1;
      CountTrueMonotone(as_[..n], bs[..n]);
    }
  }

  /** The strength score: the number of criteria the password meets. */
  function Score(password: string): (n: nat)
    ensures n <= CriteriaCount
  {
    CountTrue(Criteria(password))
  }

  /** One point per criterion met. */
  function Point(met: bool): nat {
    if met then 1 else 0
  }

  /** The score is the sum of one point per criterion met. */
  lemma ScoreIsSum(password: string)
    ensures Score(password) ==
      Point(|password| >= MinPasswordLength) +
      Point(MatchesClassPattern(password, Lowercase)) +
      Point(MatchesClassPattern(password, Uppercase)) +
      Point(MatchesClassPattern(password, Digit)) +
      Point(MatchesClassPattern(password, Special))
  {
    var cs := Criteria(password);
    assert cs[..0] == [];
    CountTrueExtend(cs, 0);
    CountTrueExtend(cs, 1);
    CountTrueExtend(cs, 2);
    CountTrueExtend(cs, 3);
    CountTrueExtend(cs, 4);
    assert cs[..5] == cs;
  }

  /** The meter's progress value, the score as a fraction of five. */
  function Progress(password: string): (r: real)
    ensures 0.0 <= r <= 1.0
  {
    Score(password) as real / CriteriaCount as real
  }

  /** The meter is full (progress 1.0, the green checkmark) exactly when
      all five criteria hold. */
  lemma FullProgressIffAllCriteria(password: string)
    ensures Progress(password) == 1.0 <==> AllCriteria(password)
  {
    ScoreIsSum(password);
  }

  /** Computes the progress value the way the meter does: a score starts
      at zero and gains a point per criterion met. */
  method IsSecurePassword(password: string) returns (progress: real)
    ensures progress == Progress(password)
    ensures 0.0 <= progress <= 1.0
    ensures progress == 1.0 <==> AllCriteria(password)
  {
    var score: nat := 0;
    if |password| >= MinPasswordLength { score := score + 1; }
    if MatchesClassPattern(password, Lowercase) { score := score + 1; }
    if MatchesClassPattern(password, Uppercase) { score := score + 1; }
    if MatchesClassPattern(password, Digit) { score := score + 1; }
    if MatchesClassPattern(password, Special) { score := score + 1; }
    ScoreIsSum(password);
    progress := score as real / CriteriaCount as real;
    FullProgressIffAllCriteria(password);
  }

  /** The empty password meets no criterion. */
  lemma EmptyScoresZero()
    ensures Score("") == 0 && Progress("") == 0.0
  {
  }

  /** Extending a password never lowers its score, provided neither part
      contains a line terminator. */
  lemma {:induction false} ScoreMonotoneUnderAppend(p: string, q: string)
    requires IsSingleLine(p + q)
    ensures Score(p) <= Score(p + q)
  {
    forall k: CharClass ensures MatchesClassPattern(p, k) ==> MatchesClassPattern(p + q, k) {
      MatchesClassPatternIff(p, k);
      MatchesClassPatternIff(p + q, k);
      if ContainsClass(p, k) {
        var i :| 0 <= i < |p| && InClass(p[i], k);
        assert (p + q)[i] == p[i];
      }
    }
    CountTrueMonotone(Criteria(p), Criteria(p + q));
  }

  /** A password holding a line terminator fails all four pattern
      criteria: only its length can score. */
  lemma LineTerminatorLeavesOnlyLength(p: string, i: nat)
    requires i < |p| && IsLineTerminator(p[i])
    ensures Score(p) == if |p| >= MinPasswordLength then 1 else 0
  {
    forall k: CharClass ensures !MatchesClassPattern(p, k) {
      MatchesClassPatternIff(p, k);
    }
    ScoreIsSum(p);
  }

  /** One character of the class in a single-line password meets the
      criterion. */
  lemma OneClassCharSuffices(s: string, k: CharClass, i: nat)
    requires IsSingleLine(s) && i < |s| && InClass(s[i], k)
    ensures MatchesClassPattern(s, k)
  {
    assert MatchesAt(s, k, i, i + 1);
  }

  /** Eight lowercase letters: length and lowercase, score 2. */
  lemma LowercaseOnlyScoresTwo()
    ensures Score("abcdefgh") == 2
  {
    var s := "abcdefgh";
    assert IsSingleLine(s);
    OneClassCharSuffices(s, Lowercase, 0);
    assert !ContainsClass(s, Uppercase) && !ContainsClass(s, Digit) && !ContainsClass(s, Special);
    ScoreIsSum(s);
  }

  /** A password meeting all five criteria scores 5. */
  lemma AllCriteriaScoresFive(password: string)
    requires AllCriteria(password)
    ensures Score(password) == CriteriaCount && Progress(password) == 1.0
  {
    ScoreIsSum(password);
  }

  /** A password meeting every criterion fills the meter. */
  lemma MixedPasswordScoresFive()
    ensures Score("Abcdefg1!") == 5 && Progress("Abcdefg1!") == 1.0
  {
    var s := "Abcdefg1!";
    assert IsSingleLine(s);
    OneClassCharSuffices(s, Uppercase, 0);
    OneClassCharSuffices(s, Lowercase, 1);
    OneClassCharSuffices(s, Digit, 7);
    OneClassCharSuffices(s, Special, 8);
    AllCriteriaScoresFive(s);
  }
}
