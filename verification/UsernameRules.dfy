/** The username rules of the sign-up form: a minimum length and an
    allowed alphabet of ASCII letters, digits and underscore. */
module UsernameRules {

  /** A username needs at least this many characters. */
  const MinUsernameLength: nat := 5

  /** A character the username alphabet admits: a-z, A-Z, 0-9 or '_'. */
  predicate IsUsernameChar(c: char) {
    ('a' <= c <= 'z') || ('A' <= c <= 'Z') || ('0' <= c <= '9') || c == '_'
  }

  /** The allowed alphabet as a character set. */
  const AllowedCharacters: set<char> := set c: char | IsUsernameChar(c)

  /** The alphabet as the form lists it, character by character. */
  const ListedLowercase: set<char> := {
    'a', 'b', 'c', 'd', 'e', 'f', 'g', 'h', 'i', 'j', 'k', 'l', 'm',
    'n', 'o', 'p', 'q', 'r', 's', 't', 'u', 'v', 'w', 'x', 'y', 'z'
  }
  const ListedUppercase: set<char> := {
    'A', 'B', 'C', 'D', 'E', 'F', 'G', 'H', 'I', 'J', 'K', 'L', 'M',
    'N', 'O', 'P', 'Q', 'R', 'S', 'T', 'U', 'V', 'W', 'X', 'Y', 'Z'
  }
  const ListedDigits: set<char> := {'0', '1', '2', '3', '4', '5', '6', '7', '8', '9'}

  lemma ListedLowercaseIsRange(c: char)
    ensures c in ListedLowercase <==> 'a' <= c <= 'z'
  {
  }

  lemma ListedUppercaseIsRange(c: char)
    ensures c in ListedUppercase <==> 'A' <= c <= 'Z'
  {
  }

  lemma ListedDigitsIsRange(c: char)
    ensures c in ListedDigits <==> '0' <= c <= '9'
  {
  }

  /** The range definition admits exactly the 63 listed characters. */
  lemma AllowedCharactersAsListed()
    ensures AllowedCharacters == ListedLowercase + ListedUppercase + ListedDigits + {'_'}
  {
    forall c: char
      ensures c in AllowedCharacters <==> c in ListedLowercase + ListedUppercase + ListedDigits + {'_'}
    {
      ListedLowercaseIsRange(c);
      ListedUppercaseIsRange(c);
      ListedDigitsIsRange(c);
    }
  }

  /** The set of characters a string is made of (a `CharacterSet` built
      from the string). */
  function CharacterSetOf(s: string): (cs: set<char>)
    ensures forall c :: c in cs <==> c in s
  {
    set i | 0 <= i < |s| :: s[i]
  }

  lemma SupersetIffEveryCharAllowed(input: string)
    ensures AllowedCharacters >= CharacterSetOf(input)
        <==> forall i :: 0 <= i < |input| ==> IsUsernameChar(input[i])
  {
    if forall i :: 0 <= i < |input| ==> IsUsernameChar(input[i]) {
      forall c | c in CharacterSetOf(input) ensures c in AllowedCharacters {
        var i :| 0 <= i < |input| && input[i] == c;
      }
    } else {
      var i :| 0 <= i < |input| && !IsUsernameChar(input[i]);
      assert input[i] in CharacterSetOf(input);
    }
  }

  /** The length flag: true when the username is long enough. */
  function IsUsernameLengthValid(name: string): bool {
    |name| >= MinUsernameLength
  }

  /** Four characters are too few, five are enough. */
  lemma LengthFlagThreshold()
    ensures !IsUsernameLengthValid("abcd") && IsUsernameLengthValid("abcde")
  {
  }

  /** Once the length flag is on, typing more characters keeps it on. */
  lemma LengthFlagMonotone(name: string, more: string)
    requires IsUsernameLengthValid(name)
    ensures IsUsernameLengthValid(name + more)
  {
  }

  /** The format flag: the allowed alphabet is a superset of the
      characters of the input. Holds exactly when every character of the
      input is a letter, a digit or an underscore. */
  function IsValidString(input: string): (ok: bool)
    ensures ok <==> forall i :: 0 <= i < |input| ==> IsUsernameChar(input[i])
  {
    SupersetIffEveryCharAllowed(input);
    AllowedCharacters >= CharacterSetOf(input)
  }

  /** The empty string passes the format check (the superset test is vacuous). */
  lemma EmptyIsValid()
    ensures IsValidString("")
  {
  }

  /** A single character outside the alphabet, wherever it stands, makes
      the input invalid; in particular any input containing '-'. */
  lemma OneBadCharRejects(input: string, i: nat)
    requires i < |input| && !IsUsernameChar(input[i])
    ensures !IsValidString(input)
  {
  }

  lemma HyphenRejects(input: string)
    requires '-' in input
    ensures !IsValidString(input)
  {
  }

  /** The format flag depends only on which characters occur: two inputs
      made of the same characters (in any order, any number of times)
      get the same verdict. */
  lemma ValidDependsOnlyOnCharacters(s: string, t: string)
    requires forall c :: c in s <==> c in t
    ensures IsValidString(s) == IsValidString(t)
  {
  }

  /** Reordering the characters never changes the format flag. */
  lemma PermutationPreservesValid(s: string, t: string)
    requires multiset(s) == multiset(t)
    ensures IsValidString(s) == IsValidString(t)
  {
    forall c ensures c in s <==> c in t {
      assert c in s <==> c in multiset(s);
      assert c in t <==> c in multiset(t);
    }
    ValidDependsOnlyOnCharacters(s, t);
  }

  /** Repeating characters never changes the format flag. */
  lemma RepetitionPreservesValid(s: string, i: nat)
    requires i < |s|
    ensures IsValidString(s[..i] + [s[i]] + s[i..]) == IsValidString(s)
  {
  }

  /** A concatenation is valid exactly when both parts are. */
  lemma ValidConcat(s: string, t: string)
    ensures IsValidString(s + t) <==> IsValidString(s) && IsValidString(t)
  {
  }
}
