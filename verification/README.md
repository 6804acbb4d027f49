# SignupValidation, modelled in Dafny

SignupValidation is a one-screen sign-up form. As the user types, the form
re-checks the username and the password and updates what it shows:

- two username flags: the name has at least 5 characters, and it uses only
  `a-z`, `A-Z`, `0-9` and `_`;
- a password security meter. It holds a score of 0 to 5, one point for each
  of five criteria, shown as the fraction score / 5. A green checkmark
  appears when the meter reads 1.0;
- a warning when both password fields are filled in but hold different
  text.

The project has three modules:

- `UsernameRules` (`UsernameRules.dfy`): the username alphabet, the length
  flag and the format check (`IsValidString`). The check tests whether the
  allowed alphabet is a superset of the input's characters.
- `PasswordStrength` (`PasswordStrength.dfy`): the five criteria, the score
  and the progress value. Each character-class criterion is stated as a
  whole-string match of `.*[K]+.*`. `MatchesClassPatternIff` then proves this
  is an existence test ("at least one character of class K"), not a
  universal one. `IsSecurePassword` is the meter's routine: a score that
  starts at 0 and gains one point per criterion.
- `SignupForm` (`SignupForm.dfy`): the confirmation-mismatch condition and
  the class `ContentView`. The class holds the form's state fields with
  their initial values, the two change handlers, and the field edits that
  trigger them. Its invariant `Valid` says every flag agrees with the text
  it was computed from. The initial state satisfies it, and every edit
  keeps it.

Modelling decisions:

- The special-character class is modelled exactly as the code writes it:
  `! © # $ % ^ & *`. The class contains U+00A9 COPYRIGHT SIGN and no `@`;
  the model keeps it as written.
- The pattern criteria use ICU regular expressions through `SELF MATCHES`.
  The match must cover the whole string, and ICU's `.` does not match a
  line terminator (U+000A to U+000D, U+0085, U+2028, U+2029). So a password
  that contains a line terminator fails all four pattern criteria; only its
  length can score. The model keeps this behaviour
  (`LineTerminatorLeavesOnlyLength`).
- The progress value is a `real` equal to score / 5. The source's `Double`
  is only compared with `1.0`. For a score of 0 to 5, `score / 5` equals
  `1.0` in binary floating point exactly when the score is 5, which is what
  the exact value gives too.

## Model

| member | source | states |
|---|---|---|
| `UsernameRules.AllowedCharactersAsListed` | SignupValidation/ContentView.swift:100 | the alphabet, defined by ranges, is exactly the 26 lower-case letters, 26 upper-case letters, 10 digits and `_` listed in the code |
| `UsernameRules.CharacterSetOf` | SignupValidation/ContentView.swift:101 | the character set built from a string contains exactly the characters that occur in it |
| `UsernameRules.SupersetIffEveryCharAllowed` | SignupValidation/ContentView.swift:101-103 | the alphabet is a superset of the input's character set exactly when every character of the input is allowed |
| `UsernameRules.LengthFlagThreshold` | SignupValidation/ContentView.swift:25 | the length flag is off for 4 characters and on for 5 |
| `UsernameRules.LengthFlagMonotone` | SignupValidation/ContentView.swift:25 | once the length flag is on, typing more characters keeps it on |
| `UsernameRules.IsValidString` | SignupValidation/ContentView.swift:99-104 | the format flag is true if and only if every character is in `a-z`, `A-Z`, `0-9` or `_` |
| `UsernameRules.EmptyIsValid` | SignupValidation/ContentView.swift:99-104 | the empty string passes the format check |
| `UsernameRules.OneBadCharRejects` | SignupValidation/ContentView.swift:99-104 | one disallowed character at any position makes the input invalid |
| `UsernameRules.HyphenRejects` | SignupValidation/ContentView.swift:99-104 | any input containing `-` is invalid |
| `UsernameRules.ValidDependsOnlyOnCharacters` | SignupValidation/ContentView.swift:101-103 | two inputs made of the same characters get the same verdict |
| `UsernameRules.PermutationPreservesValid` | SignupValidation/ContentView.swift:101-103 | reordering the characters never changes the verdict |
| `UsernameRules.RepetitionPreservesValid` | SignupValidation/ContentView.swift:101-103 | repeating a character never changes the verdict |
| `UsernameRules.ValidConcat` | SignupValidation/ContentView.swift:99-104 | a concatenation is valid if and only if both parts are |
| `PasswordStrength.MatchesAt` | SignupValidation/ContentView.swift:80-87 | a split of the password into `.*`, `[K]+`, `.*` puts a class character first in the middle part, and leaves no line terminator anywhere |
| `PasswordStrength.MatchesClassPattern` | SignupValidation/ContentView.swift:80-87 | a whole-string match of `.*[K]+.*` implies the password is single-line and contains a character of the class |
| `PasswordStrength.MatchesClassPatternIff` | SignupValidation/ContentView.swift:80-93 | a pattern criterion holds if and only if the password has no line terminator and contains at least one character of the class |
| `PasswordStrength.Criteria` | SignupValidation/ContentView.swift:89-93 | there are exactly five criteria, in the order the code tests them |
| `PasswordStrength.Score` | SignupValidation/ContentView.swift:78-93 | the score never exceeds 5 |
| `PasswordStrength.ScoreIsSum` | SignupValidation/ContentView.swift:78-93 | the score is one point per criterion met: length at least 8, lower-case, upper-case, digit, special character |
| `PasswordStrength.Progress` | SignupValidation/ContentView.swift:95 | the progress value lies between 0.0 and 1.0 |
| `PasswordStrength.FullProgressIffAllCriteria` | SignupValidation/ContentView.swift:89-95 | progress equals 1.0 if and only if all five criteria hold |
| `PasswordStrength.IsSecurePassword` | SignupValidation/ContentView.swift:76-97 | the accumulated score divided by 5 is the progress value; it lies in [0, 1] and equals 1.0 exactly when all criteria hold |
| `PasswordStrength.OneClassCharSuffices` | SignupValidation/ContentView.swift:80-93 | in a single-line password, one character of the class anywhere meets the criterion |
| `PasswordStrength.AllCriteriaScoresFive` | SignupValidation/ContentView.swift:89-95 | a password meeting all five criteria scores 5 and has progress 1.0 |
| `PasswordStrength.EmptyScoresZero` | SignupValidation/ContentView.swift:78-95 | the empty password scores 0 and its progress is 0.0 |
| `PasswordStrength.ScoreMonotoneUnderAppend` | SignupValidation/ContentView.swift:89-93 | appending characters to a password never lowers its score, when neither part contains a line terminator |
| `PasswordStrength.LineTerminatorLeavesOnlyLength` | SignupValidation/ContentView.swift:80-93 | a password containing a line terminator scores 1 if it has at least 8 characters, else 0 |
| `PasswordStrength.LowercaseOnlyScoresTwo` | SignupValidation/ContentView.swift:89-93 | `abcdefgh` scores 2 (length and lower-case) |
| `PasswordStrength.MixedPasswordScoresFive` | SignupValidation/ContentView.swift:89-95 | `Abcdefg1!` scores 5 and fills the meter |
| `SignupForm.ShowsMismatch` | SignupValidation/ContentView.swift:58 | the warning shows if and only if both entries are non-empty and they differ in length or at some position |
| `SignupForm.MismatchNeedsBothEntries` | SignupValidation/ContentView.swift:58 | an empty entry on either side never shows the warning |
| `SignupForm.MismatchNeverOnEqual` | SignupValidation/ContentView.swift:58 | equal entries never show the warning |
| `SignupForm.MismatchSymmetric` | SignupValidation/ContentView.swift:58 | swapping the two entries does not change the warning |
| `SignupForm.ContentView.constructor` | SignupValidation/ContentView.swift:11-18 | the fields start empty, with the length flag off, the format flag on and progress 0, and the invariant holds |
| `SignupForm.ContentView.OnUsernameChange` | SignupValidation/ContentView.swift:24-27 | sets the length flag to "at least 5 characters" and the format flag to the alphabet check; changes nothing else |
| `SignupForm.ContentView.OnPasswordChange` | SignupValidation/ContentView.swift:68-72 | sets progress to the new password's progress value; changes nothing else |
| `SignupForm.ContentView.EditUserName` | SignupValidation/ContentView.swift:23-27 | stores the new username and runs the handler when the text changed; the invariant is kept and the password fields are untouched |
| `SignupForm.ContentView.EditPasswordEntry` | SignupValidation/ContentView.swift:68-72 | stores the new password and runs the handler when the text changed; the invariant is kept and the username fields are untouched |
| `SignupForm.ContentView.EditPasswordReentry` | SignupValidation/ContentView.swift:57 | stores the confirmation text; no flag changes |
| `SignupForm.ContentView.SecurityCheckPassed` | SignupValidation/ContentView.swift:62-64 | under the invariant, the green checkmark shows if and only if the current password meets all five criteria |

## Left out

- Presentation: `Form`, `Section`, `Label`, `Gauge`, icons, colours,
  `withAnimation`, the `TextField`/`SecureField` choice, and the keyboard
  modifiers `.keyboardType(.asciiCapable)`, `.autocorrectionDisabled(true)`
  and `.textInputAutocapitalization(.never)`. This also
  covers the `showPassword` field and its toggle, which only affect how the
  password is displayed.
- Grapheme clusters: Swift's `count` counts grapheme clusters, and
  `CharacterSet` and the regex engine work on Unicode scalars. The model
  uses `seq<char>` (Unicode scalars) throughout, so a length is the number
  of scalars.
- Swift string equality: Swift's `String` `!=` compares by Unicode
  canonical equivalence. The model compares scalar sequences. SwiftUI's
  `onChange` also uses that equality, so an edit to a canonically
  equivalent text (for example `K` replaced by U+212A KELVIN SIGN) does not
  run the handler, and the format flag stays on for a scalar outside the
  alphabet. In the source the flags can therefore fall out of step with the
  text; the model's `Valid` is kept by every edit only because it compares
  scalar sequences. The mismatch warning likewise treats canonically
  equivalent entries as different.
- The ICU regular-expression engine: not modelled in general. Each pattern
  `.*[K]+.*` is defined directly as its whole-string match.
- Floating point: progress is an exact `real` rather than a `Double`.
- Scheduling: SwiftUI decides when an `onChange` action runs after the
  text binding is written. The model runs the handler right after the
  write, and only when the text changed.
