/** The sign-up form's state: the text it holds, the validation flags it
    shows, and the handlers that recompute the flags when the text
    changes. */
module SignupForm {
  import opened UsernameRules
  import opened PasswordStrength

  /** The confirmation warning is shown when both password entries are
      filled in and they differ: in length, or at some position. */
  function ShowsMismatch(entry: string, reentry: string): (shown: bool)
    ensures shown <==>
      |entry| > 0 && |reentry| > 0 &&
      (|entry| != |reentry| || exists i | 0 <= i < |entry| && i < |reentry| :: entry[i] != reentry[i])
  {
    entry != "" && reentry != "" && entry != reentry
  }

  /** An empty entry on either side never raises the warning. */
  lemma MismatchNeedsBothEntries(entry: string, reentry: string)
    requires entry == "" || reentry == ""
    ensures !ShowsMismatch(entry, reentry)
  {
  }

  /** Equal entries never raise the warning. */
  lemma MismatchNeverOnEqual(entry: string)
    ensures !ShowsMismatch(entry, entry)
  {
  }

  /** The warning does not depend on which field was filled in first. */
  lemma MismatchSymmetric(entry: string, reentry: string)
    ensures ShowsMismatch(entry, reentry) == ShowsMismatch(reentry, entry)
  {
  }

  /** The form. Each flag is derived from one text field by a change
      handler; `Valid` says every flag agrees with its field. */
  class ContentView {
    var userName: string
    var isUsernameLengthValid: bool
    var isUsernameFormatValid: bool

    var passwordEntry: string
    var passwordReentry: string
    var passwordSecurityCheckProgress: real

    ghost predicate Valid()
      reads this
    {
      isUsernameLengthValid == IsUsernameLengthValid(userName) &&
      isUsernameFormatValid == IsValidString(userName) &&
      passwordSecurityCheckProgress == Progress(passwordEntry)
    }

    /** The initial state: empty fields, the length flag off, the format
        flag on, the meter at zero. These values are also the ones the
        handlers would compute for the empty fields. */
    constructor ()
      ensures userName == "" && !isUsernameLengthValid && isUsernameFormatValid
      ensures passwordEntry == "" && passwordReentry == ""
      ensures passwordSecurityCheckProgress == 0.0
      ensures Valid()
    {
      userName := "";
      isUsernameLengthValid := false;
      isUsernameFormatValid := true;
      passwordEntry := "";
      passwordReentry := "";
      passwordSecurityCheckProgress := 0.0;
      EmptyIsValid();
      EmptyScoresZero();
    }

    /** The username change handler: recomputes the two username flags
        and nothing else. */
    method OnUsernameChange(newValue: string)
      modifies this`isUsernameLengthValid, this`isUsernameFormatValid
      ensures isUsernameLengthValid <==> |newValue| >= MinUsernameLength
      ensures isUsernameFormatValid <==>
        forall i | 0 <= i < |newValue| :: IsUsernameChar(newValue[i])
      ensures userName == old(userName)
      ensures passwordEntry == old(passwordEntry) && passwordReentry == old(passwordReentry)
      ensures passwordSecurityCheckProgress == old(passwordSecurityCheckProgress)
    {
      isUsernameLengthValid := IsUsernameLengthValid(newValue);
      isUsernameFormatValid := IsValidString(newValue);
    }

    /** The password change handler: recomputes the meter and nothing
        else. */
    method OnPasswordChange(newValue: string)
      modifies this`passwordSecurityCheckProgress
      ensures passwordSecurityCheckProgress == Progress(newValue)
      ensures passwordSecurityCheckProgress == 1.0 <==> AllCriteria(newValue)
      ensures userName == old(userName)
      ensures isUsernameLengthValid == old(isUsernameLengthValid)
      ensures isUsernameFormatValid == old(isUsernameFormatValid)
      ensures passwordEntry == old(passwordEntry) && passwordReentry == old(passwordReentry)
    {
      passwordSecurityCheckProgress := IsSecurePassword(newValue);
    }

    /** The username field is edited: the text is stored and, when it
        differs from the previous text, the change handler runs. */
    method EditUserName(newValue: string)
      requires Valid()
      modifies this
      ensures Valid()
      ensures userName == newValue
      ensures passwordEntry == old(passwordEntry) && passwordReentry == old(passwordReentry)
      ensures passwordSecurityCheckProgress == old(passwordSecurityCheckProgress)
    {
      var changed := newValue != userName;
      userName := newValue;
      if changed {
        OnUsernameChange(newValue);
      }
    }

    /** The password field is edited: the text is stored and, when it
        differs from the previous text, the change handler runs. */
    method EditPasswordEntry(newValue: string)
      requires Valid()
      modifies this
      ensures Valid()
      ensures passwordEntry == newValue
      ensures userName == old(userName) && passwordReentry == old(passwordReentry)
      ensures isUsernameLengthValid == old(isUsernameLengthValid)
      ensures isUsernameFormatValid == old(isUsernameFormatValid)
    {
      var changed := newValue != passwordEntry;
      passwordEntry := newValue;
      if changed {
        OnPasswordChange(newValue);
      }
    }

    /** The confirmation field is edited: no handler is attached, so no
        flag changes. */
    method EditPasswordReentry(newValue: string)
      requires Valid()
      modifies this`passwordReentry
      ensures Valid()
      ensures passwordReentry == newValue
      ensures userName == old(userName) && passwordEntry == old(passwordEntry)
      ensures isUsernameLengthValid == old(isUsernameLengthValid)
      ensures isUsernameFormatValid == old(isUsernameFormatValid)
      ensures passwordSecurityCheckProgress == old(passwordSecurityCheckProgress)
    {
      passwordReentry := newValue;
    }

    /** Whether the meter shows the green checkmark (progress equal to
        1.0): exactly when the current password meets all five
        criteria. */
    function SecurityCheckPassed(): (passed: bool)
      reads this
      requires Valid()
      ensures passed <==> AllCriteria(passwordEntry)
    {
      FullProgressIffAllCriteria(passwordEntry);
      passwordSecurityCheckProgress == 1.0
    }
  }
}
