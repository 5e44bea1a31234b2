/**
  The feed sign-up form of `src/features/pages/FeedPage.tsx`: the email
  pattern, the field handlers, the nickname check, the order of the checks on
  submit and the rule that enables the submit button. The GitHub user check
  and the feed generation are remote calls whose results are inputs.
*/
module FeedForm {
  import opened Wrappers
  import opened Text

  /** `[^\s@]`: neither whitespace (as `\s` defines it) nor `@` throughout. */
  predicate NoSpaceOrAt(t: string) {
    forall i :: 0 <= i < |t| ==> !IsJsSpace(t[i]) && t[i] != '@'
  }

  /** What `/^[^\s@]+@[^\s@]+\.[^\s@]+$/.test(s)` accepts: `s` splits at some
      `@` (index `i`) and some later `.` (index `j`) into three non-empty runs
      of characters that are neither whitespace nor `@`. */
  ghost predicate MatchesEmailPattern(s: string) {
    exists i, j :: 0 < i && i + 1 < j && j + 1 < |s| && s[i] == '@' && s[j] == '.'
                   && NoSpaceOrAt(s[..i]) && NoSpaceOrAt(s[i + 1..j]) && NoSpaceOrAt(s[j + 1..])
  }

  /** A `.` that is neither the first nor the last character. */
  predicate HasInnerDot(d: string) {
    exists k :: 0 < k < |d| - 1 && d[k] == '.'
  }

  /** `validateEmail`: one `@`, after a non-empty local part; no whitespace;
      and a `.` in the domain that is neither its first nor its last character. */
  predicate ValidEmail(s: string) {
    var at := IndexOf(s, '@');
    at > 0 && !HasSpace(s) && '@' !in s[at + 1..] && HasInnerDot(s[at + 1..])
  }

  predicate HasSpace(s: string) {
    exists k :: 0 <= k < |s| && IsJsSpace(s[k])
  }

  lemma ValidEmailMatches(s: string)
    requires ValidEmail(s)
    ensures MatchesEmailPattern(s)
  {
    var at := IndexOf(s, '@');
    var d := s[at + 1..];
    var k' :| 0 < k' < |d| - 1 && d[k'] == '.';
    var k := at + 1 + k';
    var mid := s[at + 1..k];
    var tail := s[k + 1..];
    assert mid == d[..k'];
    assert tail == d[k' + 1..];
    forall t | 0 <= t < |mid| ensures !IsJsSpace(mid[t]) && mid[t] != '@' {
      assert mid[t] == s[at + 1 + t];
    }
    forall t | 0 <= t < |tail| ensures !IsJsSpace(tail[t]) && tail[t] != '@' {
      assert tail[t] == s[k + 1 + t];
    }
    var local := s[..at];
    forall t | 0 <= t < |local| ensures !IsJsSpace(local[t]) && local[t] != '@' {
      assert local[t] == s[t];
    }
    assert s[at] == '@' && s[k] == '.';
  }

  /** The three runs of a match, and what each contributes. */
  lemma MatchParts(s: string, i: int, j: int)
    requires 0 < i && i + 1 < j && j + 1 < |s| && s[i] == '@' && s[j] == '.'
    requires NoSpaceOrAt(s[..i]) && NoSpaceOrAt(s[i + 1..j]) && NoSpaceOrAt(s[j + 1..])
    ensures '@' !in s[i + 1..]
    ensures !HasSpace(s)
  {
    var local := s[..i];
    var mid := s[i + 1..j];
    var tail := s[j + 1..];
    var d := s[i + 1..];
    forall t | 0 <= t < |d| ensures d[t] != '@' {
      if t < j - i - 1 {
        assert d[t] == mid[t];
      } else if t > j - i - 1 {
        assert d[t] == tail[t - (j - i)];
      }
    }
    forall k | 0 <= k < |s| ensures !IsJsSpace(s[k]) {
      if k < i {
        assert s[k] == local[k];
      } else if i < k < j {
        assert s[k] == mid[k - i - 1];
      } else if j < k {
        assert s[k] == tail[k - j - 1];
      }
    }
  }

  lemma MatchIsValidEmail(s: string)
    requires MatchesEmailPattern(s)
    ensures ValidEmail(s)
  {
    var i, j :| 0 < i && i + 1 < j && j + 1 < |s| && s[i] == '@' && s[j] == '.'
                && NoSpaceOrAt(s[..i]) && NoSpaceOrAt(s[i + 1..j]) && NoSpaceOrAt(s[j + 1..]);
    var local := s[..i];
    assert '@' !in local by {
      forall t | 0 <= t < |local| ensures local[t] != '@' { }
    }
    IndexOfAt(s, '@', i);
    MatchParts(s, i, j);
    var d := s[i + 1..];
    assert d[j - i - 1] == '.';
  }

  /** The description above is exactly what the pattern accepts. */
  lemma ValidEmailIff(s: string)
    ensures ValidEmail(s) <==> MatchesEmailPattern(s)
  {
    if ValidEmail(s) {
      ValidEmailMatches(s);
    }
    if MatchesEmailPattern(s) {
      MatchIsValidEmail(s);
    }
  }

  lemma EmailExamples()
    ensures ValidEmail("a@b.c")
    ensures !ValidEmail("a@b")
    ensures !ValidEmail("@b.c")
  {
    assert IndexOf("a@b.c", '@') == 1;
    assert "a@b.c"[3] == '.';
    assert IndexOf("a@b", '@') == 1;
    assert IndexOf("@b.c", '@') == 0;
  }

  const EmailInvalidMessage: string := "Please enter a valid email address"
  const EmailRequiredMessage: string := "Email is required"
  const NicknameRequiredMessage: string := "Nickname is required"
  const NicknameMissingMessage: string := "This GitHub username does not exist. Please check the username and try again."
  const NicknameCheckFailedMessage: string := "Failed to verify GitHub username. Please try again."
  const GenerateFailedMessage: string := "Failed to generate feed"

  /** The email error `handleEmailChange` shows for the typed value: one only
      when the value is not blank and not a valid email. */
  function EmailChangeError(value: string): (r: Option<string>)
    ensures r.Some? <==> !IsBlank(value) && !ValidEmail(value)
    ensures r.Some? ==> r.value == EmailInvalidMessage
  {
    TrimEmptyIffBlank(value);
    if Trim(value) != "" && !ValidEmail(value) then Some(EmailInvalidMessage) else None
  }

  /** The checks `handleSubmit` makes before it asks whether the nickname
      exists, in their order. Note the email is tested untrimmed. */
  datatype Gate = EmailRequired | EmailInvalid | NicknameRequired | CheckNickname

  /** `!x.trim()` holds exactly when `x` is blank (`TrimEmptyIffBlank`). */
  function SubmitGate(email: string, nickname: string): Gate {
    if IsBlank(email) then EmailRequired
    else if !ValidEmail(email) then EmailInvalid
    else if IsBlank(nickname) then NicknameRequired
    else CheckNickname
  }

  /** How a remote call settles: normally, by throwing an `Error` with a
      message, or by throwing something else. */
  datatype CallResult<T> = Returned(value: T) | ThrewError(message: string) | ThrewOther

  /** The form's state cells (the user list is not part of this model). */
  datatype FormState = FormState(
    nickname: string,
    email: string,
    loading: bool,
    error: Option<string>,
    success: bool,
    emailError: Option<string>,
    nicknameError: Option<string>,
    checkingNickname: bool)

  /** `isFormValid` */
  predicate IsFormValid(st: FormState) {
    Trim(st.nickname) != "" && Trim(st.email) != "" && st.emailError.None? && st.nicknameError.None? && !st.checkingNickname
  }

  /** When the email error is the one `handleEmailChange` showed for the
      current email, a valid form has a valid email. */
  lemma ValidFormHasValidEmail(st: FormState)
    requires st.emailError == EmailChangeError(st.email)
    requires IsFormValid(st)
    ensures ValidEmail(st.email) && !IsBlank(st.email) && !IsBlank(st.nickname)
  {
    TrimEmptyIffBlank(st.email);
    TrimEmptyIffBlank(st.nickname);
  }

  /** A form whose submit button is enabled, and whose email error is the one
      `handleEmailChange` set, passes every check `handleSubmit` makes before
      the nickname lookup. */
  lemma EnabledFormReachesNicknameCheck(st: FormState)
    requires st.emailError == EmailChangeError(st.email)
    requires IsFormValid(st)
    ensures SubmitGate(st.email, st.nickname) == CheckNickname
  {
    ValidFormHasValidEmail(st);
  }

  /** The error a settled call leaves: its message when it threw an `Error`,
      the fallback text when it threw something else, `current` when it returned. */
  function ErrorOf<T>(r: CallResult<T>, current: Option<string>): (e: Option<string>)
    ensures r.Returned? ==> e == current
    ensures r.ThrewError? ==> e == Some(r.message)
    ensures r.ThrewOther? ==> e == Some(GenerateFailedMessage)
  {
    match r
    case Returned(_) => current
    case ThrewError(message) => Some(message)
    case ThrewOther => Some(GenerateFailedMessage)
  }

  /** The nickname error the existence check leaves: none when the user
      exists, one text when it does not, another when the check failed. */
  function NicknameCheckError(userExists: CallResult<bool>): (e: Option<string>)
    ensures e.None? <==> userExists == Returned(true)
    ensures userExists == Returned(false) ==> e == Some(NicknameMissingMessage)
    ensures !userExists.Returned? ==> e == Some(NicknameCheckFailedMessage)
  {
    match userExists
    case Returned(found) => if found then None else Some(NicknameMissingMessage)
    case _ => Some(NicknameCheckFailedMessage)
  }

  /** How a submission ended. */
  datatype SubmitOutcome = Rejected(gate: Gate) | NicknameRejected | Generated | GenerateFailed

  function GenerateFeedOutcome(generate: CallResult<()>): SubmitOutcome {
    if generate.Returned? then Generated else GenerateFailed
  }

  class Form {
    var nickname: string
    var email: string
    var loading: bool
    var error: Option<string>
    var success: bool
    var emailError: Option<string>
    var nicknameError: Option<string>
    var checkingNickname: bool

    function State(): FormState
      reads this
    {
      FormState(nickname, email, loading, error, success, emailError, nicknameError, checkingNickname)
    }

    constructor ()
      ensures State() == FormState("", "", false, None, false, None, None, false)
    {
      nickname := "";
      email := "";
      loading := false;
      error := None;
      success := false;
      emailError := None;
      nicknameError := None;
      checkingNickname := false;
    }

    /** `handleEmailChange` */
    method HandleEmailChange(value: string)
      modifies this
      ensures State() == old(State()).(email := value, emailError := EmailChangeError(value))
    {
      email := value;
      if Trim(value) != "" && !ValidEmail(value) {
        emailError := Some(EmailInvalidMessage);
      } else {
        emailError := None;
      }
    }

    /** `handleNicknameChange`: the nickname error is always cleared. */
    method HandleNicknameChange(value: string)
      modifies this
      ensures State() == old(State()).(nickname := value, nicknameError := None)
    {
      nickname := value;
      nicknameError := None;
    }

    /** `validateNickname`: a blank value fails at once without asking the
        server; otherwise `exists` is how the existence check settles. */
    method ValidateNickname(nicknameValue: string, userExists: CallResult<bool>) returns (valid: bool)
      modifies this
      ensures valid <==> !IsBlank(nicknameValue) && userExists == Returned(true)
      ensures email == old(email) && emailError == old(emailError)
      ensures IsBlank(nicknameValue) ==> State() == old(State()).(nicknameError := Some(NicknameRequiredMessage))
      ensures !IsBlank(nicknameValue) ==>
        State() == old(State()).(nicknameError := NicknameCheckError(userExists), checkingNickname := false)
    {
      if IsBlank(nicknameValue) {
        nicknameError := Some(NicknameRequiredMessage);
        return false;
      }
      checkingNickname := true;
      match userExists {
        case Returned(found) =>
          if !found {
            nicknameError := Some(NicknameMissingMessage);
            valid := false;
          } else {
            nicknameError := None;
            valid := true;
          }
        case _ =>
          nicknameError := Some(NicknameCheckFailedMessage);
          valid := false;
      }
      checkingNickname := false;
    }

    /** `handleNicknameBlur`: the nickname is checked only when it is not blank. */
    method HandleNicknameBlur(userExists: CallResult<bool>)
      modifies this
      ensures IsBlank(old(nickname)) ==> State() == old(State())
      ensures !IsBlank(old(nickname)) ==>
        State() == old(State()).(checkingNickname := false, nicknameError := NicknameCheckError(userExists))
    {
      TrimEmptyIffBlank(nickname);
      if Trim(nickname) != "" {
        var _ := ValidateNickname(nickname, userExists);
      }
    }

    /** The email checks of `handleSubmit`: blank after trimming, then the
        pattern on the untrimmed value; the email error says which failed. */
    method CheckEmailOnSubmit() returns (ok: bool)
      modifies this
      ensures ok <==> !IsBlank(old(email)) && ValidEmail(old(email))
      ensures nickname == old(nickname)
      ensures IsBlank(old(email)) ==> State() == old(State()).(emailError := Some(EmailRequiredMessage))
      ensures !IsBlank(old(email)) && !ValidEmail(old(email)) ==>
        State() == old(State()).(emailError := Some(EmailInvalidMessage))
      ensures ok ==> State() == old(State()).(emailError := None)
    {
      TrimEmptyIffBlank(email);
      if Trim(email) == "" {
        emailError := Some(EmailRequiredMessage);
        return false;
      }
      if !ValidEmail(email) {
        emailError := Some(EmailInvalidMessage);
        return false;
      }
      emailError := None;
      return true;
    }

    /** `handleSubmit`: the email checks first, then the nickname check
        (`userExists` is how it settles), then the feed generation and the
        reload of the user list. */
    method HandleSubmit(userExists: CallResult<bool>, generate: CallResult<()>, reload: CallResult<()>)
      returns (outcome: SubmitOutcome)
      modifies this
      ensures var gate := SubmitGate(old(email), old(nickname));
        && (gate == EmailRequired ==>
              (outcome == Rejected(EmailRequired)
               && State() == old(State()).(error := None, success := false, emailError := Some(EmailRequiredMessage))))
        && (gate == EmailInvalid ==>
              (outcome == Rejected(EmailInvalid)
               && State() == old(State()).(error := None, success := false, emailError := Some(EmailInvalidMessage))))
        && (gate == NicknameRequired ==>
              (outcome == Rejected(NicknameRequired)
               && State() == old(State()).(error := None, success := false, emailError := None,
                                           nicknameError := Some(NicknameRequiredMessage))))
        && (gate == CheckNickname && userExists != Returned(true) ==>
              (outcome == NicknameRejected
               && State() == old(State()).(error := None, success := false, emailError := None,
                                           nicknameError := NicknameCheckError(userExists), checkingNickname := false)))
        && (gate == CheckNickname && userExists == Returned(true) ==> outcome == GenerateFeedOutcome(generate))
      ensures SubmitGate(old(email), old(nickname)) == CheckNickname && userExists == Returned(true) && generate.Returned? ==>
        State() == old(State()).(success := true, nickname := "", email := "", emailError := None, nicknameError := None,
                                 checkingNickname := false, loading := false, error := ErrorOf(reload, None))
      ensures SubmitGate(old(email), old(nickname)) == CheckNickname && userExists == Returned(true) && !generate.Returned? ==>
        State() == old(State()).(success := false, emailError := None, nicknameError := None,
                                 checkingNickname := false, loading := false, error := ErrorOf(generate, None))
      ensures outcome == Generated ==>
        success && nickname == "" && email == "" && !loading && emailError.None? && nicknameError.None?
    {
      var gate := SubmitGate(email, nickname);
      error := None;
      success := false;
      var emailOk := CheckEmailOnSubmit();
      if !emailOk {
        return if gate == EmailRequired then Rejected(EmailRequired) else Rejected(EmailInvalid);
      }
      var isNicknameValid := ValidateNickname(nickname, userExists);
      if !isNicknameValid {
        return if gate == NicknameRequired then Rejected(NicknameRequired) else NicknameRejected;
      }
      outcome := GenerateFeed(generate, reload);
    }

    /** The last part of `handleSubmit`: `generateFeed` with the trimmed
        fields, then the reload of the user list; `loading` is up meanwhile. */
    method GenerateFeed(generate: CallResult<()>, reload: CallResult<()>) returns (outcome: SubmitOutcome)
      modifies this
      ensures generate.Returned? ==>
        (outcome == Generated
         && State() == old(State()).(success := true, nickname := "", email := "", emailError := None,
                                     nicknameError := None, loading := false, error := ErrorOf(reload, old(error))))
      ensures !generate.Returned? ==>
        (outcome == GenerateFailed && State() == old(State()).(loading := false, error := ErrorOf(generate, old(error))))
    {
      loading := true;
      match generate {
        case Returned(_) =>
          success := true;
          nickname := "";
          email := "";
          emailError := None;
          nicknameError := None;
          match reload {
            case Returned(_) =>
            case ThrewError(message) => error := Some(message);
            case ThrewOther => error := Some(GenerateFailedMessage);
          }
          outcome := Generated;
        case ThrewError(message) =>
          error := Some(message);
          outcome := GenerateFailed;
        case ThrewOther =>
          error := Some(GenerateFailedMessage);
          outcome := GenerateFailed;
      }
      loading := false;
    }
  }
}
