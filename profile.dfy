/**
 * The profile page: the two forms, their change handlers, the prefill from
 * the signed-in user, and the password submit with its client-side checks.
 * The server's answer to a request is a parameter.
 */
module Profile {
  import opened Wrappers
  import opened Text

  datatype ProfileForm = ProfileForm(firstName: string, lastName: string, email: string)

  datatype PasswordForm = PasswordForm(email: string, currentPassword: string, newPassword: string, confirmPassword: string)

  /** The signed-in user as the client holds it; a field may be missing. */
  datatype ClientUser = ClientUser(firstName: Option<string>, lastName: Option<string>, email: Option<string>)

  /** The input names of the two forms. */
  datatype ProfileField = FirstName | LastName | Email
  datatype PasswordField = PasswordEmail | CurrentPassword | NewPassword | ConfirmPassword

  /** What the server answered: success, or an error whose body may carry a message. */
  datatype Answer = Succeeded | Failed(serverMessage: Option<string>)

  /** The body of a change-password request. */
  datatype PasswordRequest = PasswordRequest(email: string, currentPassword: string, newPassword: string)

  const EmptyProfile := ProfileForm("", "", "")
  const EmptyPassword := PasswordForm("", "", "", "")

  const Mismatch := "New passwords don't match"
  const TooShort := "New password must be at least 6 characters"
  const PasswordSaved := "Password changed successfully!"
  const PasswordFailed := "Failed to change password"
  const ProfileSaved := "Profile updated successfully!"
  const ProfileFailed := "Failed to update profile"

  /** The shortest new password the client lets through. */
  const MinPasswordLength := 6

  /** `value || ""`. */
  function OrEmpty(v: Option<string>): string {
    if Truthy(v) then v.value else ""
  }

  function ProfileValue(f: ProfileForm, name: ProfileField): string {
    match name
    case FirstName => f.firstName
    case LastName => f.lastName
    case Email => f.email
  }

  function PasswordValue(f: PasswordForm, name: PasswordField): string {
    match name
    case PasswordEmail => f.email
    case CurrentPassword => f.currentPassword
    case NewPassword => f.newPassword
    case ConfirmPassword => f.confirmPassword
  }

  /** `{ ...profileData, [name]: value }`. */
  function WithProfileValue(f: ProfileForm, name: ProfileField, value: string): ProfileForm {
    match name
    case FirstName => f.(firstName := value)
    case LastName => f.(lastName := value)
    case Email => f.(email := value)
  }

  /** `{ ...passwordData, [name]: value }`. */
  function WithPasswordValue(f: PasswordForm, name: PasswordField, value: string): PasswordForm {
    match name
    case PasswordEmail => f.(email := value)
    case CurrentPassword => f.(currentPassword := value)
    case NewPassword => f.(newPassword := value)
    case ConfirmPassword => f.(confirmPassword := value)
  }

  /** A change handler replaces the named field and no other. */
  lemma ChangeHandlersSpec(p: ProfileForm, pn: ProfileField, w: PasswordForm, wn: PasswordField, value: string)
    ensures ProfileValue(WithProfileValue(p, pn, value), pn) == value
    ensures forall other :: other != pn ==> ProfileValue(WithProfileValue(p, pn, value), other) == ProfileValue(p, other)
    ensures PasswordValue(WithPasswordValue(w, wn, value), wn) == value
    ensures forall other :: other != wn ==> PasswordValue(WithPasswordValue(w, wn, value), other) == PasswordValue(w, other)
    ensures WithProfileValue(p, pn, ProfileValue(p, pn)) == p
    ensures WithPasswordValue(w, wn, PasswordValue(w, wn)) == w
  {
  }

  /**
   * The client-side checks of the password submit, in order: the new
   * password and its confirmation must agree, then the new password must
   * have at least six characters. The answer is the error to show, if any.
   */
  function PasswordCheck(f: PasswordForm): Option<string> {
    if f.newPassword != f.confirmPassword then Some(Mismatch)
    else if |f.newPassword| < MinPasswordLength then Some(TooShort)
    else None
  }

  /**
   * A mismatch is reported whatever the length; a short password only when
   * the two agree; and the form passes exactly when they agree and the
   * password has at least six characters.
   */
  lemma PasswordCheckSpec(f: PasswordForm)
    ensures f.newPassword != f.confirmPassword ==> PasswordCheck(f) == Some(Mismatch)
    ensures f.newPassword == f.confirmPassword && |f.newPassword| < MinPasswordLength ==> PasswordCheck(f) == Some(TooShort)
    ensures PasswordCheck(f) == None <==> f.newPassword == f.confirmPassword && |f.newPassword| >= MinPasswordLength
  {
  }

  /** The request body: email, current and new password, and never the confirmation. */
  function RequestOf(f: PasswordForm): PasswordRequest {
    PasswordRequest(f.email, f.currentPassword, f.newPassword)
  }

  /** The request does not depend on the confirmation field. */
  lemma RequestIgnoresConfirmation(f: PasswordForm, confirm: string)
    ensures RequestOf(f.(confirmPassword := confirm)) == RequestOf(f)
  {
  }

  /** The form after a successful change: the three password fields cleared, the email kept. */
  function Cleared(f: PasswordForm): PasswordForm {
    f.(currentPassword := "", newPassword := "", confirmPassword := "")
  }

  /** The error shown for a failed request: the server's message when it has one. */
  function ErrorOf(serverMessage: Option<string>, fallback: string): string {
    if Truthy(serverMessage) then serverMessage.value else fallback
  }

  class ProfilePage {
    var profileData: ProfileForm
    var passwordData: PasswordForm
    var loading: bool
    var message: string
    var error: string

    constructor ()
      ensures profileData == EmptyProfile && passwordData == EmptyPassword
      ensures !loading && message == "" && error == ""
    {
      profileData := EmptyProfile;
      passwordData := EmptyPassword;
      loading := false;
      message := "";
      error := "";
    }

    /**
     * The effect run when the user changes: with a user, the profile form
     * is set from it (missing fields as "") and the password form's email
     * too, keeping its other fields.
     */
    method LoadUser(user: Option<ClientUser>)
      modifies this
      ensures user.None? ==> profileData == old(profileData) && passwordData == old(passwordData)
      ensures user.Some? ==>
        && profileData == ProfileForm(OrEmpty(user.value.firstName), OrEmpty(user.value.lastName), OrEmpty(user.value.email))
        && passwordData == old(passwordData).(email := OrEmpty(user.value.email))
      ensures loading == old(loading) && message == old(message) && error == old(error)
    {
      if user.Some? {
        var u := user.value;
        profileData := ProfileForm(OrEmpty(u.firstName), OrEmpty(u.lastName), OrEmpty(u.email));
        passwordData := passwordData.(email := OrEmpty(u.email));
      }
    }

    /** `handleProfileChange`. */
    method HandleProfileChange(name: ProfileField, value: string)
      modifies this
      ensures profileData == WithProfileValue(old(profileData), name, value)
      ensures passwordData == old(passwordData) && loading == old(loading)
      ensures message == old(message) && error == old(error)
    {
      profileData := WithProfileValue(profileData, name, value);
    }

    /** `handlePasswordChange`. */
    method HandlePasswordChange(name: PasswordField, value: string)
      modifies this
      ensures passwordData == WithPasswordValue(old(passwordData), name, value)
      ensures profileData == old(profileData) && loading == old(loading)
      ensures message == old(message) && error == old(error)
    {
      passwordData := WithPasswordValue(passwordData, name, value);
    }

    /**
     * `handleProfileSubmit`: the whole profile form is sent; the page then
     * shows success, or the server's message or a fallback. The reload that
     * follows a success is not part of this model.
     */
    method HandleProfileSubmit(answer: Answer) returns (sent: ProfileForm)
      modifies this
      ensures sent == old(profileData)
      ensures profileData == old(profileData) && passwordData == old(passwordData) && !loading
      ensures answer.Succeeded? ==> message == ProfileSaved && error == ""
      ensures answer.Failed? ==> message == "" && error == ErrorOf(answer.serverMessage, ProfileFailed)
    {
      loading := true;
      error := "";
      message := "";
      sent := profileData;
      if answer.Succeeded? {
        message := ProfileSaved;
      } else {
        error := ErrorOf(answer.serverMessage, ProfileFailed);
      }
      loading := false;
    }

    /**
     * `handlePasswordSubmit`: a form that fails the client-side checks
     * shows the first failure and sends nothing. Otherwise the request is
     * sent; on success the page says so and clears the password fields,
     * keeping the email; on failure it shows the server's message or a
     * fallback and keeps the form.
     */
    method HandlePasswordSubmit(answer: Answer) returns (sent: Option<PasswordRequest>)
      modifies this
      ensures profileData == old(profileData) && !loading
      ensures PasswordCheck(old(passwordData)).Some? ==>
        && sent == None && passwordData == old(passwordData)
        && error == PasswordCheck(old(passwordData)).value && message == ""
      ensures PasswordCheck(old(passwordData)).None? ==> sent == Some(RequestOf(old(passwordData)))
      ensures PasswordCheck(old(passwordData)).None? && answer.Succeeded? ==>
        && passwordData == Cleared(old(passwordData)) && message == PasswordSaved && error == ""
      ensures PasswordCheck(old(passwordData)).None? && answer.Failed? ==>
        && passwordData == old(passwordData) && message == ""
        && error == ErrorOf(answer.serverMessage, PasswordFailed)
    {
      loading := true;
      error := "";
      message := "";
      if passwordData.newPassword != passwordData.confirmPassword {
        error := Mismatch;
        loading := false;
        return None;
      }
      if |passwordData.newPassword| < MinPasswordLength {
        error := TooShort;
        loading := false;
        return None;
      }
      sent := Some(PasswordRequest(passwordData.email, passwordData.currentPassword, passwordData.newPassword));
      if answer.Succeeded? {
        message := PasswordSaved;
        passwordData := passwordData.(currentPassword := "", newPassword := "", confirmPassword := "");
      } else {
        error := ErrorOf(answer.serverMessage, PasswordFailed);
      }
      loading := false;
    }
  }

  /**
   * After the user is loaded, a successful password change leaves a form
   * whose email is still the user's and whose other fields are empty, so
   * the next submit fails the length check until new passwords are typed.
   */
  method ChangeThenResubmit(page: ProfilePage, user: ClientUser, answer: Answer)
    returns (first: Option<PasswordRequest>, second: Option<PasswordRequest>)
    requires PasswordCheck(page.passwordData) == None
    modifies page
    ensures first == Some(RequestOf(old(page.passwordData).(email := OrEmpty(user.email))))
    ensures answer.Succeeded? ==> second == None && page.error == TooShort && page.passwordData.email == OrEmpty(user.email)
  {
    page.LoadUser(Some(user));
    first := page.HandlePasswordSubmit(answer);
    second := page.HandlePasswordSubmit(answer);
  }
}
