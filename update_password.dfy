/**
 * The password-change form of frontend/src/components/UpdatePassword.jsx: its client-side
 * guard chain, the request it sends and the resets after success and on cancel.
 */
module PasswordForm {
  import opened Wrappers
  import Js

  const AllRequired := "All fields are required"
  const Mismatch := "New passwords do not match"
  const TooShort := "New password must be at least 6 characters long"
  const RequestFailed := "Failed to update password"

  /** The minimum `length` (in UTF-16 code units) the form demands of a new password. */
  const MinLength := 6

  /**
   * The three client checks in their order: `None` when the form may send the request,
   * otherwise the error it shows.
   */
  function PasswordCheck(oldPassword: string, newPassword: string, confirmPassword: string): (r: Option<string>)
    ensures r.None? <==>
              oldPassword != "" && newPassword != "" && confirmPassword != ""
              && newPassword == confirmPassword && Js.Utf16Length(newPassword) >= MinLength
    ensures oldPassword == "" || newPassword == "" || confirmPassword == "" ==> r == Some(AllRequired)
    ensures oldPassword != "" && newPassword != "" && confirmPassword != "" && newPassword != confirmPassword ==>
              r == Some(Mismatch)
    ensures oldPassword != "" && newPassword != "" && newPassword == confirmPassword
            && Js.Utf16Length(newPassword) < MinLength ==>
              r == Some(TooShort)
  {
    if oldPassword == "" || newPassword == "" || confirmPassword == "" then Some(AllRequired)
    else if newPassword != confirmPassword then Some(Mismatch)
    else if Js.Utf16Length(newPassword) < MinLength then Some(TooShort)
    else None
  }

  /** The three text inputs (and the three eye toggles). */
  datatype PasswordField = OldField | NewField | ConfirmField

  /** What came back from the PUT request: a JSON reply, or an exception. */
  datatype PutReply = Answered(success: bool, message: string) | RequestError

  class UpdatePasswordForm {
    var oldPassword: string
    var newPassword: string
    var confirmPassword: string
    var showOld: bool
    var showNew: bool
    var showConfirm: bool
    var loading: bool
    var error: string
    var isEditing: bool

    /** Empty fields, hidden passwords, no error, not editing. */
    constructor ()
      ensures oldPassword == newPassword == confirmPassword == ""
      ensures !showOld && !showNew && !showConfirm
      ensures !loading && error == "" && !isEditing
    {
      oldPassword, newPassword, confirmPassword := "", "", "";
      showOld, showNew, showConfirm := false, false, false;
      loading, error, isEditing := false, "", false;
    }

    /** The "Change" button. */
    method StartEditing()
      modifies this
      ensures isEditing
      ensures oldPassword == old(oldPassword) && newPassword == old(newPassword) && confirmPassword == old(confirmPassword)
      ensures showOld == old(showOld) && showNew == old(showNew) && showConfirm == old(showConfirm)
      ensures loading == old(loading) && error == old(error)
    {
      isEditing := true;
    }

    /** `setPasswords(prev => ({ ...prev, [field]: value }))` from an input's `onChange`. */
    method Edit(field: PasswordField, value: string)
      modifies this
      ensures oldPassword == (if field == OldField then value else old(oldPassword))
      ensures newPassword == (if field == NewField then value else old(newPassword))
      ensures confirmPassword == (if field == ConfirmField then value else old(confirmPassword))
      ensures showOld == old(showOld) && showNew == old(showNew) && showConfirm == old(showConfirm)
      ensures loading == old(loading) && error == old(error) && isEditing == old(isEditing)
    {
      match field
      case OldField => oldPassword := value;
      case NewField => newPassword := value;
      case ConfirmField => confirmPassword := value;
    }

    /** `handleTogglePassword(field)`: flips one visibility flag. */
    method TogglePassword(field: PasswordField)
      modifies this
      ensures showOld == (if field == OldField then !old(showOld) else old(showOld))
      ensures showNew == (if field == NewField then !old(showNew) else old(showNew))
      ensures showConfirm == (if field == ConfirmField then !old(showConfirm) else old(showConfirm))
      ensures oldPassword == old(oldPassword) && newPassword == old(newPassword) && confirmPassword == old(confirmPassword)
      ensures loading == old(loading) && error == old(error) && isEditing == old(isEditing)
    {
      match field
      case OldField => showOld := !showOld;
      case NewField => showNew := !showNew;
      case ConfirmField => showConfirm := !showConfirm;
    }

    /** The "Cancel" button: leaves editing and clears the fields and the error. */
    method Cancel()
      modifies this
      ensures !isEditing && error == ""
      ensures oldPassword == newPassword == confirmPassword == ""
      ensures showOld == old(showOld) && showNew == old(showNew) && showConfirm == old(showConfirm)
      ensures loading == old(loading)
    {
      isEditing := false;
      error := "";
      oldPassword, newPassword, confirmPassword := "", "", "";
    }

    /**
     * `handleUpdatePassword()`. `sent` is the `{ oldPassword, newPassword }` body of the PUT
     * request, and `reply` what it would bring back; `reply` is read only when a request is sent.
     */
    method HandleUpdatePassword(reply: PutReply) returns (sent: Option<(string, string)>)
      modifies this
      ensures showOld == old(showOld) && showNew == old(showNew) && showConfirm == old(showConfirm)
      ensures PasswordCheck(old(oldPassword), old(newPassword), old(confirmPassword)).Some? ==>
                && sent.None?
                && error == PasswordCheck(old(oldPassword), old(newPassword), old(confirmPassword)).value
                && oldPassword == old(oldPassword) && newPassword == old(newPassword)
                && confirmPassword == old(confirmPassword)
                && loading == old(loading) && isEditing == old(isEditing)
      ensures PasswordCheck(old(oldPassword), old(newPassword), old(confirmPassword)).None? ==>
                && sent == Some((old(oldPassword), old(newPassword)))
                && !loading
                && (reply.Answered? && reply.success ==>
                      !isEditing && error == "" && oldPassword == newPassword == confirmPassword == "")
                && (!reply.Answered? || !reply.success ==>
                      && error == (if reply.Answered? then reply.message else RequestFailed)
                      && oldPassword == old(oldPassword) && newPassword == old(newPassword)
                      && confirmPassword == old(confirmPassword) && isEditing == old(isEditing))
    {
      var refusal := PasswordCheck(oldPassword, newPassword, confirmPassword);
      if refusal.Some? {
        error := refusal.value;
        return None;
      }
      loading := true;
      error := "";
      sent := Some((oldPassword, newPassword));
      match reply {
        case Answered(success, message) =>
          if success {
            isEditing := false;
            oldPassword, newPassword, confirmPassword := "", "", "";
          } else {
            error := message;
          }
        case RequestError =>
          error := RequestFailed;
      }
      loading := false;
    }
  }

  /**
   * A sent request always carries a new password of at least six UTF-16 units, equal to the
   * confirmation; for a password of basic-plane characters that is at least six characters.
   */
  lemma SentPasswordIsConfirmed(oldPassword: string, newPassword: string, confirmPassword: string)
    requires PasswordCheck(oldPassword, newPassword, confirmPassword).None?
    ensures Js.Utf16Length(newPassword) >= MinLength && newPassword == confirmPassword && oldPassword != ""
    ensures (forall i :: 0 <= i < |newPassword| ==> newPassword[i] as int <= 0xFFFF) ==> |newPassword| >= MinLength
  {
    if forall i :: 0 <= i < |newPassword| ==> newPassword[i] as int <= 0xFFFF {
      Js.Utf16LengthOfBasicPlane(newPassword);
    }
  }

  /** Three characters outside the basic plane have `length` 6, so the form sends them. */
  lemma AstralCharactersCountTwice()
    ensures PasswordCheck("current", "\U{1F600}\U{1F600}\U{1F600}", "\U{1F600}\U{1F600}\U{1F600}").None?
  {
    var p := "\U{1F600}\U{1F600}\U{1F600}";
    assert p[1..] == "\U{1F600}\U{1F600}" && p[1..][1..] == "\U{1F600}" && p[1..][1..][1..] == [];
    assert Js.Utf16Length(p) == 6;
  }

  /** A mismatch is reported before the length rule, even when both rules are broken. */
  lemma MismatchBeforeLength()
    ensures PasswordCheck("current", "abc", "abd") == Some(Mismatch)
  {
  }
}
