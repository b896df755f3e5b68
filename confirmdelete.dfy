/**
 * The delete-password gate of components/ConfirmDeleteModal.tsx: the first
 * deletion sets a password (at least four characters, typed twice), every
 * later deletion must type it again exactly.
 */
module ConfirmDelete {
  import opened Wrappers

  const MinPasswordLength: nat := 4
  const ShortPasswordError: string := "Password must be at least 4 characters long."
  const MismatchError: string := "Passwords do not match."
  const IncorrectPasswordError: string := "Incorrect password."

  /**
   * No password is stored yet (`!storedPassword`: absent or empty), so the gate
   * asks for a new one; an absent password is the empty string here.
   */
  predicate IsSettingPassword(stored: string): (r: bool)
    ensures r <==> |stored| == 0
  {
    stored == ""
  }

  /** What one press of the confirm button decides. */
  datatype Verdict =
    | Rejected(error: string)
    | Accepted(save: Option<string>)   // `save` is the new password to store, if one was set

  /**
   * The decision of `handleConfirm`, from the stored password and the three
   * input fields. The length check comes before the match check.
   */
  function Judge(stored: string, password: string, newPassword: string, confirmNewPassword: string): (v: Verdict)
    ensures v.Accepted? <==>
      if IsSettingPassword(stored) then |newPassword| >= MinPasswordLength && newPassword == confirmNewPassword
      else password == stored
    ensures IsSettingPassword(stored) && |newPassword| < MinPasswordLength ==> v == Rejected(ShortPasswordError)
    ensures IsSettingPassword(stored) && |newPassword| >= MinPasswordLength && newPassword != confirmNewPassword ==>
      v == Rejected(MismatchError)
    ensures !IsSettingPassword(stored) && password != stored ==> v == Rejected(IncorrectPasswordError)
    ensures v.Accepted? ==> v.save == if IsSettingPassword(stored) then Some(newPassword) else None
    ensures v.Accepted? && v.save.Some? ==> |v.save.value| >= MinPasswordLength && !IsSettingPassword(v.save.value)
  {
    if IsSettingPassword(stored) then
      if |newPassword| < MinPasswordLength then Rejected(ShortPasswordError)
      else if newPassword != confirmNewPassword then Rejected(MismatchError)
      else Accepted(Some(newPassword))
    else if password == stored then Accepted(None)
    else Rejected(IncorrectPasswordError)
  }

  /**
   * Once a password has been set, the gate is in verify mode for good, and it
   * accepts exactly the password that was set.
   */
  lemma SetThenVerify(newPassword: string, typed: string, otherNew: string, otherConfirm: string)
    requires |newPassword| >= MinPasswordLength
    ensures Judge("", typed, newPassword, newPassword) == Accepted(Some(newPassword))
    ensures !IsSettingPassword(newPassword)
    ensures Judge(newPassword, typed, otherNew, otherConfirm).Accepted? <==> typed == newPassword
    ensures Judge(newPassword, typed, otherNew, otherConfirm).Accepted? ==>
      Judge(newPassword, typed, otherNew, otherConfirm).save.None?
  {
  }

  /** The modal's own state: the three input fields and the error line. */
  class DeleteGate {
    var password: string
    var newPassword: string
    var confirmNewPassword: string
    var error: string

    constructor ()
      ensures password == "" && newPassword == "" && confirmNewPassword == "" && error == ""
    {
      password, newPassword, confirmNewPassword, error := "", "", "", "";
    }

    /** The effect that runs whenever the open flag changes: every field and the error are cleared. */
    method OnOpenChange()
      modifies this
      ensures password == "" && newPassword == "" && confirmNewPassword == "" && error == ""
    {
      password := "";
      newPassword := "";
      confirmNewPassword := "";
      error := "";
    }

    /**
     * `handleConfirm`: on rejection only the error changes; on acceptance the
     * new password (in setting mode) is handed back to be stored and the
     * deletion is confirmed.
     */
    method HandleConfirm(storedPassword: string) returns (saved: Option<string>, confirmed: bool)
      modifies this`error
      ensures var v := Judge(storedPassword, password, newPassword, confirmNewPassword);
        && (v.Rejected? ==> error == v.error && saved.None? && !confirmed)
        && (v.Accepted? ==> error == old(error) && saved == v.save && confirmed)
    {
      saved, confirmed := None, false;
      if IsSettingPassword(storedPassword) {
        if |newPassword| < MinPasswordLength {
          error := ShortPasswordError;
          return;
        }
        if newPassword != confirmNewPassword {
          error := MismatchError;
          return;
        }
        saved := Some(newPassword);
        confirmed := true;
      } else {
        if password == storedPassword {
          confirmed := true;
        } else {
          error := IncorrectPasswordError;
        }
      }
    }
  }
}
