/** The admin change-password form of src/pages/admin/ChangePassword.tsx:
    the checks made before any request, the request it sends, and what the
    reply does to the form. */
module ChangePasswordPage {
  import opened Wrappers
  import opened Text
  import opened ClientAuth
  import Store
  import Numerals
  import RootServer

  /** The first failing client-side check, in the order the page makes them. */
  function FirstCheckFailure(user: Option<ClientUser>, newPassword: string, confirmPassword: string): (e: Option<string>)
    ensures (user.None? || user.value.id == 0) <==> e == Some("User not authenticated")
    ensures user.Some? && user.value.id != 0 && newPassword != confirmPassword <==>
              e == Some("New passwords do not match")
    ensures user.Some? && user.value.id != 0 && newPassword == confirmPassword && Utf16Length(newPassword) < 8 <==>
              e == Some("New password must be at least 8 characters long")
    ensures e.None? <==> user.Some? && user.value.id != 0 && newPassword == confirmPassword
                         && Utf16Length(newPassword) >= 8
  {
    if user.None? || user.value.id == 0 then Some("User not authenticated")
    else if newPassword != confirmPassword then Some("New passwords do not match")
    else if Utf16Length(newPassword) < 8 then Some("New password must be at least 8 characters long")
    else None
  }

  /** The body of the POST to /api/profile/change-password. */
  datatype PasswordRequest = PasswordRequest(id: int, currentPassword: string, newPassword: string)

  /** How that request came back. */
  datatype ChangeReply =
    | RefusedJson(error: Option<string>)  // not ok with a JSON body
    | RefusedOther                        // not ok with another body
    | Threw(message: string)              // the request or the body parse threw
    | Changed(text: Option<string>)       // ok; the body's `message`, if any

  /** What the effect and the render do for the current user. */
  datatype PageView = PageView(navigateTo: Option<string>, renders: bool)

  /** With no user the page moves to /login and renders nothing. */
  function ChangePasswordView(user: Option<ClientUser>): (v: PageView)
    ensures user.None? <==> v == PageView(Some("/login"), false)
    ensures user.Some? <==> v == PageView(None, true)
  {
    if user.None? then PageView(Some("/login"), false) else PageView(None, true)
  }

  datatype FormField = CurrentPassword | NewPassword | ConfirmPassword

  class ChangePasswordForm {
    var currentPassword: string
    var newPassword: string
    var confirmPassword: string
    var loading: bool
    var error: Option<string>
    var success: Option<string>

    constructor ()
      ensures currentPassword == "" && newPassword == "" && confirmPassword == ""
      ensures !loading && error.None? && success.None?
    {
      currentPassword := "";
      newPassword := "";
      confirmPassword := "";
      loading := false;
      error := None;
      success := None;
    }

    /** `handleChange`: only the named field changes. */
    method HandleChange(name: FormField, value: string)
      modifies this
      ensures currentPassword == (if name == CurrentPassword then value else old(currentPassword))
      ensures newPassword == (if name == NewPassword then value else old(newPassword))
      ensures confirmPassword == (if name == ConfirmPassword then value else old(confirmPassword))
      ensures loading == old(loading) && error == old(error) && success == old(success)
    {
      match name {
        case CurrentPassword => currentPassword := value;
        case NewPassword => newPassword := value;
        case ConfirmPassword => confirmPassword := value;
      }
    }

    /** `handleSubmit` for `user`, with `reply` the request's outcome. A
        failed check sets its message and neither sets `loading` nor sends;
        otherwise the request carries the user's id and the two passwords,
        and success clears all three fields. */
    method HandleSubmit(user: Option<ClientUser>, reply: ChangeReply) returns (request: Option<PasswordRequest>)
      modifies this
      ensures var e := FirstCheckFailure(user, old(newPassword), old(confirmPassword));
        e.Some? ==> request.None? && error == e && success.None? && loading == old(loading)
                    && currentPassword == old(currentPassword) && newPassword == old(newPassword)
                    && confirmPassword == old(confirmPassword)
      ensures request.Some? <==> FirstCheckFailure(user, old(newPassword), old(confirmPassword)).None?
      ensures request.Some? ==>
                request.value == PasswordRequest(user.value.id, old(currentPassword), old(newPassword)) && !loading
      ensures request.Some? && reply.Changed? ==>
                success == Some(OrElse(reply.text, "Password changed successfully")) && error.None?
                && currentPassword == "" && newPassword == "" && confirmPassword == ""
      ensures request.Some? && !reply.Changed? ==>
                success.None? && currentPassword == old(currentPassword) && newPassword == old(newPassword)
                && confirmPassword == old(confirmPassword)
      ensures request.Some? && reply.RefusedJson? ==> error == Some(OrElse(reply.error, "Failed to change password"))
      ensures request.Some? && reply.RefusedOther? ==> error == Some("Server returned an unexpected response")
      ensures request.Some? && reply.Threw? ==> error == Some(reply.message)
    {
      error := None;
      success := None;
      var e := FirstCheckFailure(user, newPassword, confirmPassword);
      if e.Some? {
        error := e;
        return None;
      }
      loading := true;
      request := Some(PasswordRequest(user.value.id, currentPassword, newPassword));
      match reply {
        case RefusedJson(m) => error := Some(OrElse(m, "Failed to change password"));
        case RefusedOther => error := Some("Server returned an unexpected response");
        case Threw(m) => error := Some(m);
        case Changed(m) =>
          success := Some(OrElse(m, "Password changed successfully"));
          currentPassword := "";
          newPassword := "";
          confirmPassword := "";
      }
      loading := false;
    }
  }

  /** The page posts to the Express route of server.js. Every request it
      lets through passes that route's id, presence and length checks except
      one: the page never checks the current password, so an empty one is
      the only way its request still meets a 400. */
  lemma ServerRefusesOnlyEmptyCurrent(t: Store.Tables, h: Store.Hasher, fault: bool, u: ClientUser,
                                      current: string, newPassword: string)
    requires t.Valid()
    requires u.id > 0 && FirstCheckFailure(Some(u), newPassword, newPassword).None?
    ensures var o := RootServer.ChangePassword(t, h, fault, Some(Numerals.DecimalText(u.id as nat)), Some(current),
                                               Some(newPassword));
      o.response.status == 400 <==> current == ""
  {
  }
}
