/** The profile page of project/src/pages/dashboard/Profile.tsx: editing the
    four profile fields, cancelling, saving (which merges the fields into the
    stored user) and changing the password. The stored user is the JSON
    object kept under 'user' in localStorage, read on every render. */
module ProfilePage {
  import opened Wrappers
  import opened ClientAuth
  import Text
  import Store
  import ProjectServer

  /** A stored JSON object with string values; None for no entry. */
  type StoredObject = Option<map<string, string>>

  datatype Profile = Profile(fullName: string, email: string, phoneNumber: string, role: string)

  datatype ProfileField = FullNameField | EmailField | PhoneField | RoleField

  /** `initialUser?.[key] || ''`. */
  function StoredField(stored: StoredObject, key: string): string {
    if stored.Some? && key in stored.value then stored.value[key] else ""
  }

  /** The form's starting values, taken from the stored user. */
  function InitialProfile(stored: StoredObject): (p: Profile)
    ensures p.fullName == StoredField(stored, "full_name") && p.email == StoredField(stored, "email")
    ensures p.phoneNumber == StoredField(stored, "phone_number") && p.role == StoredField(stored, "role")
  {
    Profile(StoredField(stored, "full_name"), StoredField(stored, "email"),
            StoredField(stored, "phone_number"), StoredField(stored, "role"))
  }

  /** The profile as the JSON object the page sends and stores. */
  function ProfileObject(p: Profile): map<string, string> {
    map["full_name" := p.fullName, "email" := p.email, "phone_number" := p.phoneNumber, "role" := p.role]
  }

  const ProfileKeys := {"full_name", "email", "phone_number", "role"}

  /** `{ ...initialUser, ...profileData }`. */
  function Merged(stored: StoredObject, p: Profile): map<string, string> {
    (if stored.Some? then stored.value else map[]) + ProfileObject(p)
  }

  /** The merge keeps every stored key, adds the four profile keys, takes
      the profile's value for those and the stored value for the rest; so
      a stored id survives a save. */
  lemma MergedOutcomes(stored: StoredObject, p: Profile)
    ensures Merged(stored, p).Keys == (if stored.Some? then stored.value.Keys else {}) + ProfileKeys
    ensures Merged(stored, p)["full_name"] == p.fullName && Merged(stored, p)["email"] == p.email
    ensures Merged(stored, p)["phone_number"] == p.phoneNumber && Merged(stored, p)["role"] == p.role
    ensures forall k :: stored.Some? && k in stored.value && k !in ProfileKeys ==> Merged(stored, p)[k] == stored.value[k]
  {
  }

  /** Saving and then reading the form back gives the saved profile. */
  lemma MergedReadsBack(stored: StoredObject, p: Profile)
    ensures InitialProfile(Some(Merged(stored, p))) == p
  {
    MergedOutcomes(stored, p);
  }

  /** How a request of the page came back, the health check included. */
  datatype Reply =
    | ServerDown                      // the health check failed
    | Threw(message: string)          // the request itself threw
    | NotJson                         // content-type is not application/json
    | Refused(error: Option<string>)  // not ok; the body's `error`, if any
    | Accepted                        // ok

  const ServerDownMessage := "Unable to connect to the server. Please check if the server is running."
  const InvalidFormatMessage := "Server error: Received invalid response format"

  /** The error a failed reply sets, given the fallback for a refusal. */
  function ReplyError(reply: Reply, fallback: string): string
    requires !reply.Accepted?
  {
    match reply
    case ServerDown => ServerDownMessage
    case Threw(m) => m
    case NotJson => InvalidFormatMessage
    case Refused(e) => OrElse(e, fallback)
  }

  /** The body of the password request. A stored user without an email
      sends none. */
  datatype PasswordBody = PasswordBody(email: Option<string>, currentPassword: string, newPassword: string)

  /** The message a null stored user raises when its email is read. */
  const NullUserMessage := "Cannot read properties of null (reading 'email')"

  /** The page checks no length: a matching short new password is sent
      (see `HandlePasswordChange`), and the change-password route of
      project/server.js, which this page calls, refuses it. */
  lemma ServerRefusesShortPassword(t: Store.Tables, h: Store.Hasher, fault: bool, b: PasswordBody)
    requires t.Valid()
    requires b.email.Some? && b.email.value != "" && b.currentPassword != "" && b.newPassword != ""
    requires Text.Utf16Length(b.newPassword) < 8
    ensures ProjectServer.ChangePassword(t, h, fault, b.email, Some(b.currentPassword), Some(b.newPassword))
         == Store.Outcome(Store.Fail(400, "New password must be at least 8 characters long"), t)
  {
  }

  class ProfileView {
    var profile: Profile
    var isEditing: bool
    var hasUnsavedChanges: bool
    var storage: StoredObject
    var currentPassword: string
    var newPassword: string
    var confirmPassword: string
    var error: string
    var successMessage: string

    constructor (storage: StoredObject)
      ensures profile == InitialProfile(storage) && this.storage == storage
      ensures !isEditing && !hasUnsavedChanges
      ensures currentPassword == "" && newPassword == "" && confirmPassword == ""
      ensures error == "" && successMessage == ""
    {
      profile := InitialProfile(storage);
      isEditing := false;
      hasUnsavedChanges := false;
      this.storage := storage;
      currentPassword := "";
      newPassword := "";
      confirmPassword := "";
      error := "";
      successMessage := "";
    }

    /** `handleProfileChange`: only the named field changes, and the form is
        marked as having unsaved changes. */
    method HandleProfileChange(name: ProfileField, value: string)
      modifies this
      ensures profile.fullName == (if name == FullNameField then value else old(profile.fullName))
      ensures profile.email == (if name == EmailField then value else old(profile.email))
      ensures profile.phoneNumber == (if name == PhoneField then value else old(profile.phoneNumber))
      ensures profile.role == (if name == RoleField then value else old(profile.role))
      ensures hasUnsavedChanges
      ensures isEditing == old(isEditing) && storage == old(storage) && error == old(error)
      ensures successMessage == old(successMessage)
      ensures currentPassword == old(currentPassword) && newPassword == old(newPassword)
      ensures confirmPassword == old(confirmPassword)
    {
      match name {
        case FullNameField => profile := profile.(fullName := value);
        case EmailField => profile := profile.(email := value);
        case PhoneField => profile := profile.(phoneNumber := value);
        case RoleField => profile := profile.(role := value);
      }
      hasUnsavedChanges := true;
    }

    /** `handleCancel`, with `confirmed` the answer to the confirm dialog
        (asked only when there are unsaved changes). */
    method HandleCancel(confirmed: bool)
      modifies this
      ensures old(hasUnsavedChanges) && !confirmed ==>
                profile == old(profile) && isEditing == old(isEditing) && hasUnsavedChanges
      ensures !(old(hasUnsavedChanges) && !confirmed) ==>
                profile == InitialProfile(storage) && !isEditing && !hasUnsavedChanges
      ensures storage == old(storage) && error == old(error) && successMessage == old(successMessage)
      ensures currentPassword == old(currentPassword) && newPassword == old(newPassword)
      ensures confirmPassword == old(confirmPassword)
    {
      if hasUnsavedChanges && !confirmed {
        return;
      }
      isEditing := false;
      hasUnsavedChanges := false;
      profile := InitialProfile(storage);
    }

    /** `handleProfileSubmit`: an accepted save stores the merge of the
        stored user and the form and ends editing; any failure sets the
        error and stores nothing. */
    method HandleProfileSubmit(reply: Reply)
      modifies this
      ensures reply.Accepted? ==>
                storage == Some(Merged(old(storage), old(profile))) && !isEditing && !hasUnsavedChanges
                && error == "" && successMessage == "\U{2705} Your profile has been updated successfully."
      ensures !reply.Accepted? ==>
                storage == old(storage) && isEditing == old(isEditing) && hasUnsavedChanges == old(hasUnsavedChanges)
                && error == ReplyError(reply, "Failed to update profile") && successMessage == ""
      ensures profile == old(profile)
      ensures currentPassword == old(currentPassword) && newPassword == old(newPassword)
      ensures confirmPassword == old(confirmPassword)
    {
      error := "";
      successMessage := "";
      if reply.Accepted? {
        storage := Some(Merged(storage, profile));
        successMessage := "\U{2705} Your profile has been updated successfully.";
        isEditing := false;
        hasUnsavedChanges := false;
      } else {
        error := ReplyError(reply, "Failed to update profile");
      }
    }

    /** `handlePasswordChange`: a mismatch fails before the health check and
        before any request; a request carries the stored email; success
        clears the three password fields. */
    method HandlePasswordChange(reply: Reply) returns (request: Option<PasswordBody>)
      modifies this
      ensures old(newPassword) != old(confirmPassword) ==> request.None? && error == "New passwords do not match"
      ensures request.Some? <==> old(newPassword) == old(confirmPassword) && !reply.ServerDown? && old(storage).Some?
      ensures request.Some? ==>
                request.value == PasswordBody(if "email" in old(storage).value then Some(old(storage).value["email"])
                                              else None, old(currentPassword), old(newPassword))
      ensures old(newPassword) == old(confirmPassword) && reply.ServerDown? ==> error == ServerDownMessage
      ensures old(newPassword) == old(confirmPassword) && !reply.ServerDown? && old(storage).None? ==>
                error == NullUserMessage
      ensures request.Some? && reply.Accepted? ==>
                currentPassword == "" && newPassword == "" && confirmPassword == ""
                && error == "" && successMessage == "\U{2705} Password changed successfully!"
      ensures request.Some? && !reply.Accepted? ==> error == ReplyError(reply, "Failed to change password")
      ensures !(request.Some? && reply.Accepted?) ==>
                currentPassword == old(currentPassword) && newPassword == old(newPassword)
                && confirmPassword == old(confirmPassword) && successMessage == ""
      ensures profile == old(profile) && storage == old(storage) && isEditing == old(isEditing)
      ensures hasUnsavedChanges == old(hasUnsavedChanges)
    {
      error := "";
      successMessage := "";
      request := None;
      if newPassword != confirmPassword {
        error := "New passwords do not match";
      } else if reply.ServerDown? {
        error := ServerDownMessage;
      } else if storage.None? {
        error := NullUserMessage;
      } else {
        var stored := storage.value;
        request := Some(PasswordBody(if "email" in stored then Some(stored["email"]) else None,
                                     currentPassword, newPassword));
        if reply.Accepted? {
          successMessage := "\U{2705} Password changed successfully!";
          currentPassword := "";
          newPassword := "";
          confirmPassword := "";
        } else {
          error := ReplyError(reply, "Failed to change password");
        }
      }
    }
  }
}
