/** The sign-up form of src/pages/SignupPage.tsx: the requirement tracking of
    `handleInputChange` and the checks `handleSubmit` makes before and after
    its request. */
module SignupPage {
  import opened Wrappers
  import opened Text
  import opened PasswordRequirements
  import opened ClientAuth

  /** The input the change event names. */
  datatype FormField = FullName | Email | Password | ConfirmPassword | PhoneNumber | Role

  /** How the two requests of `handleSubmit` came back. */
  datatype SignupReply =
    | HealthCheckFailed                   // health_check.php answered not ok
    | Threw(message: string)              // a request itself threw
    | NotJson                             // content-type is not application/json
    | Rejected(error: Option<string>)     // not ok; the body's `error`, if any
    | Created(user: Option<ClientUser>)   // ok; the body's `user`, if any

  const NoRequirements := Requirements(false, false, false, false, false)

  /** The all-false initial state is what the empty password gives. */
  lemma InitialRequirementsFitEmptyPassword()
    ensures Check("", SignupSpecial) == NoRequirements
  {
  }

  /** The message `handleSubmit` shows for a failed request. */
  function RequestError(reply: SignupReply): string
    requires !reply.Created?
  {
    match reply
    case HealthCheckFailed => "Unable to connect to the server. Please check if the server is running."
    case Threw(m) => m
    case NotJson => "Server error: Received invalid response format"
    case Rejected(e) => OrElse(e, "Failed to sign up")
  }

  class SignupForm {
    var fullName: string
    var email: string
    var password: string
    var confirmPassword: string
    var phoneNumber: string
    var role: string
    var requirements: Requirements
    var error: string
    var isLoading: bool
    var storage: Stored
    var location: string

    /** The checklist state always describes the password typed so far. */
    predicate Tracking()
      reads this
    {
      requirements == Check(password, SignupSpecial)
    }

    /** The first render: empty fields, role 'Tourist', nothing met. */
    constructor (storage: Stored, location: string)
      ensures fullName == "" && email == "" && password == "" && confirmPassword == "" && phoneNumber == ""
      ensures role == "Tourist" && requirements == NoRequirements && error == "" && !isLoading
      ensures this.storage == storage && this.location == location
      ensures Tracking()
    {
      fullName := "";
      email := "";
      password := "";
      confirmPassword := "";
      phoneNumber := "";
      role := "Tourist";
      requirements := NoRequirements;
      error := "";
      isLoading := false;
      this.storage := storage;
      this.location := location;
    }

    /** `handleInputChange`: the named field takes the value; a password
        change recomputes the checklist. */
    method HandleInputChange(name: FormField, value: string)
      modifies this
      ensures fullName == (if name == FullName then value else old(fullName))
      ensures email == (if name == Email then value else old(email))
      ensures password == (if name == Password then value else old(password))
      ensures confirmPassword == (if name == ConfirmPassword then value else old(confirmPassword))
      ensures phoneNumber == (if name == PhoneNumber then value else old(phoneNumber))
      ensures role == (if name == Role then value else old(role))
      ensures requirements == (if name == Password then Check(value, SignupSpecial) else old(requirements))
      ensures error == old(error) && isLoading == old(isLoading)
      ensures storage == old(storage) && location == old(location)
      ensures old(Tracking()) ==> Tracking()
    {
      match name {
        case FullName => fullName := value;
        case Email => email := value;
        case Password =>
          password := value;
          requirements := Check(value, SignupSpecial);
        case ConfirmPassword => confirmPassword := value;
        case PhoneNumber => phoneNumber := value;
        case Role => role := value;
      }
    }

    /** `handleSubmit` with `reply` the outcome of its requests. Returns
        whether a request was sent: only when the two passwords match and
        every requirement is met. The mismatch is reported first. */
    method HandleSubmit(reply: SignupReply) returns (sent: bool)
      modifies this
      ensures sent <==> password == confirmPassword && requirements.AllMet()
      ensures old(Tracking()) ==> (sent <==> password == confirmPassword && Check(password, SignupSpecial).AllMet())
      ensures password != confirmPassword ==> error == "Passwords do not match"
      ensures password == confirmPassword && !requirements.AllMet() ==>
                error == "Password does not meet all requirements"
      ensures sent && !reply.Created? ==> error == RequestError(reply)
      ensures sent && reply.Created? ==>
                error == "" && location == "/login"
                && storage == (if reply.user.Some? then Entry(reply.user.value) else Unparsable)
      ensures !(sent && reply.Created?) ==> storage == old(storage) && location == old(location)
      ensures !isLoading
      ensures fullName == old(fullName) && email == old(email) && password == old(password)
      ensures confirmPassword == old(confirmPassword) && phoneNumber == old(phoneNumber) && role == old(role)
      ensures requirements == old(requirements)
    {
      error := "";
      isLoading := true;
      sent := false;
      if password != confirmPassword {
        error := "Passwords do not match";
      } else if !requirements.AllMet() {
        error := "Password does not meet all requirements";
      } else {
        sent := true;
        match reply {
          case Created(u) =>
            storage := if u.Some? then Entry(u.value) else Unparsable;
            location := "/login";
          case _ =>
            error := RequestError(reply);
        }
      }
      isLoading := false;
    }
  }

  /** A password of fewer than eight characters is never sent. */
  lemma ShortPasswordNotSent(password: string)
    requires |password| < 8 && IsAscii(password)
    ensures !Check(password, SignupSpecial).AllMet()
  {
    AsciiLengths(password);
  }
}
