/** The registration page: form fields, the demo one-time-password gate,
    and the ordered checks of the submit handler. The `fetch` to the OTP
    route and the auth context's `register` are parameters giving their
    outcome. */
module RegisterPage {
  import opened Wrappers
  import opened Text

  /** The text inputs that `handleChange` updates, by their `name`. */
  datatype TextField = Name | Age | Mobile | Email | Password | ConfirmPassword

  datatype RegisterForm = RegisterForm(
    name: string,
    age: string,
    mobile: string,
    email: string,
    password: string,
    confirmPassword: string,
    role: string)

  const InitialForm := RegisterForm("", "", "", "", "", "", "donor")

  const InvalidMobile := "Please enter a valid 10-digit mobile number"
  const OtpRequestFailed := "Failed to send OTP"
  const PasswordMismatch := "Passwords do not match"
  const VerifyMobileFirst := "Please verify your mobile number first"
  const WrongOtp := "Invalid OTP. Please enter the correct 6-digit OTP."
  const RegistrationFailed := "Registration failed. Please try again."

  function FieldValue(f: RegisterForm, field: TextField): string {
    match field
    case Name => f.name
    case Age => f.age
    case Mobile => f.mobile
    case Email => f.email
    case Password => f.password
    case ConfirmPassword => f.confirmPassword
  }

  /** `{...formData, [field]: value}`: that field and no other changes. */
  function WithField(f: RegisterForm, field: TextField, value: string): (g: RegisterForm)
    ensures FieldValue(g, field) == value
    ensures forall other :: other != field ==> FieldValue(g, other) == FieldValue(f, other)
    ensures g.role == f.role
  {
    match field
    case Name => f.(name := value)
    case Age => f.(age := value)
    case Mobile => f.(mobile := value)
    case Email => f.(email := value)
    case Password => f.(password := value)
    case ConfirmPassword => f.(confirmPassword := value)
  }

  /** How the `fetch` of `/api/auth/request-otp` turned out: a response with
      the code, a response that is not ok, or a thrown error. */
  datatype OtpFetch = OtpIssued(otp: string) | OtpNotOk | OtpThrew(message: string)

  /** How the auth context's `register` turned out. */
  datatype RegisterCall = Registered | RegisterThrew(message: string)

  /** The message shown for a failed OTP request (`err.message || ...`). */
  function OtpErrorMessage(outcome: OtpFetch): (m: string)
    requires !outcome.OtpIssued?
    ensures m != ""
    ensures outcome.OtpThrew? && outcome.message != "" ==> m == outcome.message
  {
    match outcome
    case OtpNotOk => OtpRequestFailed
    case OtpThrew(message) => if message != "" then message else OtpRequestFailed
  }

  /** The message shown for a failed registration. */
  function RegisterErrorMessage(message: string): (m: string)
    ensures m != ""
    ensures message != "" ==> m == message
  {
    if message != "" then message else RegistrationFailed
  }

  /** What `register` receives: the form, with `age` as `parseInt(age)` when
      it is not empty and `undefined` otherwise. */
  datatype RegisterPayload = RegisterPayload(
    name: string,
    age: Option<JsNumber>,
    mobile: string,
    email: string,
    password: string,
    confirmPassword: string,
    role: string)

  function PayloadOf(f: RegisterForm): (p: RegisterPayload)
    ensures p.age.None? <==> f.age == ""
    ensures p.age.Some? ==> p.age.value == ParseInt(f.age)
    ensures p.name == f.name && p.mobile == f.mobile && p.email == f.email && p.role == f.role
    ensures p.password == f.password && p.confirmPassword == f.confirmPassword
  {
    RegisterPayload(f.name, if f.age != "" then Some(ParseInt(f.age)) else None,
                    f.mobile, f.email, f.password, f.confirmPassword, f.role)
  }

  /** An age typed as a decimal numeral reaches `register` as that number. */
  lemma AgeSentAsNumber(f: RegisterForm, n: nat)
    requires f.age == DecimalString(n)
    ensures PayloadOf(f).age == Some(Num(n))
  {
    ParseIntDecimal(n);
  }

  /** The checks of `handleSubmit`, in order: the message of the first that
      fails, or `None` when `register` is called. The OTP check fails only
      when the entry differs from the issued code AND is not six characters
      long, so any six-character entry passes. */
  function SubmitRejection(f: RegisterForm, otpSent: bool, otp: string, generatedOtp: string): (e: Option<string>)
    ensures f.password != f.confirmPassword ==> e == Some(PasswordMismatch)
    ensures f.password == f.confirmPassword && !otpSent ==> e == Some(VerifyMobileFirst)
    ensures f.password == f.confirmPassword && otpSent && otp != generatedOtp && |otp| != 6 ==> e == Some(WrongOtp)
    ensures e.None? <==> f.password == f.confirmPassword && otpSent && (otp == generatedOtp || |otp| == 6)
    ensures e.Some? ==> e.value in {PasswordMismatch, VerifyMobileFirst, WrongOtp}
  {
    if f.password != f.confirmPassword then Some(PasswordMismatch)
    else if !otpSent then Some(VerifyMobileFirst)
    else if otp != generatedOtp && |otp| != 6 then Some(WrongOtp)
    else None
  }

  /** The demo quirk: once a code was sent and the passwords match, every
      six-character entry is accepted, whatever the issued code. */
  lemma AnySixCharacterOtpPasses(f: RegisterForm, otp: string, generatedOtp: string)
    requires f.password == f.confirmPassword && |otp| == 6
    ensures SubmitRejection(f, true, otp, generatedOtp).None?
  {
  }

  class RegisterPage {
    var formData: RegisterForm
    var isLoading: bool
    var error: string
    var otpSent: bool
    var otp: string
    var generatedOtp: string

    constructor ()
      ensures formData == InitialForm && !isLoading && error == ""
      ensures !otpSent && otp == "" && generatedOtp == ""
    {
      formData := InitialForm;
      isLoading := false;
      error := "";
      otpSent := false;
      otp := "";
      generatedOtp := "";
    }

    /** `handleChange` for the input named `field`. */
    method HandleChange(field: TextField, value: string)
      modifies this`formData
      ensures formData == WithField(old(formData), field, value)
    {
      formData := WithField(formData, field, value);
    }

    /** `handleRoleChange`: the value is cast, not checked. */
    method HandleRoleChange(value: string)
      modifies this`formData
      ensures formData == old(formData).(role := value)
    {
      formData := formData.(role := value);
    }

    /** The OTP input's `onChange`. */
    method SetOtp(value: string)
      modifies this`otp
      ensures otp == value
    {
      otp := value;
    }

    /** `requestOtp`. `requested` tells whether the request was sent; a
        mobile number that is empty or not ten characters long is refused
        before any request. */
    method RequestOtp(outcome: OtpFetch) returns (requested: bool)
      modifies this`error, this`isLoading, this`otpSent, this`generatedOtp
      ensures requested <==> formData.mobile != "" && |formData.mobile| == 10
      ensures !requested ==>
        && error == InvalidMobile && isLoading == old(isLoading)
        && otpSent == old(otpSent) && generatedOtp == old(generatedOtp)
      ensures requested ==> !isLoading
      ensures requested && outcome.OtpIssued? ==> generatedOtp == outcome.otp && otpSent && error == ""
      ensures requested && !outcome.OtpIssued? ==>
        error == OtpErrorMessage(outcome) && otpSent == old(otpSent) && generatedOtp == old(generatedOtp)
    {
      if formData.mobile == "" || |formData.mobile| != 10 {
        error := InvalidMobile;
        return false;
      }
      requested := true;
      isLoading := true;
      error := "";
      match outcome {
        case OtpIssued(code) =>
          generatedOtp := code;
          otpSent := true;
        case _ =>
          error := OtpErrorMessage(outcome);
      }
      isLoading := false;
    }

    /** `handleSubmit`. `sent` is what `register` received, if it was
        called; `outcome` is how that call turned out. */
    method HandleSubmit(outcome: RegisterCall) returns (sent: Option<RegisterPayload>)
      modifies this`error, this`isLoading
      ensures var rejection := SubmitRejection(formData, otpSent, otp, generatedOtp);
        && (rejection.Some? ==> sent.None? && error == rejection.value && isLoading == old(isLoading))
        && (rejection.None? ==> sent == Some(PayloadOf(formData)) && !isLoading)
        && (rejection.None? && outcome.Registered? ==> error == "")
        && (rejection.None? && outcome.RegisterThrew? ==> error == RegisterErrorMessage(outcome.message))
    {
      error := "";
      if formData.password != formData.confirmPassword {
        error := PasswordMismatch;
        return None;
      }
      if !otpSent {
        error := VerifyMobileFirst;
        return None;
      }
      if otp != generatedOtp && |otp| != 6 {
        error := WrongOtp;
        return None;
      }
      isLoading := true;
      sent := Some(PayloadOf(formData));
      if outcome.RegisterThrew? {
        error := RegisterErrorMessage(outcome.message);
      }
      isLoading := false;
    }
  }
}
