/**
  The registration page of `register.jsx`: an ordered validator over the four fields and a
  submit handler that posts the account to the server and reports the reply in a popup. The
  request and its reply are two events, because the handler awaits `fetch`; the reply is an
  input of the model.
 */
module Register {
  import opened Wrappers
  import opened Text
  import opened ClientEmail
  import opened Popups

  datatype RegisterForm = RegisterForm(name: string, email: string, password: string, confirmPassword: string)

  const NameRequired := "El nombre completo es obligatorio"
  const PasswordRequired := "La contraseña es obligatoria"
  const ConfirmationRequired := "Debes confirmar tu contraseña"

  // Popup texts.
  const RejectedTitle := "Error al registrarse"
  const RejectedFallback := "No se pudo crear la cuenta"
  const RegisteredTitle := "¡Registro exitoso!"
  const RegisteredMessage := "Tu cuenta ha sido creada correctamente. Serás redirigido al inicio de sesión."
  const ConnectionTitle := "Error de conexión"
  const ConnectionMessage := "No se pudo conectar con el servidor. Intenta nuevamente."

  /** `validateForm`: name blank, address blank, password empty, confirmation empty,
      malformed address, password shorter than 6 UTF-16 code units, and the two passwords differing. */
  function ValidateForm(f: RegisterForm): Validation {
    if Strip(JavaScript, f.name) == [] then Invalid(NameRequired)
    else if Strip(JavaScript, f.email) == [] then Invalid(EmailRequired)
    else if f.password == "" then Invalid(PasswordRequired)
    else if f.confirmPassword == "" then Invalid(ConfirmationRequired)
    else if !ValidateEmail(f.email) then Invalid(EmailMalformed)
    else if JsLength(f.password) < 6 then Invalid(PasswordTooShort)
    else if f.password != f.confirmPassword then Invalid(PasswordsDiffer)
    else Valid
  }

  /** The form passes exactly when the name is not blank, the address has the a@b.c shape,
      the password has at least six UTF-16 code units and the confirmation repeats it. */
  lemma RegisterAccepts(f: RegisterForm)
    ensures ValidateForm(f).Valid? <==>
      && !AllSpace(JavaScript, f.name)
      && ValidateEmail(f.email)
      && JsLength(f.password) >= 6
      && f.password == f.confirmPassword
  {
    StripBlank(JavaScript, f.name);
    StripBlank(JavaScript, f.email);
    if ValidateEmail(f.email) {
      AcceptedHasNoSpace(f.email);
    }
  }

  /** The first failing check decides the message. */
  lemma RegisterFirstFailure(f: RegisterForm)
    ensures AllSpace(JavaScript, f.name) ==> ValidateForm(f) == Invalid(NameRequired)
    ensures !AllSpace(JavaScript, f.name) && AllSpace(JavaScript, f.email) ==>
      ValidateForm(f) == Invalid(EmailRequired)
    ensures !AllSpace(JavaScript, f.name) && !AllSpace(JavaScript, f.email) ==>
      && (f.password == "" ==> ValidateForm(f) == Invalid(PasswordRequired))
      && (f.password != "" && f.confirmPassword == "" ==> ValidateForm(f) == Invalid(ConfirmationRequired))
      && (f.password != "" && f.confirmPassword != "" && !ValidateEmail(f.email) ==>
            ValidateForm(f) == Invalid(EmailMalformed))
      && (f.password != "" && f.confirmPassword != "" && ValidateEmail(f.email) && JsLength(f.password) < 6 ==>
            ValidateForm(f) == Invalid(PasswordTooShort))
      && (f.confirmPassword != "" && ValidateEmail(f.email) && JsLength(f.password) >= 6 && f.password != f.confirmPassword ==>
            ValidateForm(f) == Invalid(PasswordsDiffer))
  {
    StripBlank(JavaScript, f.name);
    StripBlank(JavaScript, f.email);
  }

  /** The JSON body posted to `/auth/register`: the confirmation is not sent. */
  datatype SignUp = SignUp(name: string, email: string, password: string)

  /** How the awaited request ends: `fetch` or `res.json()` throws, or the server answers
      with its status flag and the `message` member of its body, if that is a string. */
  datatype Reply = Unreachable | Answered(ok: bool, message: Option<string>)

  /** `data.message || "No se pudo crear la cuenta"`: an absent or empty message falls back
      to the fixed text. */
  function RejectionMessage(message: Option<string>): (text: string)
    ensures message.Some? && message.value != "" ==> text == message.value
    ensures message.None? || message.value == "" ==> text == RejectedFallback
    ensures text != ""
  {
    if message.Some? && message.value != "" then message.value else RejectedFallback
  }

  /** The popup the handler shows once the request has ended. */
  function ReplyPopup(reply: Reply): (p: Popup)
    ensures p.show
    ensures p.kind == "success" <==> reply.Answered? && reply.ok
    ensures reply.Unreachable? ==> p == Shown("error", ConnectionTitle, ConnectionMessage)
    ensures reply.Answered? && !reply.ok ==> p == Shown("error", RejectedTitle, RejectionMessage(reply.message))
    ensures reply.Answered? && reply.ok ==> p == Shown("success", RegisteredTitle, RegisteredMessage)
  {
    match reply
    case Unreachable => Shown("error", ConnectionTitle, ConnectionMessage)
    case Answered(ok, message) =>
      if ok then Shown("success", RegisteredTitle, RegisteredMessage)
      else Shown("error", RejectedTitle, RejectionMessage(message))
  }

  class RegisterPage {
    var popup: Popup
    var form: RegisterForm
    /** Requests sent and not yet ended. */
    var awaiting: nat
    /** Redirections to the login page armed and not yet fired. */
    var pendingRedirects: nat
    /** The route the router has been sent to, if any. */
    var navigatedTo: Option<string>

    constructor ()
      ensures popup == Initial && form == RegisterForm("", "", "", "")
      ensures awaiting == 0 && pendingRedirects == 0 && navigatedTo == None
    {
      popup := Initial;
      form := RegisterForm("", "", "", "");
      awaiting := 0;
      pendingRedirects := 0;
      navigatedTo := None;
    }

    method EditName(value: string)
      modifies this`form
      ensures form == old(form).(name := value)
    {
      form := form.(name := value);
    }

    method EditEmail(value: string)
      modifies this`form
      ensures form == old(form).(email := value)
    {
      form := form.(email := value);
    }

    method EditPassword(value: string)
      modifies this`form
      ensures form == old(form).(password := value)
    {
      form := form.(password := value);
    }

    method EditConfirmPassword(value: string)
      modifies this`form
      ensures form == old(form).(confirmPassword := value)
    {
      form := form.(confirmPassword := value);
    }

    /** `handleSubmit` up to the `await`: an invalid form shows the validation popup and
        sends nothing; a valid one sends name, address and password and leaves the popup as
        it was. */
    method HandleSubmit() returns (request: Option<SignUp>)
      modifies this`popup, this`awaiting
      ensures request.None? <==> ValidateForm(form).Invalid?
      ensures ValidateForm(form).Invalid? ==>
        popup == Shown("error", ValidationTitle, ValidateForm(form).error)
        && awaiting == old(awaiting)
      ensures ValidateForm(form).Valid? ==>
        && request == Some(SignUp(form.name, form.email, form.password))
        && popup == old(popup)
        && awaiting == old(awaiting) + 1
    {
      var validation := ValidateForm(form);
      if validation.Invalid? {
        popup := Shown("error", ValidationTitle, validation.error);
        return None;
      }
      request := Some(SignUp(form.name, form.email, form.password));
      awaiting := awaiting + 1;
    }

    /** The rest of `handleSubmit` once one request has ended: the reply's popup, and for an
        accepted account a redirection armed for 2000 ms later. */
    method RequestEnded(reply: Reply)
      requires awaiting > 0
      modifies this`popup, this`awaiting, this`pendingRedirects
      ensures popup == ReplyPopup(reply)
      ensures awaiting == old(awaiting) - 1
      ensures pendingRedirects == old(pendingRedirects) + (if reply.Answered? && reply.ok then 1 else 0)
    {
      awaiting := awaiting - 1;
      match reply
      case Unreachable =>
        popup := Shown("error", ConnectionTitle, ConnectionMessage);
      case Answered(ok, message) =>
        if !ok {
          popup := Shown("error", RejectedTitle, RejectionMessage(message));
          return;
        }
        popup := Shown("success", RegisteredTitle, RegisteredMessage);
        pendingRedirects := pendingRedirects + 1;
    }

    /** One armed redirection fires: `navigate("/login")`. */
    method FireRedirect()
      requires pendingRedirects > 0
      modifies this`pendingRedirects, this`navigatedTo
      ensures pendingRedirects == old(pendingRedirects) - 1
      ensures navigatedTo == Some("/login")
    {
      pendingRedirects := pendingRedirects - 1;
      navigatedTo := Some("/login");
    }

    /** `closePopup`. */
    method ClosePopup()
      modifies this`popup
      ensures popup == Closed(old(popup))
    {
      popup := Closed(popup);
    }
  }

  /** A submission whose confirmation differs sends nothing and names the mismatch; once it
      repeats the password, the request goes out, and an accepting server leads to the login
      page. */
  method MismatchThenRegisterScenario(name: string, email: string, password: string, typo: string)
    returns (first: Option<SignUp>, message: string, second: Option<SignUp>, route: Option<string>)
    requires !AllSpace(JavaScript, name) && ValidateEmail(email) && JsLength(password) >= 6
    requires typo != "" && typo != password
    ensures first == None && message == PasswordsDiffer
    ensures second == Some(SignUp(name, email, password))
    ensures route == Some("/login")
  {
    var page := new RegisterPage();
    page.EditName(name);
    page.EditEmail(email);
    page.EditPassword(password);
    page.EditConfirmPassword(typo);
    AcceptedHasNoSpace(email);
    StripBlank(JavaScript, email);
    RegisterFirstFailure(page.form);
    first := page.HandleSubmit();
    message := page.popup.message;
    page.EditConfirmPassword(password);
    RegisterAccepts(page.form);
    second := page.HandleSubmit();
    page.RequestEnded(Answered(true, None));
    page.FireRedirect();
    route := page.navigatedTo;
  }
}
