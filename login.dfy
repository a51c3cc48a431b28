/**
  The login page of `login.jsx`: an ordered validator over the two fields, a submit handler
  that only shows popups (the page calls no server) and a forgot-password link that shows an
  informational popup.
 */
module Login {
  import opened Text
  import opened ClientEmail
  import opened Popups

  datatype LoginForm = LoginForm(email: string, password: string)

  const PasswordRequired := "La contraseña es obligatoria"

  // Popup texts.
  const SuccessTitle := "¡Inicio de sesión exitoso!"
  const SuccessMessage := "Bienvenido de nuevo. Serás redirigido a la aplicación principal."
  const DemoTitle := "Demo"
  const DemoMessage := "En una aplicación real, serías redirigido a la página principal de Ánima."
  const ForgotTitle := "Recuperar contraseña"
  const ForgotMessage := "Esta funcionalidad estará disponible próximamente. Por ahora, contacta al administrador del sistema."

  /** `validateLoginForm`: a blank address, an empty password, then a malformed address. */
  function ValidateLoginForm(f: LoginForm): Validation {
    if Strip(JavaScript, f.email) == [] then Invalid(EmailRequired)
    else if f.password == "" then Invalid(PasswordRequired)
    else if !ValidateEmail(f.email) then Invalid(EmailMalformed)
    else Valid
  }

  /** The checks in order; the form passes exactly when the address has the a@b.c shape and
      a password was typed. */
  lemma LoginOutcomes(f: LoginForm)
    ensures AllSpace(JavaScript, f.email) ==> ValidateLoginForm(f) == Invalid(EmailRequired)
    ensures !AllSpace(JavaScript, f.email) && f.password == "" ==> ValidateLoginForm(f) == Invalid(PasswordRequired)
    ensures !AllSpace(JavaScript, f.email) && f.password != "" && !ValidateEmail(f.email) ==>
      ValidateLoginForm(f) == Invalid(EmailMalformed)
    ensures ValidateLoginForm(f).Valid? <==> ValidateEmail(f.email) && f.password != ""
  {
    StripBlank(JavaScript, f.email);
    if ValidateEmail(f.email) {
      AcceptedHasNoSpace(f.email);
    }
  }

  class LoginPage {
    var popup: Popup
    var form: LoginForm
    /** Demonstration notices armed by successful submissions and not yet shown. All of
        them show the same popup, so only their number matters. */
    var pendingNotices: nat

    constructor ()
      ensures popup == Initial && form == LoginForm("", "") && pendingNotices == 0
    {
      popup := Initial;
      form := LoginForm("", "");
      pendingNotices := 0;
    }

    method EditEmail(value: string)
      modifies this`form
      ensures form == old(form).(email := value)
    {
      form := form.(email := value);
    }

    method EditPassword(value: string)
      modifies this`form
      ensures form == old(form).(password := value)
    {
      form := form.(password := value);
    }

    /** `handleSubmit`: an error popup carrying the validator's message, or a success popup
        and a notice armed for 2000 ms later. Nothing else changes: no request is made. */
    method HandleSubmit()
      modifies this`popup, this`pendingNotices
      ensures ValidateLoginForm(form).Invalid? ==>
        popup == Shown("error", ValidationTitle, ValidateLoginForm(form).error)
        && pendingNotices == old(pendingNotices)
      ensures ValidateLoginForm(form).Valid? ==>
        popup == Shown("success", SuccessTitle, SuccessMessage)
        && pendingNotices == old(pendingNotices) + 1
    {
      var validation := ValidateLoginForm(form);
      if validation.Invalid? {
        popup := Shown("error", ValidationTitle, validation.error);
        return;
      }
      popup := Shown("success", SuccessTitle, SuccessMessage);
      pendingNotices := pendingNotices + 1;
    }

    /** One armed notice fires and replaces the popup, whatever it shows by then. */
    method FireNotice()
      requires pendingNotices > 0
      modifies this`popup, this`pendingNotices
      ensures popup == Shown("info", DemoTitle, DemoMessage)
      ensures pendingNotices == old(pendingNotices) - 1
    {
      popup := Shown("info", DemoTitle, DemoMessage);
      pendingNotices := pendingNotices - 1;
    }

    /** The forgot-password link: an informational popup and nothing else. */
    method ForgotPassword()
      modifies this`popup
      ensures popup == Shown("info", ForgotTitle, ForgotMessage)
    {
      popup := Shown("info", ForgotTitle, ForgotMessage);
    }

    /** `closePopup`. */
    method ClosePopup()
      modifies this`popup
      ensures popup == Closed(old(popup))
    {
      popup := Closed(popup);
    }
  }

  /** Signing in with an accepted address and any password shows the success popup with
      its check mark, and the notice that follows shows the information sign. */
  method SignInScenario(email: string, password: string) returns (first: Popup, later: Popup)
    requires ValidateEmail(email) && password != ""
    ensures first.show && first.title == SuccessTitle && Icon(first.kind) == "✅"
    ensures later.show && later.title == DemoTitle && Icon(later.kind) == "ℹ️"
  {
    var page := new LoginPage();
    page.EditEmail(email);
    page.EditPassword(password);
    LoginOutcomes(page.form);
    page.HandleSubmit();
    first := page.popup;
    page.FireNotice();
    later := page.popup;
  }
}
