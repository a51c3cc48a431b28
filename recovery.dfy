/**
  The password-recovery wizard of `RecuperacionContrasena.jsx`: three steps (e-mail,
  code, new password), an ordered validator per step, a back action, a resend action and
  transitions that happen later, when a `setTimeout` fires. The page talks to no server:
  step 2 accepts only the fixed demonstration code and step 3 only shows popups.
 */
module Recovery {
  import opened Text
  import opened ClientEmail
  import opened Popups

  datatype FormData = FormData(email: string, verificationCode: string, newPassword: string, confirmPassword: string)

  const CodeRequired := "El código de verificación es obligatorio"
  const CodeLength := "El código debe tener 6 dígitos"
  const PasswordRequired := "La nueva contraseña es obligatoria"
  const ConfirmationRequired := "La confirmación de contraseña es obligatoria"

  // Popup texts.
  const CodeSentTitle := "¡Código enviado!"
  const CodeSentMessage := "Se ha enviado un código de verificación a "
  const WrongCodeTitle := "Código incorrecto"
  const WrongCodeMessage := "El código ingresado no es válido. Intenta nuevamente."
  const CodeVerifiedTitle := "¡Código verificado!"
  const CodeVerifiedMessage := "Ahora puedes establecer tu nueva contraseña."
  const PasswordChangedTitle := "¡Contraseña actualizada!"
  const PasswordChangedMessage := "Tu contraseña ha sido cambiada exitosamente. Serás redirigido al login."
  const CodeResentTitle := "Código reenviado"
  const CodeResentMessage := "Se ha enviado un nuevo código de verificación a "

  /** The only code the page accepts. */
  const DemoCode := "123456"

  /** The comparison `verificationCode !== "123456"`. */
  predicate IsDemoCode(code: string) {
    code == DemoCode
  }

  /** `validateStep1`: a blank address, then a malformed one. */
  function ValidateStep1(f: FormData): Validation {
    if Strip(JavaScript, f.email) == [] then Invalid(EmailRequired)
    else if !ValidateEmail(f.email) then Invalid(EmailMalformed)
    else Valid
  }

  /** The checks of step 1 in order; it passes exactly for the addresses the shared e-mail
      check accepts. */
  lemma Step1Outcomes(f: FormData)
    ensures AllSpace(JavaScript, f.email) ==> ValidateStep1(f) == Invalid(EmailRequired)
    ensures !AllSpace(JavaScript, f.email) && !ValidateEmail(f.email) ==> ValidateStep1(f) == Invalid(EmailMalformed)
    ensures ValidateStep1(f).Valid? <==> ValidateEmail(f.email)
  {
    StripBlank(JavaScript, f.email);
    if ValidateEmail(f.email) {
      AcceptedHasNoSpace(f.email);
    }
  }

  /** `validateStep2`: a blank code, then a code whose `length` is not 6. */
  function ValidateStep2(f: FormData): Validation {
    if Strip(JavaScript, f.verificationCode) == [] then Invalid(CodeRequired)
    else if JsLength(f.verificationCode) != 6 then Invalid(CodeLength)
    else Valid
  }

  /** The checks of step 2 in order; on the digit-only codes the input field can hold, step 2
      passes exactly for six digits. */
  lemma Step2Outcomes(f: FormData)
    ensures AllSpace(JavaScript, f.verificationCode) ==> ValidateStep2(f) == Invalid(CodeRequired)
    ensures !AllSpace(JavaScript, f.verificationCode) && JsLength(f.verificationCode) != 6 ==>
      ValidateStep2(f) == Invalid(CodeLength)
    ensures ValidateStep2(f).Valid? ==> JsLength(f.verificationCode) == 6
    ensures AllDigits(f.verificationCode) ==> (ValidateStep2(f).Valid? <==> |f.verificationCode| == 6)
  {
    var c := f.verificationCode;
    StripBlank(JavaScript, c);
    if AllDigits(c) {
      DigitsJsLength(c);
      if |c| == 6 {
        assert !IsSpace(JavaScript, c[0]);
      }
    }
  }

  /** `validateStep3`: the new password missing, shorter than 6 UTF-16 code units, the
      confirmation missing, and the two differing, in that order. */
  function ValidateStep3(f: FormData): (v: Validation)
    ensures v.Valid? <==> JsLength(f.newPassword) >= 6 && f.newPassword == f.confirmPassword
    ensures f.newPassword == "" ==> v == Invalid(PasswordRequired)
    ensures f.newPassword != "" && JsLength(f.newPassword) < 6 ==> v == Invalid(PasswordTooShort)
    ensures JsLength(f.newPassword) >= 6 && f.confirmPassword == "" ==> v == Invalid(ConfirmationRequired)
    ensures JsLength(f.newPassword) >= 6 && f.confirmPassword != "" && f.newPassword != f.confirmPassword ==>
      v == Invalid(PasswordsDiffer)
  {
    if f.newPassword == "" then Invalid(PasswordRequired)
    else if JsLength(f.newPassword) < 6 then Invalid(PasswordTooShort)
    else if f.confirmPassword == "" then Invalid(ConfirmationRequired)
    else if f.newPassword != f.confirmPassword then Invalid(PasswordsDiffer)
    else Valid
  }

  /** A callback armed with `setTimeout`. The two step transitions call a `closePopup` that
      was created in the render before the handler ran, so they restore that render's popup
      (hidden), not the success popup shown since. */
  datatype Timer =
    | AdvanceToCode(captured: Popup)         // step 1, 2000 ms
    | AdvanceToNewPassword(captured: Popup)  // step 2, 1500 ms
    | RedirectNotice                         // step 3, 2500 ms

  const RedirectTitle := "Redirigiendo..."
  const RedirectMessage := "En una aplicación real, serías redirigido al login para usar tu nueva contraseña."

  class RecoveryWizard {
    var currentStep: int
    var popup: Popup
    var form: FormData
    /** Callbacks armed and not yet fired. */
    var pending: seq<Timer>

    ghost predicate Valid()
      reads this
    {
      && 1 <= currentStep <= 3
      && AllDigits(form.verificationCode)
      && |form.verificationCode| <= 6
    }

    constructor ()
      ensures Valid()
      ensures currentStep == 1 && popup == Initial && form == FormData("", "", "", "") && pending == []
    {
      currentStep := 1;
      popup := Initial;
      form := FormData("", "", "", "");
      pending := [];
    }

    /** The e-mail field's `onChange`. */
    method EditEmail(value: string)
      requires Valid()
      modifies this`form
      ensures Valid() && form == old(form).(email := value)
    {
      form := form.(email := value);
    }

    /** The code field's `onChange`. The field's `maxLength` of 6 means the browser hands
        over at most six characters; the handler keeps only the digits. */
    method EditCode(value: string)
      requires Valid() && |value| <= 6
      modifies this`form
      ensures Valid() && form == old(form).(verificationCode := StripNonDigits(value))
      ensures AllDigits(form.verificationCode) && |form.verificationCode| <= 6
    {
      form := form.(verificationCode := StripNonDigits(value));
    }

    method EditNewPassword(value: string)
      requires Valid()
      modifies this`form
      ensures Valid() && form == old(form).(newPassword := value)
    {
      form := form.(newPassword := value);
    }

    method EditConfirmPassword(value: string)
      requires Valid()
      modifies this`form
      ensures Valid() && form == old(form).(confirmPassword := value)
    {
      form := form.(confirmPassword := value);
    }

    /** `handleStep1Submit`; the step-1 form is only rendered at step 1. */
    method SubmitStep1()
      requires Valid() && currentStep == 1
      modifies this`popup, this`pending
      ensures Valid()
      ensures ValidateStep1(form).Invalid? ==>
        popup == Shown("error", ValidationTitle, ValidateStep1(form).error) && pending == old(pending)
      ensures ValidateStep1(form).Valid? ==>
        && popup == Shown("success", CodeSentTitle, CodeSentMessage + form.email)
        && pending == old(pending) + [AdvanceToCode(old(popup))]
    {
      var validation := ValidateStep1(form);
      if validation.Invalid? {
        popup := Shown("error", ValidationTitle, validation.error);
        return;
      }
      var before := popup;
      popup := Shown("success", CodeSentTitle, CodeSentMessage + form.email);
      pending := pending + [AdvanceToCode(before)];
    }

    /** `handleStep2Submit`: the move to step 3 is armed only for a valid code equal to the
        demonstration code. */
    method SubmitStep2()
      requires Valid() && currentStep == 2
      modifies this`popup, this`pending
      ensures Valid()
      ensures ValidateStep2(form).Invalid? ==>
        popup == Shown("error", ValidationTitle, ValidateStep2(form).error) && pending == old(pending)
      ensures ValidateStep2(form).Valid? && !IsDemoCode(form.verificationCode) ==>
        popup == Shown("error", WrongCodeTitle, WrongCodeMessage)
        && pending == old(pending)
      ensures ValidateStep2(form).Valid? && IsDemoCode(form.verificationCode) ==>
        popup == Shown("success", CodeVerifiedTitle, CodeVerifiedMessage)
        && pending == old(pending) + [AdvanceToNewPassword(old(popup))]
    {
      var validation := ValidateStep2(form);
      if validation.Invalid? {
        popup := Shown("error", ValidationTitle, validation.error);
        return;
      }
      if !IsDemoCode(form.verificationCode) {
        popup := Shown("error", WrongCodeTitle, WrongCodeMessage);
        return;
      }
      var before := popup;
      popup := Shown("success", CodeVerifiedTitle, CodeVerifiedMessage);
      pending := pending + [AdvanceToNewPassword(before)];
    }

    /** `handleStep3Submit`: success never changes the step; it shows a popup and arms a
        second, informational one. */
    method SubmitStep3()
      requires Valid() && currentStep == 3
      modifies this`popup, this`pending
      ensures Valid()
      ensures ValidateStep3(form).Invalid? ==>
        popup == Shown("error", ValidationTitle, ValidateStep3(form).error) && pending == old(pending)
      ensures ValidateStep3(form).Valid? ==>
        && popup == Shown("success", PasswordChangedTitle, PasswordChangedMessage)
        && pending == old(pending) + [RedirectNotice]
    {
      var validation := ValidateStep3(form);
      if validation.Invalid? {
        popup := Shown("error", ValidationTitle, validation.error);
        return;
      }
      popup := Shown("success", PasswordChangedTitle, PasswordChangedMessage);
      pending := pending + [RedirectNotice];
    }

    /** `handleResendCode`; the resend button is part of the step-2 form. It changes only
        the popup. */
    method ResendCode()
      requires Valid() && currentStep == 2
      modifies this`popup
      ensures Valid()
      ensures popup == Shown("info", CodeResentTitle, CodeResentMessage + form.email)
    {
      popup := Shown("info", CodeResentTitle, CodeResentMessage + form.email);
    }

    /** `handleBack`: one step back, never before step 1. */
    method Back()
      requires Valid()
      modifies this`currentStep
      ensures Valid()
      ensures currentStep == if old(currentStep) > 1 then old(currentStep) - 1 else old(currentStep)
    {
      if currentStep > 1 {
        currentStep := currentStep - 1;
      }
    }

    /** `closePopup`. */
    method ClosePopup()
      requires Valid()
      modifies this`popup
      ensures Valid() && popup == Closed(old(popup))
    {
      popup := Closed(popup);
    }

    /** One armed callback runs. Timers with different delays may be armed at once, so the
        model lets any of them fire next. */
    method Fire(i: nat)
      requires Valid() && i < |pending|
      modifies this`currentStep, this`popup, this`pending
      ensures Valid()
      ensures pending == old(pending[..i] + pending[i + 1..])
      ensures old(pending[i]).AdvanceToCode? ==>
        currentStep == 2 && popup == Closed(old(pending[i]).captured)
      ensures old(pending[i]).AdvanceToNewPassword? ==>
        currentStep == 3 && popup == Closed(old(pending[i]).captured)
      ensures old(pending[i]).RedirectNotice? ==>
        currentStep == old(currentStep) && popup == Shown("info", RedirectTitle, RedirectMessage)
    {
      var t := pending[i];
      pending := pending[..i] + pending[i + 1..];
      match t
      case AdvanceToCode(captured) =>
        currentStep := 2;
        popup := Closed(captured);
      case AdvanceToNewPassword(captured) =>
        currentStep := 3;
        popup := Closed(captured);
      case RedirectNotice =>
        popup := Shown("info", RedirectTitle, RedirectMessage);
    }
  }

  /** Submitting an accepted address and letting the timer fire reaches step 2 with the
      address kept. */
  method EmailThenCodeScenario(email: string) returns (step: int, kept: string)
    requires ValidateEmail(email)
    ensures step == 2 && kept == email
  {
    var w := new RecoveryWizard();
    w.EditEmail(email);
    Step1Outcomes(w.form);
    w.SubmitStep1();
    w.Fire(0);
    step, kept := w.currentStep, w.form.email;
  }
}
