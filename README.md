# Ánima password recovery, sign-in and emotion capture: a Dafny model

This project models the core of the Ánima web application. On the React client it covers:

- the login, registration and password-recovery pages (their ordered form validators, the shared e-mail regex, and the popup state);
- the emotion-capture modal of the main page (ownership of the camera stream, the flags `cameraActive` and `analysisVisible`, the simulated analysis and the playlist table);
- the helpers of `api.js`.

On the Flask server it covers:

- `PasswordResetRepository` over a `password_reset_tokens` table;
- `PasswordResetService` (request, verify, reset, resend);
- the `Validators` string checks;
- the `APIResponse` dictionaries;
- the `User` model.

Here is how the code's forms map onto Dafny:

- Pure code is written as functions with contracts.
- State that the code changes becomes a class whose methods say exactly what they change. These classes are the page popups, the recovery wizard, the modal, the database, `localStorage` and `User`.
- Timers and awaited promises are separate events: a `Fire`/`RequestEnded`/`CameraAnswered` method runs when the callback would.
- Each service operation is a specification function over the tables. A method on the `Database` performs the same steps, and its `ensures` says its effect equals that function on the old state.

Modules, by file:

| file | module | models |
|---|---|---|
| `wrappers.dfy` | `Wrappers` | `Option` |
| `text.dfy` | `Text` | `trim`/`strip` (JavaScript and Python whitespace), digits, `lower()` on ASCII, `split()`/`" ".join` |
| `client_email.dfy` | `ClientEmail` | the client regex `^[^\s@]+@[^\s@]+\.[^\s@]+$` and the shared validation result |
| `popups.dfy` | `Popups` | `showPopup`, `closePopup`, the popup icons |
| `recovery.dfy` | `Recovery` | `RecuperacionContrasena.jsx` |
| `login.dfy` | `Login` | `login.jsx` |
| `register.dfy` | `Register` | `register.jsx` |
| `emotion_capture.dfy` | `EmotionCapture` | the emotion modal of `principal.jsx` |
| `api.dfy` | `Api` | `api.js` |
| `reset_tokens.dfy` | `ResetTokens` | `PasswordResetRepository` and the two user lookups it relies on |
| `reset_service.dfy` | `ResetService` | `PasswordResetService` |
| `validators.dfy` | `Validators` | `Validators` |
| `py_values.dfy` | `PyValues` | Python values, truthiness, `datetime.isoformat()` |
| `responses.dfy` | `Responses` | `APIResponse` |
| `user_model.dfy` | `UserModel` | `User` |

The model keeps three behaviours exactly as the client code has them:

- **Recovery timers.** Each step transition calls a `closePopup` taken from the render before the handler ran. So it restores that older popup, hidden, not the success popup shown since.
- **Late camera grant.** If the camera permission is granted after the modal was closed, the stream is still stored in the ref.
- **Analysis timer.** The analysis timer is not cancelled on close, so it writes a result into a closed modal.

JavaScript's `.length` counts UTF-16 code units, so a character outside the Basic Multilingual Plane counts twice (`Text.JsLength`); Python's `len` counts code points, which is the size of a Dafny string.

Because `reset_password` does not check the code's length (`verify_reset_code` does), a success is tied to `verify_token` accepting the stripped code, not to `verify_reset_code`.

## Model

| member | source | states |
|---|---|---|
| Text.StripShape | src/pages/Login/login.jsx:21 | `trim()` returns a slice of the input with only whitespace around it, and the slice neither starts nor ends with whitespace |
| Text.StripBlank | src/pages/Register/register.jsx:28-33 | `!s.trim()` holds exactly when every character is whitespace |
| Text.ParseNatToString | src/pages/Principal/principal.jsx:201 | the decimal rendering of a number reads back as that number |
| Text.NatToString | src/pages/Principal/principal.jsx:201 | the decimal rendering is non-empty, all digits, and has no leading zero |
| Text.StripNonDigits | src/pages/RecuperacionContrasena/RecuperacionContrasena.jsx:191 | `replace(/\D/g, "")` keeps only digits, never lengthens the input, and leaves an all-digit input unchanged |
| Text.JsLength | src/pages/RecuperacionContrasena/RecuperacionContrasena.jsx:51 | `s.length` counts UTF-16 code units: between the number of characters and twice that, and equal to it exactly when no character lies outside the Basic Multilingual Plane |
| Text.DigitsJsLength | src/pages/RecuperacionContrasena/RecuperacionContrasena.jsx:41 | a digit string's `length` is its number of characters |
| Text.AstralCountsTwice | src/pages/Register/register.jsx:43 | three emoji have `length` 6 |
| Text.IntToString | backend/models/user.py:31 | `str()` of an integer is non-empty and all digits, after a '-' for a negative value |
| Text.AsciiLowerFacts | backend/services/password_reset_service.py:20 | `lower()` keeps the length and the whitespace positions, leaves no capital letter, and is idempotent |
| Text.IndexOf | src/pages/Login/login.jsx:16 | the first position of the character, or the length when it does not occur |
| Text.WordsOfJoin | backend/utils/validators.py:89 | splitting a single-space join of words gives back the same words |
| Text.WordsOfStrip | backend/utils/validators.py:86-89 | `s.strip().split()` equals `s.split()` |
| Text.JoinShape | backend/utils/validators.py:89 | a join of words has no outer whitespace, no whitespace except single blanks, and never two blanks in a row |
| ClientEmail.AcceptsComposed | src/pages/Login/login.jsx:15-18 | every a@b.c with non-empty a, b, c free of whitespace and '@' is accepted |
| ClientEmail.HostComposed | src/pages/Login/login.jsx:16 | every b.c with non-empty b and c free of whitespace and '@' matches the host part |
| ClientEmail.DecomposeAccepted | src/pages/Register/register.jsx:22-25 | every accepted string splits as a@b.c of that form |
| ClientEmail.AcceptedHasNoSpace | src/pages/RecuperacionContrasena/RecuperacionContrasena.jsx:22-25 | an accepted address has no whitespace, so it is never blank |
| Popups.Shown | src/pages/Login/login.jsx:33-35 | `showPopup` makes the popup visible with the given type, title and message |
| Popups.Closed | src/pages/Register/register.jsx:56-58 | `closePopup` hides the popup and keeps type, title and message |
| Popups.Icon | src/pages/Login/login.jsx:65 | ⚠️ exactly for "error", ✅ exactly for "success", ℹ️ for every other type |
| Popups.TwoWayIcon | src/pages/Register/register.jsx:108 | ⚠️ exactly for "error", ✅ for every other type |
| Recovery.Step1Outcomes | src/pages/RecuperacionContrasena/RecuperacionContrasena.jsx:27-35 | a blank address, then a malformed one, is reported; step 1 passes exactly for the addresses the regex accepts |
| Recovery.Step2Outcomes | src/pages/RecuperacionContrasena/RecuperacionContrasena.jsx:37-45 | a blank code, then a `length` other than 6, is reported; on digit-only codes step 2 passes exactly for six digits |
| Recovery.ValidateStep3 | src/pages/RecuperacionContrasena/RecuperacionContrasena.jsx:47-61 | passes exactly when the new password has a `length` of at least 6 UTF-16 code units and the confirmation equals it; otherwise the first failing check's message |
| Recovery.RecoveryWizard.constructor | src/pages/RecuperacionContrasena/RecuperacionContrasena.jsx:6-20 | step 1, hidden empty popup, empty form, no timers |
| Recovery.RecoveryWizard.EditEmail | src/pages/RecuperacionContrasena/RecuperacionContrasena.jsx:165 | only the e-mail field changes |
| Recovery.RecoveryWizard.EditCode | src/pages/RecuperacionContrasena/RecuperacionContrasena.jsx:189-191 | the code field keeps only the digits of at most six typed characters |
| Recovery.RecoveryWizard.EditNewPassword | src/pages/RecuperacionContrasena/RecuperacionContrasena.jsx:224 | only the new-password field changes |
| Recovery.RecoveryWizard.EditConfirmPassword | src/pages/RecuperacionContrasena/RecuperacionContrasena.jsx:236 | only the confirmation field changes |
| Recovery.RecoveryWizard.SubmitStep1 | src/pages/RecuperacionContrasena/RecuperacionContrasena.jsx:71-85 | an error popup with the validator's message and no timer, or the "code sent" popup naming the address and a timer that will move to step 2 |
| Recovery.RecoveryWizard.SubmitStep2 | src/pages/RecuperacionContrasena/RecuperacionContrasena.jsx:87-106 | a validation error, a wrong-code error for any code other than 123456, or the "verified" popup and a timer that will move to step 3 |
| Recovery.RecoveryWizard.SubmitStep3 | src/pages/RecuperacionContrasena/RecuperacionContrasena.jsx:108-121 | a validation error, or the success popup and a redirect-notice timer; the step never changes |
| Recovery.RecoveryWizard.ResendCode | src/pages/RecuperacionContrasena/RecuperacionContrasena.jsx:123-125 | only the popup changes, to the "code resent" notice naming the address |
| Recovery.RecoveryWizard.Back | src/pages/RecuperacionContrasena/RecuperacionContrasena.jsx:127-131 | one step back, never below step 1 |
| Recovery.RecoveryWizard.ClosePopup | src/pages/RecuperacionContrasena/RecuperacionContrasena.jsx:67-69 | the popup is hidden, its contents kept |
| Recovery.RecoveryWizard.Fire | src/pages/RecuperacionContrasena/RecuperacionContrasena.jsx:81-84 | a step timer sets its step and restores the popup captured when it was armed, hidden; the redirect timer only shows the notice |
| Recovery.EmailThenCodeScenario | src/pages/RecuperacionContrasena/RecuperacionContrasena.jsx:71-85 | an accepted address followed by its timer reaches step 2 with the address kept |
| Login.LoginOutcomes | src/pages/Login/login.jsx:20-31 | checks in the order blank address, empty password, malformed address; the form is valid exactly when the regex accepts the address and the password is non-empty |
| Login.LoginPage.constructor | src/pages/Login/login.jsx:6-13 | hidden empty popup, empty form, no armed notice |
| Login.LoginPage.EditEmail | src/pages/Login/login.jsx:96 | only the e-mail field changes |
| Login.LoginPage.EditPassword | src/pages/Login/login.jsx:108 | only the password field changes |
| Login.LoginPage.HandleSubmit | src/pages/Login/login.jsx:41-55 | an error popup with the validator's message, or the success popup and one more armed notice; no other state changes and no request is made |
| Login.LoginPage.FireNotice | src/pages/Login/login.jsx:52-54 | the armed notice replaces the popup with the "Demo" information |
| Login.LoginPage.ForgotPassword | src/pages/Login/login.jsx:119-129 | only the popup changes, to the "Recuperar contraseña" information |
| Login.LoginPage.ClosePopup | src/pages/Login/login.jsx:37-39 | the popup is hidden, its contents kept |
| Login.SignInScenario | src/pages/Login/login.jsx:41-55 | a valid sign-in shows a popup with the ✅ icon, and the later notice shows one with the ℹ️ icon |
| Register.RegisterAccepts | src/pages/Register/register.jsx:22-50 | valid exactly when the name is not blank, the address matches the regex, the password's `length` is at least 6 UTF-16 code units and the confirmation equals it |
| Register.RegisterFirstFailure | src/pages/Register/register.jsx:27-50 | the first failing check, in the order name, e-mail, password, confirmation, address shape, `length` in UTF-16 code units, mismatch, gives the message |
| Register.RejectionMessage | src/pages/Register/register.jsx:84 | the server's message when it is non-empty, otherwise "No se pudo crear la cuenta" |
| Register.ReplyPopup | src/pages/Register/register.jsx:81-96 | success only for an ok reply; a non-ok reply shows "Error al registrarse", and a thrown request shows "Error de conexión" |
| Register.RegisterPage.constructor | src/pages/Register/register.jsx:8-20 | hidden empty popup, empty form, nothing pending, no navigation |
| Register.RegisterPage.EditName | src/pages/Register/register.jsx:140 | only the name field changes |
| Register.RegisterPage.EditEmail | src/pages/Register/register.jsx:152 | only the e-mail field changes |
| Register.RegisterPage.EditPassword | src/pages/Register/register.jsx:164 | only the password field changes |
| Register.RegisterPage.EditConfirmPassword | src/pages/Register/register.jsx:176 | only the confirmation field changes |
| Register.RegisterPage.HandleSubmit | src/pages/Register/register.jsx:60-79 | no request exactly when the form is invalid, and then the validation popup; otherwise name, address and password are sent and the popup is untouched |
| Register.RegisterPage.RequestEnded | src/pages/Register/register.jsx:81-96 | the reply's popup, and a redirection armed only for an ok reply |
| Register.RegisterPage.FireRedirect | src/pages/Register/register.jsx:90-92 | the router goes to /login |
| Register.RegisterPage.ClosePopup | src/pages/Register/register.jsx:56-58 | the popup is hidden, its contents kept |
| Register.MismatchThenRegisterScenario | src/pages/Register/register.jsx:60-97 | differing passwords send nothing and name the mismatch; matching ones send the account, and an accepting server leads to /login |
| EmotionCapture.Track.Stop | src/pages/Principal/principal.jsx:102 | the track is stopped |
| EmotionCapture.StopTracks | src/pages/Principal/principal.jsx:86 | every track of the stream is stopped |
| EmotionCapture.RenderedCategories | src/pages/Principal/principal.jsx:191-202 | the four results render as 85%, 78%, 92% and 67% with their names and icons |
| EmotionCapture.GeneratePlaylist | src/pages/Principal/principal.jsx:207-215 | each of the four result names gets three songs; any other name gets the single fallback entry |
| EmotionCapture.EmotionModal.constructor | src/pages/Principal/principal.jsx:10-20 | closed modal, flags false, placeholder result, empty playlist, no stream |
| EmotionCapture.EmotionModal.OpenEmotionAnalysis | src/pages/Principal/principal.jsx:93-96 | the modal opens and page scrolling is locked |
| EmotionCapture.EmotionModal.ResetCameraInterface | src/pages/Principal/principal.jsx:171-182 | the camera prompt is back if the preview is rendered; flags false, placeholder result, empty playlist |
| EmotionCapture.EmotionModal.CloseEmotionModal | src/pages/Principal/principal.jsx:98-106 | no stream is held and its tracks are stopped; the modal is closed, scrolling is restored, the flags are false, the result is the placeholder and the playlist is empty |
| EmotionCapture.EmotionModal.StartCamera | src/pages/Principal/principal.jsx:108-111 | the camera is marked active and one permission request is pending |
| EmotionCapture.EmotionModal.CameraAnswered | src/pages/Principal/principal.jsx:112-126 | a refusal stores no stream and resets `cameraActive`; a grant stores the stream, and shows it if the preview is rendered |
| EmotionCapture.EmotionModal.ShowAnalysisResults | src/pages/Principal/principal.jsx:185-190 | results visible, placeholder result, empty playlist, one more timer armed |
| EmotionCapture.EmotionModal.CapturePhoto | src/pages/Principal/principal.jsx:129-147 | with a video it starts the analysis, stops and drops the stream and clears `cameraActive`; without one nothing changes |
| EmotionCapture.EmotionModal.UploadPhoto | src/pages/Principal/principal.jsx:149-169 | never touches the stream or `cameraActive`; a chosen file shows the photo and starts the analysis |
| EmotionCapture.EmotionModal.AnalysisTimerFires | src/pages/Principal/principal.jsx:190-204 | while mounted, the chosen result with its rendered confidence and its playlist; after unmount nothing |
| EmotionCapture.EmotionModal.Unmount | src/pages/Principal/principal.jsx:83-90 | any held stream is stopped and dropped |
| EmotionCapture.CloseTwice | src/pages/Principal/principal.jsx:98-106 | closing a second time leaves the state of the first close |
| EmotionCapture.CaptureScenario | src/pages/Principal/principal.jsx:129-147 | grant, capture and timer: the stream is released and the chosen result with three songs is shown |
| EmotionCapture.LateResultAfterClose | src/pages/Principal/principal.jsx:190-204 | a timer outliving a close writes a result into the closed modal |
| Api.AuthHeaders | src/utils/api.js:8-11 | an Authorization entry "Bearer t" exactly when the stored token t is truthy, and no other key |
| Api.ComposeHeaders | src/utils/api.js:16-23 | JSON content type unless the caller gives one; the caller's headers are kept; the stored bearer token overrides the caller's Authorization |
| Api.ErrorMessage | src/utils/api.js:31 | the body's truthy message, otherwise "Error en la petición" |
| Api.FetchOutcome | src/utils/api.js:27-37 | returns exactly when ok; the body is the parsed JSON only for a JSON content type; a failure carries status, body and the error message |
| Api.NonJsonFailureMessage | src/utils/api.js:27-34 | a failure without a JSON body throws the default message and a null body |
| Api.JsonFailureMessage | src/utils/api.js:27-34 | a failing JSON body with a non-empty message throws that message |
| Api.CheckAuth | src/utils/api.js:54-75 | without a truthy token: rejected, storage unchanged; an undecodable token: rejected, storage unchanged; a non-zero `exp` in the past: rejected, token and user removed; otherwise (no `exp`, zero, or not yet past): accepted, storage unchanged |
| Api.PurgeIsFinal | src/utils/api.js:63-68 | after a purge every later check fails and changes nothing |
| Api.AcceptedEarlier | src/utils/api.js:63 | a token accepted at some time is accepted at every earlier time |
| Api.IsAuthenticated | src/utils/api.js:54-75 | its answer and the storage afterwards are those of `CheckAuth` on the storage before |
| Api.LocalStorage.RemoveItem | src/utils/api.js:65-66 | exactly that key is removed |
| ResetTokens.MostRecent | backend/repositories/password_reset_repository.py:340-347 | no row exactly when none matches; otherwise the newest matching row, ties going to the later insert |
| ResetTokens.NewestIsUnique | backend/repositories/password_reset_repository.py:345-346 | the row `ORDER BY created_at DESC LIMIT 1` returns is determined by the table alone |
| ResetTokens.NewestIsOnly | backend/repositories/password_reset_repository.py:345-346 | every row that is newest among the matching ones is the row the query returns |
| ResetTokens.GenerateToken | backend/repositories/password_reset_repository.py:288-296 | six characters, all digits, the i-th showing the i-th draw |
| ResetTokens.FindByEmail | backend/repositories/user_repository.py:45-69 | an active user with that email, and none exactly when there is no such user |
| ResetTokens.FindById | backend/repositories/user_repository.py:72-96 | an active user with that id, and none exactly when there is no such user |
| ResetTokens.IdsOfFoundEmail | backend/repositories/password_reset_repository.py:343-344 | with unique emails the join on email sees only the found user |
| ResetTokens.VerifyToken | backend/repositories/password_reset_repository.py:328-368 | an id exactly when the newest row for that email and token is unused and not past `expires_at`, and then it is that row's user id; it belongs to a user with that email |
| ResetTokens.GetActiveToken | backend/repositories/password_reset_repository.py:421-446 | the newest row of the user that is unused and expires after now; none exactly when no such row exists |
| ResetTokens.Invalidated | backend/repositories/password_reset_repository.py:407-411 | every row of the user becomes used; other rows are unchanged |
| ResetTokens.MarkedUsed | backend/repositories/password_reset_repository.py:382-386 | every row of that user with that token becomes used; other rows are unchanged |
| ResetTokens.WithPassword | backend/services/password_reset_service.py:87-95 | the user's hash and update time change; other columns and other users do not |
| ResetTokens.InvalidatedIdempotent | backend/repositories/password_reset_repository.py:396-419 | invalidating twice is invalidating once |
| ResetTokens.NoActiveAfterInvalidate | backend/repositories/password_reset_repository.py:396-446 | right after invalidation the user has no active token |
| ResetTokens.NoUnusedAfterInvalidate | backend/repositories/password_reset_repository.py:407-411 | after invalidation the user has no unused row |
| ResetTokens.VerifyFailsAfterMark | backend/repositories/password_reset_repository.py:328-394 | once the user's rows with a token are used, that token no longer verifies for the user's email |
| ResetTokens.NewRowVerifies | backend/repositories/password_reset_repository.py:299-368 | a newest inserted unused row verifies to its user until it expires |
| ResetTokens.NewRowIsActive | backend/repositories/password_reset_repository.py:299-446 | a newest inserted unused row is the user's active token before it expires |
| ResetTokens.Database.constructor | backend/repositories/password_reset_repository.py:285-286 | the given users, an empty token table, the given clock |
| ResetTokens.Database.Tick | backend/repositories/password_reset_repository.py:311 | the clock advances and nothing else changes |
| ResetTokens.Database.CreateResetToken | backend/repositories/password_reset_repository.py:298-326 | the generated code and one unused row expiring after the given minutes, or nothing stored when the INSERT fails |
| ResetTokens.Database.CheckToken | backend/repositories/password_reset_repository.py:328-368 | `verify_token` on the current table and clock |
| ResetTokens.Database.MarkTokenAsUsed | backend/repositories/password_reset_repository.py:370-394 | the table becomes `MarkedUsed`; true exactly when some row matched |
| ResetTokens.Database.InvalidateOldTokens | backend/repositories/password_reset_repository.py:396-419 | the table becomes `Invalidated`, and it always reports success |
| ResetTokens.Database.UpdatePassword | backend/services/password_reset_service.py:87-97 | the users become `WithPassword`; the row count is positive exactly when the id exists |
| ResetService.RequestSpec | backend/services/password_reset_service.py:14-42 | a blank email is an error and an unknown one a silent success, neither touching the table; success exactly when no error message |
| ResetService.IssueCode | backend/services/password_reset_service.py:26-42 | old codes are invalidated; success exactly when the insert and the mail both succeed; the mail carries the stored code |
| ResetService.VerifyResetCode | backend/services/password_reset_service.py:49-65 | missing fields, then a stripped length other than 6, then a rejected token; for a six-character code, success exactly when `verify_token` accepts the normalized email and stripped code |
| ResetService.ResetSpec | backend/services/password_reset_service.py:68-105 | missing fields, then a short password; a failure changes neither table; with the fields filled and 6 characters, success exactly when `verify_token` accepts the normalized email and stripped code and `find_by_id` finds that user |
| ResetService.ResetWithCode | backend/services/password_reset_service.py:75-105 | a rejected code gives "Código inválido o expirado" and a missing user "Usuario no encontrado"; a verified code of an existing user succeeds, stores the hash, marks the code's rows used and mails the user |
| ResetService.ResendSpec | backend/services/password_reset_service.py:112-128 | a blank email is an error and an unknown one a silent success, neither touching the table |
| ResetService.ResendWithinWindow | backend/services/password_reset_service.py:121-126 | within two minutes the user's active code is mailed again to the user's address and the table is unchanged |
| ResetService.ResendOutsideWindow | backend/services/password_reset_service.py:120-128 | without an active code, or with one at least two minutes old, a resend is `request_password_reset` |
| ResetService.IssuedRow | backend/services/password_reset_service.py:26-31 | after issuing, the user has exactly one unused code, which is active and verifies until it expires |
| ResetService.RequestIssuesCode | backend/services/password_reset_service.py:14-42 | after a request whose insert succeeds, the mailed code is the user's only unused one and `verify_reset_code` accepts it for its whole lifetime |
| ResetService.VerifiedResetSucceeds | backend/services/password_reset_service.py:70-105 | filled-in fields, a password of 6 characters and a code that verifies to an active user give a successful reset |
| ResetService.RequestThenReset | backend/services/password_reset_service.py:14-105 | the code a request mails resets the password with any new password of 6 characters, at any time up to its expiry |
| ResetService.UpdateAndMarkConsume | backend/services/password_reset_service.py:87-100 | after the update and the marking, the code no longer verifies with an email only that user holds, and the hash is stored |
| ResetService.ResetWithCodeConsumes | backend/services/password_reset_service.py:76-100 | after a successful reset the code no longer verifies and the new hash is stored |
| ResetService.ResetConsumesCode | backend/services/password_reset_service.py:68-105 | after a successful reset the same email and code are rejected by `verify_reset_code` at any later time |
| ResetService.RequestPasswordReset | backend/services/password_reset_service.py:14-46 | outcome, mail and table equal `RequestSpec` on the old table |
| ResetService.ResetPassword | backend/services/password_reset_service.py:68-109 | outcome, mail and both tables equal `ResetSpec` on the old tables |
| ResetService.ResendCode | backend/services/password_reset_service.py:112-132 | outcome, mail and table equal `ResendSpec` on the old table |
| Validators.LastIndexOf | backend/utils/validators.py:24 | the position of the last occurrence, or -1 when there is none |
| Validators.PyEmailComposed | backend/utils/validators.py:24-26 | every local@domain.letters with allowed characters and at least two letters is accepted |
| Validators.PyHostComposed | backend/utils/validators.py:24 | every domain.letters with allowed characters and at least two letters matches the host part |
| Validators.PyEmailDecomposed | backend/utils/validators.py:24-26 | every accepted address splits as local@domain.letters of that form |
| Validators.PyHostDecomposed | backend/utils/validators.py:24 | every accepted host splits as domain.letters of that form |
| Validators.PyEmailShape | backend/utils/validators.py:24 | an accepted address has exactly one '@' and ends with a letter |
| Validators.TrailingNewlineAccepted | backend/utils/validators.py:26 | `re.match` with `$` also accepts an address followed by one newline |
| Validators.ValidateEmail | backend/utils/validators.py:21-29 | passes exactly for a pattern match; a missing or empty address, then a mismatch, give their messages |
| Validators.ValidatePassword | backend/utils/validators.py:43-49 | passes exactly for a non-empty password of at least the minimum length; otherwise the matching message with the minimum in it |
| Validators.ValidateName | backend/utils/validators.py:63-69 | passes exactly when the stripped name is non-empty and long enough; a blank name, then a short one, give their messages |
| Validators.SanitizeKeepsWords | backend/utils/validators.py:82-91 | the sanitized text has exactly the input's words, in order |
| Validators.SanitizeShape | backend/utils/validators.py:82-91 | the sanitized text has no outer whitespace, only single blanks inside, never two in a row |
| Validators.SanitizeIdempotent | backend/utils/validators.py:72-91 | sanitizing twice is sanitizing once |
| PyValues.Pad | backend/models/user.py:34 | a zero-padded field of the given width that reads back as the number |
| PyValues.ParseNatZeros | backend/models/user.py:34 | leading zeros do not change a digit string's value |
| PyValues.IsoFormat | backend/models/user.py:34-37 | 19 characters, or 26 with microseconds |
| PyValues.DateFields | backend/models/user.py:34 | year, month and day read back from their positions, with '-' between |
| PyValues.TimeFields | backend/models/user.py:34 | hour, minute and second read back from their positions, with ':' between |
| PyValues.IsoFormatFields | backend/models/user.py:34-37 | the date, the separator, the time, then '.' and six digits that read back as the microseconds when there are any |
| Responses.Success | backend/utils/responses.py:11-31 | success flag, the message and the status; a data key exactly when data is not None |
| Responses.Error | backend/utils/responses.py:34-54 | failure flag, the message and the status; an errors key exactly when errors is truthy |
| Responses.HelperShapes | backend/utils/responses.py:57-134 | created is 201 and a success with "Recurso creado exitosamente" by default; unauthorized 401, forbidden 403, not_found 404, validation_error 422 and internal_error 500 are failures with their default messages |
| Responses.SuccessIsNotError | backend/utils/responses.py:23-49 | no body is both a success and a failure |
| Responses.EmptyErrorsDropped | backend/utils/responses.py:51-52 | an empty errors dictionary is the same as none |
| UserModel.IsoOrNone | backend/models/user.py:34-37 | None stays None; a datetime becomes its ISO text with 'T' at index 10 |
| UserModel.IdOrNone | backend/models/user.py:31 | a falsy id becomes None; a truthy one becomes its string |
| UserModel.User.constructor | backend/models/user.py:7-18 | every attribute is the argument given, with is_active defaulting to True |
| UserModel.ToDictKeys | backend/models/user.py:30-43 | always the seven public keys, and password_hash exactly when asked for |
| UserModel.ToDictIdentity | backend/models/user.py:31-36 | the id as a string or None; name, email and is_active copied |
| UserModel.ToDictTimestamps | backend/models/user.py:34-37 | the three timestamps as ISO text or None |
| UserModel.DefaultDictHidesPassword | backend/models/user.py:20-43 | the default dictionary has no password_hash, and asking for it only adds that key |
| UserModel.FromDbRow | backend/models/user.py:56-68 | None exactly for a missing or empty row; otherwise each attribute is the column or None, is_active included |

## Left out

- The network, SMTP, the database driver, bcrypt, `getUserMedia`, `FileReader`, the canvas and the DOM are outside the model. Their results are inputs (a reply, a grant, the hash, the draws, `insertOk`/`sendOk`) or outputs (`Mail`, `SignUp`).
- Exceptions from the driver other than the failing INSERT in `create_reset_token`, and therefore the "Error interno del servidor" path of every service operation, are not modelled.
- A failing `res.json()` in `apiFetch` is not modelled. In `register.jsx` that failure is part of `Unreachable`.
- `showNotification`, the clock and greeting, the stat counters, navigation cards and every other part of `principal.jsx` outside the emotion modal are not part of this model.
- The order in which timers of different delays fire is not fixed: `Recovery.RecoveryWizard.Fire` lets any armed timer fire next.
- `secrets.randbelow` and `Math.random` become their results (`draws`, `index`).
- Time is a whole number of seconds (milliseconds in `api.js`), where the source uses `datetime` and floating point. Application and database share one clock.
- JSON numbers are integers. `exp` and `status` carry no fractions.
- `str()` of lists and dictionaries is not modelled. `UserModel.IdOrNone` requires a scalar id.
- Python's `lower()` and whitespace follow ASCII and the characters listed in `Text.IsSpace`. Unicode case mapping is not modelled.
- ResetTokens.FindByEmail: when several active users share an email, `fetchone()` returns an unspecified one; the model takes the first and `Database.Valid` keeps emails unique.
- ResetTokens.MostRecent: rows with equal `created_at` are ordered by insertion, which SQL leaves unspecified.
- ResetService.ResendSpec: the contract itself states only the blank and unknown cases; the window and the fallback to a new request are stated by `ResetService.ResendWithinWindow` and `ResetService.ResendOutsideWindow`.
- ResetService.VerifyResetCode: `verify_token`'s answer is only required to be truthy; the database never stores an empty user id (`Database.Valid`).
- EmotionCapture.GeneratePlaylist: a name that is a property of `Object.prototype` ("toString" and the like) would return that property in JavaScript; the page only passes the four result names.
- UserModel.FromDbRow: the row is required to hold `datetime`s or `None` in its timestamp columns and a scalar id, as the driver returns them.
- Browser constraint validation (`required`, `type="email"`) that can stop a submit before the handler runs is not modelled; the handlers are modelled as if called.
- The first two `PasswordResetRepository` class bodies in the repository file are replaced by the third at import, so only the third is modelled.
