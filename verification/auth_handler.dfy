/** The authentication endpoints of routes/auth/handler.go. Each endpoint is
    a fixed sequence of steps that stops at the first failing one and
    replies with that step's status. The services the handler calls
    (validation, hashing, hash verification, JWT issue and parsing) are
    opaque: they are function-valued fields of `AuthService`, and the
    random activation code of one request is a parameter of that request. */
module AuthHandlers {
  import opened Http
  import opened AuthStore

  const RegistrationType := "registration"
  const ForgetPasswordType := "forget-password"
  /** Lifetime of an activation code, in minutes. */
  const ActivationExpiryMinutes := 15
  const BearerType := "Bearer"
  /** Lifetime of an access token, in seconds (15 minutes). */
  const AccessExpiresIn := 900

  const InvalidTokenTypeMsg := "Tipe token tidak valid"
  const InvalidFormatMsg := "Format request tidak valid"
  const RegistrationConflictMsg := "test 1 2 3"
  const EmailNotRegisteredMsg := "Email tidak terdaftar"
  const CodeSentMsg := "Kode aktivasi telah dikirim ke email"
  const RegisteredMsg := "Pendaftaran berhasil, silakan login"
  const BadHashMsg := "hash tidak valid"
  const LoginOkMsg := "Login berhasil"
  const PasswordChangedMsg := "Password berhasil diubah"
  const NoRefreshCookieMsg := "Refresh token tidak ditemukan dalam cookies"
  const RefreshedMsg := "Token berhasil diperbarui"
  const RegistrationSubject := "Kode Aktivasi Pendaftaran"
  const ResetSubject := "Kode Reset Password"

  datatype TokenRequest = TokenRequest(email: string)
  datatype RegisterRequest = RegisterRequest(
    email: string, fullname: string, password: string, passwordConfirmation: string, activationCode: string)
  /** What the service validates for a registration; `username` carries the full name. */
  datatype RegistrationRequest = RegistrationRequest(
    email: string, username: string, password: string, passwordConfirmation: string)
  datatype LoginRequest = LoginRequest(email: string, password: string)
  datatype ForgetPasswordRequest = ForgetPasswordRequest(
    email: string, activationCode: string, newPassword: string, newPasswordConfirmation: string)
  datatype TokenPairRequest = TokenPairRequest(userId: string, email: string)
  datatype TokenPair = TokenPair(accessToken: string, refreshToken: string)
  datatype RefreshClaims = RefreshClaims(userId: string, email: string)
  datatype JwtResponseData = JwtResponseData(
    accessToken: string, refreshToken: string, tokenType: string, expiresIn: int)

  /** The auth service, whose implementation is not part of this model. */
  datatype AuthService = AuthService(
    validateEmail: string -> Option<CustomError>,
    validateRegistrationInput: RegistrationRequest -> Option<CustomError>,
    validatePasswordInput: (string, string) -> Option<CustomError>,
    hashString: string -> Result<string>,
    verifyHash: (string, string) -> Option<CustomError>,
    generateTokenPair: TokenPairRequest -> Result<TokenPair>,
    validateRefreshTokenClaims: string -> Result<RefreshClaims>)

  datatype EmailTemplate = EmailTemplate(
    registrationEmail: (string, string) -> string,
    passwordResetEmail: (string, string) -> string)

  /** Sends (html, subject, recipients); an error is forwarded to the client. */
  datatype EmailSender = EmailSender(send: (string, string, seq<string>) -> Option<CustomError>)

  predicate IsTokenType(tokenType: string) {
    tokenType == RegistrationType || tokenType == ForgetPasswordType
  }

  /** The reply both successful login and refresh give for a token pair. */
  function JwtReply(message: string, pair: TokenPair): Response<JwtResponseData> {
    Data(StatusOK, message, JwtResponseData(pair.accessToken, pair.refreshToken, BearerType, AccessExpiresIn))
  }

  function AsRegistration(req: RegisterRequest): RegistrationRequest {
    RegistrationRequest(req.email, req.fullname, req.password, req.passwordConfirmation)
  }

  class AuthHandler {
    const service: AuthService
    const repository: AuthDb
    const emailSender: EmailSender
    const emailTemplate: EmailTemplate

    constructor (service: AuthService, repository: AuthDb, emailSender: EmailSender, emailTemplate: EmailTemplate)
      ensures this.service == service && this.repository == repository
      ensures this.emailSender == emailSender && this.emailTemplate == emailTemplate
    {
      this.service := service;
      this.repository := repository;
      this.emailSender := emailSender;
      this.emailTemplate := emailTemplate;
    }

    /** The email body sent for a token type: the plaintext code goes here
        and nowhere else. */
    function EmailHtml(tokenType: string, email: string, code: string): string {
      if tokenType == RegistrationType then emailTemplate.registrationEmail(email, code)
      else emailTemplate.passwordResetEmail(email, code)
    }

    function EmailSubject(tokenType: string): string {
      if tokenType == RegistrationType then RegistrationSubject else ResetSubject
    }

    // ---- RequestToken: the stages a request passes before the token is saved

    /** Valid type, a bound body and a well-formed email. */
    predicate TokenRequestValid(tokenType: string, body: Bound<TokenRequest>) {
      IsTokenType(tokenType) && body.Bound? && service.validateEmail(body.value.email).None?
    }

    /** The asymmetric existence check: a registration needs a new email,
        a password reset needs a registered one. The check reads any error
        of the lookup as "registered": a failed lookup refuses a
        registration and lets a password reset through. */
    ghost predicate TokenEmailAllowed(tokenType: string, body: Bound<TokenRequest>, lookupFault: Option<CustomError>)
      reads repository
    {
      && TokenRequestValid(tokenType, body)
      && (tokenType == RegistrationType ==> body.value.email !in repository.users && lookupFault.None?)
      && (tokenType == ForgetPasswordType ==> body.value.email in repository.users || lookupFault.Some?)
    }

    /** The request reaches the save: the code was generated and hashed. */
    ghost predicate TokenSaved(tokenType: string, body: Bound<TokenRequest>, lookupFault: Option<CustomError>, generated: Result<string>)
      reads repository
    {
      TokenEmailAllowed(tokenType, body, lookupFault) && generated.Ok? && service.hashString(generated.value).Ok?
    }

    /** `lookupFault` is the error, if any, the database reports for the
        email-existence query. */
    method RequestToken(tokenType: string, body: Bound<TokenRequest>, lookupFault: Option<CustomError>, generated: Result<string>)
      returns (resp: Response<()>)
      requires repository.Valid()
      modifies repository
      ensures repository.Valid()
      ensures repository.users == old(repository.users)
      // the type whitelist comes first
      ensures !IsTokenType(tokenType) ==> resp == Message(StatusBadRequest, InvalidTokenTypeMsg)
      ensures IsTokenType(tokenType) && body.BindError? ==> resp == Message(StatusBadRequest, InvalidFormatMsg)
      ensures IsTokenType(tokenType) && body.Bound? && service.validateEmail(body.value.email).Some? ==>
        resp == Forward(service.validateEmail(body.value.email).value)
      // the asymmetric existence check
      ensures TokenRequestValid(tokenType, body) && tokenType == RegistrationType && (body.value.email in old(repository.users) || lookupFault.Some?) ==>
        resp == Message(StatusConflict, RegistrationConflictMsg)
      ensures TokenRequestValid(tokenType, body) && tokenType == ForgetPasswordType && body.value.email !in old(repository.users) && lookupFault.None? ==>
        resp == Message(StatusNotFound, EmailNotRegisteredMsg)
      // code generation and hashing
      ensures old(TokenEmailAllowed(tokenType, body, lookupFault)) && generated.Err? ==> resp == Forward(generated.error)
      ensures old(TokenEmailAllowed(tokenType, body, lookupFault)) && generated.Ok? && service.hashString(generated.value).Err? ==>
        resp == Forward(service.hashString(generated.value).error)
      // only the hash is stored, under the path type, for 15 minutes; nothing is stored on any earlier failure
      ensures !old(TokenSaved(tokenType, body, lookupFault, generated)) ==> repository.tokens == old(repository.tokens)
      ensures old(TokenSaved(tokenType, body, lookupFault, generated)) ==>
        repository.tokens == old(repository.tokens)[(body.value.email, tokenType) :=
          ActivationTokenRequest(body.value.email, service.hashString(generated.value).value, tokenType, ActivationExpiryMinutes)]
      // the email goes out after the save; a send failure keeps the saved token
      ensures old(TokenSaved(tokenType, body, lookupFault, generated)) ==>
        var sent := emailSender.send(EmailHtml(tokenType, body.value.email, generated.value),
                                     EmailSubject(tokenType), [body.value.email]);
        resp == if sent.Some? then Forward(sent.value) else Message(StatusOK, CodeSentMsg)
    {
      if tokenType != RegistrationType && tokenType != ForgetPasswordType {
        return Message(StatusBadRequest, InvalidTokenTypeMsg);
      }
      if body.BindError? {
        return Message(StatusBadRequest, InvalidFormatMsg);
      }
      var req := body.value;
      var emailErr := service.validateEmail(req.email);
      if emailErr.Some? {
        return Forward(emailErr.value);
      }
      if tokenType == RegistrationType {
        if repository.CheckExistingEmail(req.email, lookupFault).Some? {
          return Message(StatusConflict, RegistrationConflictMsg);
        }
      } else if tokenType == ForgetPasswordType {
        if repository.CheckExistingEmail(req.email, lookupFault).None? {
          return Message(StatusNotFound, EmailNotRegisteredMsg);
        }
      }
      if generated.Err? {
        return Forward(generated.error);
      }
      var token := generated.value;
      var hashed := service.hashString(token);
      if hashed.Err? {
        return Forward(hashed.error);
      }
      repository.SaveActivationToken(ActivationTokenRequest(req.email, hashed.value, tokenType, ActivationExpiryMinutes));
      var sendErr := emailSender.send(EmailHtml(tokenType, req.email, token), EmailSubject(tokenType), [req.email]);
      if sendErr.Some? {
        return Forward(sendErr.value);
      }
      resp := Message(StatusOK, CodeSentMsg);
    }

    // ---- Register and ForgetPassword: validate, fetch the stored hash under a fixed type, verify, hash, write

    /** The stored registration code for the request's email verifies. */
    ghost predicate RegistrationCodeVerified(req: RegisterRequest)
      requires repository.Valid()
      reads repository
    {
      && service.validateRegistrationInput(AsRegistration(req)).None?
      && repository.GetActivationToken(req.email, RegistrationType).Ok?
      && service.verifyHash(repository.GetActivationToken(req.email, RegistrationType).value, req.activationCode).None?
    }

    method Register(body: Bound<RegisterRequest>, newUserId: string) returns (resp: Response<()>)
      requires repository.Valid()
      modifies repository
      ensures repository.Valid()
      // the activation token is not consumed
      ensures repository.tokens == old(repository.tokens)
      ensures body.BindError? ==> resp == Message(StatusBadRequest, InvalidFormatMsg)
      ensures body.Bound? && service.validateRegistrationInput(AsRegistration(body.value)).Some? ==>
        resp == Forward(service.validateRegistrationInput(AsRegistration(body.value)).value)
      ensures body.Bound? && service.validateRegistrationInput(AsRegistration(body.value)).None? ==>
        var stored := old(repository.GetActivationToken(body.value.email, RegistrationType));
        && (stored.Err? ==> resp == Forward(stored.error))
        && (stored.Ok? && service.verifyHash(stored.value, body.value.activationCode).Some? ==>
              resp == Forward(service.verifyHash(stored.value, body.value.activationCode).value))
      ensures body.Bound? && old(RegistrationCodeVerified(body.value)) && service.hashString(body.value.password).Err? ==>
        resp == Forward(service.hashString(body.value.password).error)
      ensures body.Bound? && old(RegistrationCodeVerified(body.value)) && service.hashString(body.value.password).Ok? ==>
        if body.value.email in old(repository.users) then
          resp == Forward(EmailRegistered) && repository.users == old(repository.users)
        else
          && resp == Message(StatusCreated, RegisteredMsg)
          && repository.users == old(repository.users)[body.value.email :=
               User(newUserId, body.value.email, body.value.fullname, service.hashString(body.value.password).value)]
      // a user is written only after the code verified and the password hashed
      ensures !(body.Bound? && old(RegistrationCodeVerified(body.value)) && service.hashString(body.value.password).Ok?) ==>
        repository.users == old(repository.users)
    {
      if body.BindError? {
        return Message(StatusBadRequest, InvalidFormatMsg);
      }
      var req := body.value;
      var inputErr := service.validateRegistrationInput(AsRegistration(req));
      if inputErr.Some? {
        return Forward(inputErr.value);
      }
      var token := repository.GetActivationToken(req.email, RegistrationType);
      if token.Err? {
        return Forward(token.error);
      }
      var verifyErr := service.verifyHash(token.value, req.activationCode);
      if verifyErr.Some? {
        return Forward(verifyErr.value);
      }
      var hashed := service.hashString(req.password);
      if hashed.Err? {
        return Forward(hashed.error);
      }
      var createErr := repository.CreateUser(CreateUserRequest(req.email, req.fullname, hashed.value), newUserId);
      if createErr.Some? {
        return Forward(createErr.value);
      }
      resp := Message(StatusCreated, RegisteredMsg);
    }

    /** The stored reset code for the request's email verifies. */
    ghost predicate ResetCodeVerified(req: ForgetPasswordRequest)
      requires repository.Valid()
      reads repository
    {
      && service.validatePasswordInput(req.newPassword, req.newPasswordConfirmation).None?
      && repository.GetActivationToken(req.email, ForgetPasswordType).Ok?
      && service.verifyHash(repository.GetActivationToken(req.email, ForgetPasswordType).value, req.activationCode).None?
    }

    method ForgetPassword(body: Bound<ForgetPasswordRequest>) returns (resp: Response<()>)
      requires repository.Valid()
      modifies repository
      ensures repository.Valid()
      ensures repository.tokens == old(repository.tokens)
      ensures body.BindError? ==> resp == Message(StatusBadRequest, InvalidFormatMsg)
      // the password pair is checked before any store is read
      ensures body.Bound? && service.validatePasswordInput(body.value.newPassword, body.value.newPasswordConfirmation).Some? ==>
        resp == Forward(service.validatePasswordInput(body.value.newPassword, body.value.newPasswordConfirmation).value)
      ensures body.Bound? && service.validatePasswordInput(body.value.newPassword, body.value.newPasswordConfirmation).None? ==>
        var stored := old(repository.GetActivationToken(body.value.email, ForgetPasswordType));
        && (stored.Err? ==> resp == Forward(stored.error))
        && (stored.Ok? && service.verifyHash(stored.value, body.value.activationCode).Some? ==>
              resp == Forward(service.verifyHash(stored.value, body.value.activationCode).value))
      ensures body.Bound? && old(ResetCodeVerified(body.value)) && service.hashString(body.value.newPassword).Err? ==>
        resp == Forward(service.hashString(body.value.newPassword).error)
      // only that email's password hash changes
      ensures body.Bound? && old(ResetCodeVerified(body.value)) && service.hashString(body.value.newPassword).Ok? ==>
        if body.value.email !in old(repository.users) then
          resp == Forward(UserNotFound) && repository.users == old(repository.users)
        else
          && resp == Message(StatusOK, PasswordChangedMsg)
          && repository.users == old(repository.users)[body.value.email :=
               old(repository.users)[body.value.email].(passwordHash := service.hashString(body.value.newPassword).value)]
      ensures !(body.Bound? && old(ResetCodeVerified(body.value)) && service.hashString(body.value.newPassword).Ok?) ==>
        repository.users == old(repository.users)
    {
      if body.BindError? {
        return Message(StatusBadRequest, InvalidFormatMsg);
      }
      var req := body.value;
      var inputErr := service.validatePasswordInput(req.newPassword, req.newPasswordConfirmation);
      if inputErr.Some? {
        return Forward(inputErr.value);
      }
      var token := repository.GetActivationToken(req.email, ForgetPasswordType);
      if token.Err? {
        return Forward(token.error);
      }
      var verifyErr := service.verifyHash(token.value, req.activationCode);
      if verifyErr.Some? {
        return Forward(verifyErr.value);
      }
      var hashed := service.hashString(req.newPassword);
      if hashed.Err? {
        return Forward(hashed.error);
      }
      var updateErr := repository.UpdateUserPassword(UpdatePasswordRequest(req.email, hashed.value));
      if updateErr.Some? {
        return Forward(updateErr.value);
      }
      resp := Message(StatusOK, PasswordChangedMsg);
    }

    // ---- Login and RefreshToken: read-only, issue a token pair

    /** Login never changes a store. Any failed user lookup, a database
        error (`lookupFault`) as well as an unknown email, and a wrong
        password all give 401; a failed lookup carries the store's message. */
    method Login(body: Bound<LoginRequest>, lookupFault: Option<CustomError>) returns (resp: Response<JwtResponseData>)
      requires repository.Valid()
      ensures body.BindError? ==> resp == Message(StatusBadRequest, InvalidFormatMsg)
      ensures body.Bound? && lookupFault.Some? ==>
        resp == Message(StatusUnauthorized, lookupFault.value.message)
      ensures body.Bound? && lookupFault.None? && body.value.email !in repository.users ==>
        resp == Message(StatusUnauthorized, UserNotFound.message)
      ensures body.Bound? && lookupFault.None? && body.value.email in repository.users ==>
        var user := repository.users[body.value.email];
        var pair := service.generateTokenPair(TokenPairRequest(user.id, user.email));
        if service.verifyHash(user.passwordHash, body.value.password).Some? then
          resp == Message(StatusUnauthorized, BadHashMsg)
        else if pair.Err? then
          resp == Forward(pair.error)
        else
          resp == JwtReply(LoginOkMsg, pair.value)
    {
      if body.BindError? {
        return Message(StatusBadRequest, InvalidFormatMsg);
      }
      var req := body.value;
      var user := repository.GetUserByEmail(req.email, lookupFault);
      if user.Err? {
        return Message(StatusUnauthorized, user.error.message);
      }
      if service.verifyHash(user.value.passwordHash, req.password).Some? {
        return Message(StatusUnauthorized, BadHashMsg);
      }
      var pair := service.generateTokenPair(TokenPairRequest(user.value.id, user.value.email));
      if pair.Err? {
        return Forward(pair.error);
      }
      resp := JwtReply(LoginOkMsg, pair.value);
    }

    /** `cookie` is the `refresh_token` cookie, absent when not sent. */
    method RefreshToken(cookie: Option<string>) returns (resp: Response<JwtResponseData>)
      ensures cookie.None? ==> resp == Message(StatusBadRequest, NoRefreshCookieMsg)
      ensures cookie.Some? && service.validateRefreshTokenClaims(cookie.value).Err? ==>
        resp == Forward(service.validateRefreshTokenClaims(cookie.value).error)
      // the new pair is issued for the subject named in the refresh token's claims
      ensures cookie.Some? && service.validateRefreshTokenClaims(cookie.value).Ok? ==>
        var claims := service.validateRefreshTokenClaims(cookie.value).value;
        var pair := service.generateTokenPair(TokenPairRequest(claims.userId, claims.email));
        resp == if pair.Err? then Forward(pair.error) else JwtReply(RefreshedMsg, pair.value)
    {
      if cookie.None? {
        return Message(StatusBadRequest, NoRefreshCookieMsg);
      }
      var claims := service.validateRefreshTokenClaims(cookie.value);
      if claims.Err? {
        return Forward(claims.error);
      }
      var pair := service.generateTokenPair(TokenPairRequest(claims.value.userId, claims.value.email));
      if pair.Err? {
        return Forward(pair.error);
      }
      resp := JwtReply(RefreshedMsg, pair.value);
    }

    /** The registration protocol end to end: a code requested for a new
        email lets that email register with the same code, whatever the
        email sender did, and a second request for a registration code is
        then refused with 409. It needs only that a hash verifies against
        the secret it was made from. */
    method RegistrationRoundTrip(email: string, fullname: string, password: string, code: string, newUserId: string)
      returns (requested: Response<()>, registered: Response<()>, again: Response<()>)
      requires repository.Valid()
      requires email !in repository.users
      requires service.validateEmail(email).None?
      requires service.validateRegistrationInput(RegistrationRequest(email, fullname, password, password)).None?
      requires service.hashString(code).Ok? && service.hashString(password).Ok?
      requires forall s :: service.hashString(s).Ok? ==> service.verifyHash(service.hashString(s).value, s).None?
      modifies repository
      ensures repository.Valid()
      ensures var sent := emailSender.send(EmailHtml(RegistrationType, email, code), RegistrationSubject, [email]);
        requested == if sent.Some? then Forward(sent.value) else Message(StatusOK, CodeSentMsg)
      ensures registered == Message(StatusCreated, RegisteredMsg)
      ensures again == Message(StatusConflict, RegistrationConflictMsg)
      ensures repository.users == old(repository.users)[email := User(newUserId, email, fullname, service.hashString(password).value)]
      ensures repository.tokens == old(repository.tokens)[(email, RegistrationType) :=
        ActivationTokenRequest(email, service.hashString(code).value, RegistrationType, ActivationExpiryMinutes)]
    {
      requested := RequestToken(RegistrationType, Bound(TokenRequest(email)), None, Ok(code));
      registered := Register(Bound(RegisterRequest(email, fullname, password, password, code)), newUserId);
      again := RequestToken(RegistrationType, Bound(TokenRequest(email)), None, Ok(code));
    }

    /** A password-reset request whose existence lookup fails goes ahead as
        if the email were registered: a reset code is stored even for an
        email that belongs to no user. */
    method ResetCodeOnFailedLookup(email: string, fault: CustomError, code: string) returns (resp: Response<()>)
      requires repository.Valid()
      requires email !in repository.users
      requires service.validateEmail(email).None? && service.hashString(code).Ok?
      modifies repository
      ensures repository.users == old(repository.users)
      ensures repository.tokens == old(repository.tokens)[(email, ForgetPasswordType) :=
        ActivationTokenRequest(email, service.hashString(code).value, ForgetPasswordType, ActivationExpiryMinutes)]
      ensures var sent := emailSender.send(EmailHtml(ForgetPasswordType, email, code), ResetSubject, [email]);
        resp == if sent.Some? then Forward(sent.value) else Message(StatusOK, CodeSentMsg)
    {
      resp := RequestToken(ForgetPasswordType, Bound(TokenRequest(email)), Some(fault), Ok(code));
    }
  }
}
