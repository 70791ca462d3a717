/** The login and sign-up page (src/pages/Auth.tsx): the two form schemas, the
    sign-up gate chain and the mapping of service errors to the messages shown.

    The e-mail format check of the schema library is an input (whether the
    entered address passes it), and so are the IP lookup, the ban tables, the
    taken user names and the answers of `signIn` and `signUp`. */
module AuthPage {
  import opened Wrappers
  import opened Schema
  import JsText
  import AuthContext

  const UsernameTooShort: string := "Le nom d'utilisateur doit contenir au moins 3 caractères"
  /** The schema library's default message for a `max(50)` failure. */
  const UsernameTooLong: string := "String must contain at most 50 character(s)"
  const InvalidEmail: string := "Email invalide"
  const PasswordTooShort: string := "Le mot de passe doit contenir au moins 6 caractères"
  const PasswordMismatch: string := "Les mots de passe ne correspondent pas"

  datatype LoginForm = LoginForm(email: string, password: string)
  datatype SignupForm = SignupForm(username: string, email: string, password: string, confirmPassword: string)

  /** Every issue `loginSchema` reports, in the order it reports them. */
  function LoginIssues(f: LoginForm, emailValid: bool): (issues: seq<string>)
    ensures issues == [] <==> emailValid && |f.password| >= 6
    ensures !emailValid ==> issues[0] == InvalidEmail
  {
    (if emailValid then [] else [InvalidEmail])
    + (if |f.password| >= 6 then [] else [PasswordTooShort])
  }

  /** Every issue `signupSchema` reports, in order: the fields in declaration
      order, then the password-match refinement (which runs even when a field
      check failed, since none of them aborts the parse). */
  function SignupIssues(f: SignupForm, emailValid: bool): (issues: seq<string>)
    ensures issues == [] <==>
      3 <= |f.username| <= 50 && emailValid && |f.password| >= 6 && f.password == f.confirmPassword
    ensures |f.username| < 3 ==> issues[0] == UsernameTooShort
  {
    (if |f.username| >= 3 then [] else [UsernameTooShort])
    + (if |f.username| <= 50 then [] else [UsernameTooLong])
    + (if emailValid then [] else [InvalidEmail])
    + (if |f.password| >= 6 then [] else [PasswordTooShort])
    + (if f.password == f.confirmPassword then [] else [PasswordMismatch])
  }

  /** A mismatch is reported only when every field check passed, or after
      their messages: it is the first message exactly when it is the only
      failure. */
  lemma MismatchReportedLast(f: SignupForm, emailValid: bool)
    requires f.password != f.confirmPassword
    ensures SignupIssues(f, emailValid)[0] == PasswordMismatch <==>
      3 <= |f.username| <= 50 && emailValid && |f.password| >= 6
  {
  }

  /** The message shown for a `signIn` error. */
  function LoginErrorText(message: string): (text: string)
    ensures JsText.Contains(message, "Invalid login credentials") ==> text == "Identifiants incorrects"
    ensures !JsText.Contains(message, "Invalid login credentials") && message != "" ==> text == message
    ensures text != ""
  {
    if JsText.Contains(message, "Invalid login credentials") then "Identifiants incorrects"
    else if message == "" then "Erreur de connexion"
    else message
  }

  /** The message shown for a `signUp` error, with "already registered" taking
      precedence over the duplicate-key messages. */
  function SignupErrorText(message: string): (text: string)
    ensures JsText.Contains(message, "already registered") ==> text == "Cet email est déjà utilisé"
    ensures (!JsText.Contains(message, "already registered")
             && (JsText.Contains(message, "duplicate key") || JsText.Contains(message, "unique constraint")))
            ==> text == "Ce nom d'utilisateur ou cet email est déjà utilisé"
    ensures (!JsText.Contains(message, "already registered") && !JsText.Contains(message, "duplicate key")
             && !JsText.Contains(message, "unique constraint") && message != "")
            ==> text == message
    ensures text != ""
  {
    if JsText.Contains(message, "already registered") then "Cet email est déjà utilisé"
    else if JsText.Contains(message, "duplicate key") || JsText.Contains(message, "unique constraint") then
      "Ce nom d'utilisateur ou cet email est déjà utilisé"
    else if message == "" then "Erreur d'inscription"
    else message
  }

  datatype Toast = ErrorToast(text: string) | SuccessToast(text: string)

  /** What the page shows, whether it navigates home, and whether it called
      the account-creating service (`signIn` or `signUp`). */
  datatype Outcome = Outcome(toast: Toast, goHome: bool, serviceCalled: bool)

  function LoginSpec(f: LoginForm, emailValid: bool, signInError: Option<string>): Outcome {
    var issues := LoginIssues(f, emailValid);
    if issues != [] then Outcome(ErrorToast(issues[0]), false, false)
    else if signInError.Some? then Outcome(ErrorToast(LoginErrorText(signInError.value)), false, true)
    else Outcome(SuccessToast("Connexion réussie !"), true, true)
  }

  /** What the services the sign-up form calls answer; `usernameLookupFails`
      is the user-name lookup answering an error (so no data). */
  datatype SignupEnv = SignupEnv(
    emailValid: bool,
    clientIp: Option<string>,
    bannedIps: set<string>,
    bannedEmails: set<string>,
    takenUsernames: set<string>,
    usernameLookupFails: bool,
    signUpError: Option<string>)

  /** `checkUsernameExists`: `!!data`, so a lookup that fails answers that the
      name is free. */
  function UsernameExists(taken: set<string>, username: string, lookupFails: bool): (exists_: bool)
    ensures exists_ <==> !lookupFails && username in taken
  {
    !lookupFails && username in taken
  }

  /** `handleSignup`, gate by gate: schema, IP (only when one is known), e-mail
      ban, user name taken, then account creation. */
  function SignupSpec(f: SignupForm, env: SignupEnv): Outcome {
    var issues := SignupIssues(f, env.emailValid);
    if issues != [] then Outcome(ErrorToast(issues[0]), false, false)
    else if AuthContext.IpBanned(env.bannedIps, env.clientIp) then
      Outcome(ErrorToast("Votre adresse IP a été bannie. Contactez l'administrateur."), false, false)
    else if f.email in env.bannedEmails then
      Outcome(ErrorToast("Cet email a été banni. Contactez l'administrateur."), false, false)
    else if UsernameExists(env.takenUsernames, f.username, env.usernameLookupFails) then
      Outcome(ErrorToast("Ce nom d'utilisateur est déjà pris"), false, false)
    else if env.signUpError.Some? then Outcome(ErrorToast(SignupErrorText(env.signUpError.value)), false, true)
    else Outcome(SuccessToast("Compte créé avec succès !"), true, true)
  }

  /** The page's `loading` flag around the two handlers. */
  class AuthForm {
    var loading: bool

    constructor ()
      ensures !loading
    {
      loading := false;
    }

    method HandleLogin(f: LoginForm, emailValid: bool, signInError: Option<string>) returns (o: Outcome)
      modifies this
      ensures o == LoginSpec(f, emailValid, signInError)
      ensures !loading
    {
      var issues := LoginIssues(f, emailValid);
      if issues != [] {
        o := Outcome(ErrorToast(issues[0]), false, false);
      } else {
        loading := true;
        if signInError.Some? {
          o := Outcome(ErrorToast(LoginErrorText(signInError.value)), false, true);
        } else {
          o := Outcome(SuccessToast("Connexion réussie !"), true, true);
        }
      }
      loading := false;
    }

    method HandleSignup(f: SignupForm, env: SignupEnv) returns (o: Outcome)
      modifies this
      ensures o == SignupSpec(f, env)
      ensures !loading
    {
      var issues := SignupIssues(f, env.emailValid);
      if issues != [] {
        loading := false;
        return Outcome(ErrorToast(issues[0]), false, false);
      }
      loading := true;
      if Present(env.clientIp) {
        var ipBanned := AuthContext.CheckBannedIp(env.bannedIps, env.clientIp.value);
        if ipBanned {
          loading := false;
          return Outcome(ErrorToast("Votre adresse IP a été bannie. Contactez l'administrateur."), false, false);
        }
      }
      if f.email in env.bannedEmails {
        loading := false;
        return Outcome(ErrorToast("Cet email a été banni. Contactez l'administrateur."), false, false);
      }
      var usernameExists := UsernameExists(env.takenUsernames, f.username, env.usernameLookupFails);
      if usernameExists {
        loading := false;
        return Outcome(ErrorToast("Ce nom d'utilisateur est déjà pris"), false, false);
      }
      if env.signUpError.Some? {
        o := Outcome(ErrorToast(SignupErrorText(env.signUpError.value)), false, true);
      } else {
        o := Outcome(SuccessToast("Compte créé avec succès !"), true, true);
      }
      loading := false;
    }
  }

  // ---------------------------------------------------------------------------
  // Properties

  /** Sign-up succeeds exactly when every gate passes and the service accepts;
      no gate after the first failing one is consulted. */
  lemma SignupGateOrder(f: SignupForm, env: SignupEnv)
    ensures SignupSpec(f, env).goHome <==>
      && SignupIssues(f, env.emailValid) == []
      && !(Present(env.clientIp) && env.clientIp.value in env.bannedIps)
      && f.email !in env.bannedEmails
      && (env.usernameLookupFails || f.username !in env.takenUsernames)
      && env.signUpError.None?
    ensures SignupIssues(f, env.emailValid) != [] ==>
      SignupSpec(f, env) == Outcome(ErrorToast(SignupIssues(f, env.emailValid)[0]), false, false)
  {
    var issues := SignupIssues(f, env.emailValid);
    var ipBanned := AuthContext.IpBanned(env.bannedIps, env.clientIp);
    assert ipBanned <==> Present(env.clientIp) && env.clientIp.value in env.bannedIps;
    assert SignupSpec(f, env).goHome <==>
      issues == [] && !ipBanned && f.email !in env.bannedEmails
      && !UsernameExists(env.takenUsernames, f.username, env.usernameLookupFails) && env.signUpError.None?;
  }

  /** A banned known IP is reported before the e-mail ban and the user name. */
  lemma IpBanBeforeEmailBan(f: SignupForm, env: SignupEnv)
    requires SignupIssues(f, env.emailValid) == []
    requires Present(env.clientIp) && env.clientIp.value in env.bannedIps
    ensures SignupSpec(f, env).toast == ErrorToast("Votre adresse IP a été bannie. Contactez l'administrateur.")
    ensures !SignupSpec(f, env).serviceCalled
  {
  }

  /** A taken user name never reaches `signUp` when the lookup works; when it
      fails the name passes as free, and a form that clears the other gates
      reaches `signUp`. */
  lemma TakenUsernameNeverSignsUp(f: SignupForm, env: SignupEnv)
    requires f.username in env.takenUsernames
    ensures !env.usernameLookupFails ==> !SignupSpec(f, env).serviceCalled && !SignupSpec(f, env).goHome
    ensures (&& env.usernameLookupFails && SignupIssues(f, env.emailValid) == []
             && !AuthContext.IpBanned(env.bannedIps, env.clientIp) && f.email !in env.bannedEmails)
      ==> SignupSpec(f, env).serviceCalled
  {
  }

  /** Login goes home iff the schema passes and `signIn` reports no error; a
      schema failure shows its first message without calling `signIn`. */
  lemma LoginOutcomes(f: LoginForm, emailValid: bool, signInError: Option<string>)
    ensures LoginSpec(f, emailValid, signInError).goHome <==> emailValid && |f.password| >= 6 && signInError.None?
    ensures LoginSpec(f, emailValid, signInError).serviceCalled <==> emailValid && |f.password| >= 6
    ensures signInError.Some? && emailValid && |f.password| >= 6 ==>
      LoginSpec(f, emailValid, signInError).toast == ErrorToast(LoginErrorText(signInError.value))
  {
  }

  /** The service's own invalid-credentials message is never shown verbatim. */
  lemma CredentialsMessageTranslated(m: string)
    requires JsText.Contains(m, "Invalid login credentials")
    ensures LoginErrorText(m) != m
  {
    assert |"Invalid login credentials"| > |"Identifiants incorrects"|;
    var i :| 0 <= i <= |m| && "Invalid login credentials" <= m[i..];
    assert |m| >= |"Invalid login credentials"|;
  }
}
