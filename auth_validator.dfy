/** The express-validator chains `registerValidation` and `loginValidation`,
    as functions from a request body to the error messages the chains
    collect (every failing rule reports, in chain order) and, when there are
    none, the sanitized body. `isEmail` and `normalizeEmail` are left
    abstract. No route applies these chains, so nothing here constrains what
    the controller receives. */
module AuthValidator {
  import opened Wrappers
  import opened Strings
  import opened Token
  import opened UserModel
  import opened AuthController
  import opened ValidationChain

  /** express-validator's `isEmail` test and `normalizeEmail` sanitizer. */
  datatype EmailRules = EmailRules(isEmail: string -> bool, normalizeEmail: string -> string)

  /** The `withMessage` texts of the two chains, one constructor each. */
  datatype AuthMessage =
    | NameRequired | EmailRequired | InvalidEmailFormat | PasswordRequired
    | PasswordTooShort | PasswordNeedsUppercase | PasswordNeedsNumber
    | ValidEmailRequired
  {
    function Text(): string {
      match this
      case NameRequired => "Name is required"
      case EmailRequired => "Email is required"
      case InvalidEmailFormat => "Invalid email format"
      case PasswordRequired => "Password is required"
      case PasswordTooShort => "Password must be atleast 6 characters long"
      case PasswordNeedsUppercase => "Password must contain a uppercase letter"
      case PasswordNeedsNumber => "Password must contain a number"
      case ValidEmailRequired => "Valid email is required"
    }
  }

  /** `.isLength({ min: 6 })`, `.matches(/[A-Z]/)` and `.matches(/[0-9]/)`. */
  predicate StrongPassword(p: string) {
    MeasuredLength(p) >= 6 && HasAsciiUpper(p) && HasAsciiDigit(p)
  }

  /** The rules of `registerValidation` in chain order: name, email, password. */
  const REGISTER_RULES: seq<AuthMessage> :=
    [NameRequired, EmailRequired, InvalidEmailFormat,
     PasswordRequired, PasswordTooShort, PasswordNeedsUppercase, PasswordNeedsNumber]

  /** The rule behind message `m` fails for the registration body `b`. */
  predicate RegisterRuleFails(rules: EmailRules, b: RegisterBody, m: AuthMessage) {
    match m
    case NameRequired => !NotEmpty(b.name)
    case EmailRequired => !NotEmpty(b.email)
    case InvalidEmailFormat => !rules.isEmail(AsString(b.email))
    case PasswordRequired => !NotEmpty(b.password)
    case PasswordTooShort => MeasuredLength(AsString(b.password)) < 6
    case PasswordNeedsUppercase => !HasAsciiUpper(AsString(b.password))
    case PasswordNeedsNumber => !HasAsciiDigit(AsString(b.password))
    case _ => false
  }

  /** Only the seven registration rules can fail. */
  lemma RegisterFailuresAreListed(rules: EmailRules, b: RegisterBody, m: AuthMessage)
    requires RegisterRuleFails(rules, b, m)
    ensures m in REGISTER_RULES
  {
  }

  /** No registration rule fails exactly when the body meets every rule. */
  lemma NoRegisterRuleFails(rules: EmailRules, b: RegisterBody)
    ensures (forall m :: !RegisterRuleFails(rules, b, m)) <==>
      NotEmpty(b.name) && NotEmpty(b.email) && rules.isEmail(AsString(b.email)) && StrongPassword(AsString(b.password))
  {
    if forall m :: !RegisterRuleFails(rules, b, m) {
      assert !RegisterRuleFails(rules, b, NameRequired) && !RegisterRuleFails(rules, b, EmailRequired);
      assert !RegisterRuleFails(rules, b, InvalidEmailFormat) && !RegisterRuleFails(rules, b, PasswordTooShort);
      assert !RegisterRuleFails(rules, b, PasswordNeedsUppercase) && !RegisterRuleFails(rules, b, PasswordNeedsNumber);
    }
  }

  /** The messages `registerValidation` collects: each appears exactly when
      its rule fails, and none do exactly when the body meets every rule. */
  function RegisterErrors(rules: EmailRules, b: RegisterBody): (errs: seq<AuthMessage>)
    ensures forall m :: m in errs <==> RegisterRuleFails(rules, b, m)
    ensures errs == [] <==>
      NotEmpty(b.name) && NotEmpty(b.email) && rules.isEmail(AsString(b.email)) && StrongPassword(AsString(b.password))
  {
    var errs := Failing(REGISTER_RULES, m => RegisterRuleFails(rules, b, m));
    assert forall m :: m in errs <==> RegisterRuleFails(rules, b, m) by {
      forall m | RegisterRuleFails(rules, b, m) ensures m in REGISTER_RULES {
        RegisterFailuresAreListed(rules, b, m);
      }
    }
    NoRegisterRuleFails(rules, b);
    assert errs != [] ==> errs[0] in errs;
    errs
  }

  /** `registerValidation`: accepted exactly when no rule fails, and then the
      email the handler would see is the normalized one. */
  function RegisterValidation(rules: EmailRules, b: RegisterBody): (r: Validation<RegisterBody, AuthMessage>)
    ensures r.Accepted? <==>
      NotEmpty(b.name) && NotEmpty(b.email) && rules.isEmail(b.email.value) && StrongPassword(AsString(b.password))
    ensures r.Accepted? ==>
      r.body == b.(email := Given(rules.normalizeEmail(b.email.value)))
      && r.body.password.Given? && |r.body.password.value| >= 6
    ensures r.Rejected? ==> r.errors == RegisterErrors(rules, b) && r.errors != []
  {
    var errs := RegisterErrors(rules, b);
    if errs == [] then Accepted(b.(email := Given(rules.normalizeEmail(b.email.value))))
    else Rejected(errs)
  }

  /** The rules of `loginValidation` in chain order. */
  const LOGIN_RULES: seq<AuthMessage> := [ValidEmailRequired, PasswordRequired]

  /** The rule behind message `m` fails for the login body `b`. */
  predicate LoginRuleFails(rules: EmailRules, b: LoginBody, m: AuthMessage) {
    match m
    case ValidEmailRequired => !rules.isEmail(AsString(b.email))
    case PasswordRequired => !NotEmpty(b.password)
    case _ => false
  }

  /** The messages `loginValidation` collects. */
  function LoginErrors(rules: EmailRules, b: LoginBody): (errs: seq<AuthMessage>)
    ensures forall m :: m in errs <==> LoginRuleFails(rules, b, m)
    ensures errs == [] <==> rules.isEmail(AsString(b.email)) && NotEmpty(b.password)
  {
    Failing(LOGIN_RULES, m => LoginRuleFails(rules, b, m))
  }

  /** `loginValidation`: a well-formed email and any non-empty password; there
      are no strength rules and no sanitizer. */
  function LoginValidation(rules: EmailRules, b: LoginBody): (r: Validation<LoginBody, AuthMessage>)
    ensures r.Accepted? <==> rules.isEmail(AsString(b.email)) && NotEmpty(b.password)
    ensures r.Accepted? ==> r.body == b
    ensures r.Rejected? ==> r.errors == LoginErrors(rules, b) && r.errors != []
  {
    var errs := LoginErrors(rules, b);
    if errs == [] then Accepted(b) else Rejected(errs)
  }

  /** A body that passes the registration rules passes the login rules with
      the same email and password: login's rules are weaker. */
  lemma RegisterRulesImplyLoginRules(rules: EmailRules, b: RegisterBody)
    requires RegisterValidation(rules, b).Accepted?
    ensures LoginValidation(rules, LoginBody(b.email, b.password)).Accepted?
  {
  }

  /** `Secret1` meets the password rules; dropping its capital, its digit or
      its length breaks exactly that rule. */
  lemma ExamplePasswords()
    ensures StrongPassword("Secret1")
    ensures !HasAsciiUpper("secret1") && MeasuredLength("secret1") >= 6 && HasAsciiDigit("secret1")
    ensures !HasAsciiDigit("Secretx") && MeasuredLength("Secretx") >= 6 && HasAsciiUpper("Secretx")
    ensures MeasuredLength("Sec1") < 6 && HasAsciiUpper("Sec1") && HasAsciiDigit("Sec1")
  {
    assert IsAsciiUpper("Secret1"[0]) && IsAsciiDigit("Secret1"[6]);
    assert IsAsciiDigit("secret1"[6]);
    assert IsAsciiUpper("Secretx"[0]);
    assert IsAsciiUpper("Sec1"[0]) && IsAsciiDigit("Sec1"[3]);
  }

  /** The chains guard no route: `registerUser` stores a user whose one-letter
      password `registerValidation` would have refused. */
  lemma UnguardedRegisterAcceptsWeakPassword(rules: EmailRules, h: Hasher, users: Users, id: UserId, salt: string)
    requires id !in users && !EmailTaken(users, "a@x.com") && h.hash("a", salt) != ""
    ensures
      var b := RegisterBody(Given("A"), Given("a@x.com"), Given("a"));
      RegisterValidation(rules, b).Rejected? && Register(h, users, b, id, salt).reply.Registered?
  {
    assert IsTrimmed("A");
    assert IsLowerCase("a@x.com");
  }
}
