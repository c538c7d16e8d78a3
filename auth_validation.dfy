/** The four express-validator rule lists of the auth routes (signup,
    signin, profile update, password update) and the `validate` step that
    turns their collected errors into a 400 reply or lets the request on.

    Every chain runs all of its validators (none of them bails), so a field
    can collect several errors; errors come out chain by chain, in the order
    of the rule list, and within a chain in the order of its validators.
    Sanitizers (`trim`, `normalizeEmail`) write their result back into the
    body, where later chains and the handler read it. */
module AuthValidation {
  import opened Wrappers
  import opened JsStrings
  import opened Messages
  import opened Payload
  import opened Validators
  import opened Http

  /** `isEmail` and `normalizeEmail` are defined by validator.js; the rule
      lists take them as given. A normaliser result of "" stands for any
      falsy result. */
  datatype EmailLib = EmailLib(isEmail: string -> bool, normalize: string -> string)

  /** What a rule list leaves behind: the sanitized body and the errors. */
  datatype Checked = Checked(body: Body, errors: seq<FieldError>)

  const Roles: seq<string> := ["student", "instructor", "admin"]

  const SocialKeys: seq<string> := ["facebook", "twitter", "linkedin", "github", "website"]

  // ---------------------------------------------------------------------
  // The password pattern /^(?=.*[A-Za-z])(?=.*\d)[A-Za-z\d]{9,}$/
  // ---------------------------------------------------------------------

  /** The character classes the pattern uses: [A-Za-z], \d, [A-Za-z\d]. */
  datatype CharClass = Letter | Digit | Word

  predicate InClass(c: char, k: CharClass)
  {
    match k
    case Letter => IsAsciiLetter(c)
    case Digit => IsDigit(c)
    case Word => IsAsciiAlphanumeric(c)
  }

  /** `(?=.*[k])` at the start of `s`: a character of class `k` is reached
      by skipping characters `.` matches. */
  predicate Lookahead(s: string, k: CharClass)
  {
    |s| > 0 && (InClass(s[0], k) || (!IsLineTerminator(s[0]) && Lookahead(s[1..], k)))
  }

  /** `[k]{n,}$` at the start of `s`: the rest of `s` is at least `n`
      characters of class `k`. */
  predicate RepeatToEnd(s: string, k: CharClass, n: nat)
  {
    if s == [] then n == 0
    else InClass(s[0], k) && RepeatToEnd(s[1..], k, if n == 0 then 0 else n - 1)
  }

  /** The whole pattern, read as a regular expression matcher would. */
  predicate MatchesPasswordPattern(s: string)
  {
    Lookahead(s, Letter) && Lookahead(s, Digit) && RepeatToEnd(s, Word, 9)
  }

  /** The password policy in plain words: at least nine characters, only
      ASCII letters and digits, at least one of each. */
  predicate StrongPassword(s: string)
  {
    && |s| >= 9
    && (forall i :: 0 <= i < |s| ==> IsAsciiAlphanumeric(s[i]))
    && (exists i :: 0 <= i < |s| && IsAsciiLetter(s[i]))
    && (exists i :: 0 <= i < |s| && IsDigit(s[i]))
  }

  lemma {:induction false} RepeatToEndMeaning(s: string, k: CharClass, n: nat)
    ensures RepeatToEnd(s, k, n) <==> |s| >= n && forall i :: 0 <= i < |s| ==> InClass(s[i], k)
  {
    if s != [] {
      RepeatToEndMeaning(s[1..], k, if n == 0 then 0 else n - 1);
      if forall i :: 0 <= i < |s| ==> InClass(s[i], k) {
        assert forall i :: 0 <= i < |s[1..]| ==> InClass(s[1..][i], k);
      }
      if forall i :: 0 <= i < |s[1..]| ==> InClass(s[1..][i], k) {
        forall i | 1 <= i < |s| ensures InClass(s[i], k) {
          assert InClass(s[1..][i - 1], k);
        }
      }
    }
  }

  lemma {:induction false} LookaheadMeaning(s: string, k: CharClass)
    requires forall i :: 0 <= i < |s| ==> !IsLineTerminator(s[i])
    ensures Lookahead(s, k) <==> exists i :: 0 <= i < |s| && InClass(s[i], k)
  {
    if s != [] {
      LookaheadMeaning(s[1..], k);
      if i :| 0 <= i < |s| && InClass(s[i], k) {
        if i > 0 {
          assert InClass(s[1..][i - 1], k);
        }
      }
      if j :| 0 <= j < |s[1..]| && InClass(s[1..][j], k) {
        assert InClass(s[j + 1], k);
      }
    }
  }

  /** The pattern accepts exactly the passwords the policy describes. */
  lemma PasswordPatternMeaning(s: string)
    ensures MatchesPasswordPattern(s) <==> StrongPassword(s)
  {
    RepeatToEndMeaning(s, Word, 9);
    if RepeatToEnd(s, Word, 9) || StrongPassword(s) {
      assert forall i :: 0 <= i < |s| ==> !IsLineTerminator(s[i]) by {
        forall i | 0 <= i < |s| ensures !IsLineTerminator(s[i]) {
          assert IsAsciiAlphanumeric(s[i]) by {
            if RepeatToEnd(s, Word, 9) { assert InClass(s[i], Word); }
          }
        }
      }
      LookaheadMeaning(s, Letter);
      LookaheadMeaning(s, Digit);
      if StrongPassword(s) {
        assert forall i :: 0 <= i < |s| ==> InClass(s[i], Word);
        var a :| 0 <= a < |s| && IsAsciiLetter(s[a]);
        assert InClass(s[a], Letter);
        var d :| 0 <= d < |s| && IsDigit(s[d]);
        assert InClass(s[d], Digit);
      }
      if MatchesPasswordPattern(s) {
        var a :| 0 <= a < |s| && InClass(s[a], Letter);
        var d :| 0 <= d < |s| && InClass(s[d], Digit);
        assert forall i :: 0 <= i < |s| ==> InClass(s[i], Word);
      }
    }
  }

  // ---------------------------------------------------------------------
  // The socialLinks key check
  // ---------------------------------------------------------------------

  predicate IsSocialKey(k: string)
  {
    k in SocialKeys
  }

  /** The position of the first key outside the allowed set, or -1. */
  function FirstInvalidIndex(keys: seq<string>): (i: int)
    ensures -1 <= i < |keys|
    ensures 0 <= i ==> !IsSocialKey(keys[i]) && forall j :: 0 <= j < i ==> IsSocialKey(keys[j])
    ensures i == -1 <==> forall j :: 0 <= j < |keys| ==> IsSocialKey(keys[j])
  {
    if keys == [] then -1
    else if !IsSocialKey(keys[0]) then 0
    else
      var j := FirstInvalidIndex(keys[1..]);
      if j < 0 then -1 else j + 1
  }

  /** The key the custom validator throws on: the first one, in key order,
      that is not an allowed social link key. */
  function FirstInvalidKey(keys: seq<string>): (r: Option<string>)
    ensures r.None? <==> forall j :: 0 <= j < |keys| ==> IsSocialKey(keys[j])
    ensures r.Some? ==>
      exists i :: (0 <= i < |keys| && keys[i] == r.value &&
                   !IsSocialKey(keys[i]) && forall j :: 0 <= j < i ==> IsSocialKey(keys[j]))
  {
    var i := FirstInvalidIndex(keys);
    if i < 0 then None else Some(keys[i])
  }

  /** The custom validator's loop: walk the keys and stop at the first one
      that is not allowed. */
  method FindInvalidKey(keys: seq<string>) returns (r: Option<string>)
    ensures r == FirstInvalidKey(keys)
    ensures r.None? <==> forall j :: 0 <= j < |keys| ==> IsSocialKey(keys[j])
    ensures r.Some? ==>
      exists i :: (0 <= i < |keys| && keys[i] == r.value &&
                   !IsSocialKey(keys[i]) && forall j :: 0 <= j < i ==> IsSocialKey(keys[j]))
  {
    var i := 0;
    while i < |keys|
      invariant 0 <= i <= |keys|
      invariant forall j :: 0 <= j < i ==> IsSocialKey(keys[j])
    {
      if !IsSocialKey(keys[i]) {
        return Some(keys[i]);
      }
      i := i + 1;
    }
    return None;
  }

  // ---------------------------------------------------------------------
  // Running a rule list
  // ---------------------------------------------------------------------

  /** One validator of a chain, already applied to the field's value:
      whether it passed, and the message it reports when it does not. */
  datatype Validator = Validator(passes: bool, message: Message)

  /** One `body(field)` chain with the validators that ran on its value;
      an `.optional()` chain whose field is absent ran none. */
  datatype Chain = Chain(field: string, validators: seq<Validator>)

  /** Every validator of the chain passed. */
  predicate Passes(c: Chain)
  {
    forall i :: 0 <= i < |c.validators| ==> c.validators[i].passes
  }

  /** The errors of one chain: one per failed validator, in order. */
  function ChainErrors(c: Chain): (errs: seq<FieldError>)
    ensures AllFor(errs, c.field)
    ensures errs == [] <==> Passes(c)
    decreases |c.validators|
  {
    if c.validators == [] then []
    else
      var v := c.validators[0];
      var rest := ChainErrors(Chain(c.field, c.validators[1..]));
      assert forall i :: 1 <= i < |c.validators| ==> c.validators[i] == c.validators[1..][i - 1];
      (if v.passes then [] else [FieldError(c.field, v.message)]) + rest
  }

  /** How many validators of a list failed. */
  function FailedCount(vs: seq<Validator>): (n: nat)
    ensures n <= |vs|
  {
    if vs == [] then 0 else (if vs[0].passes then 0 else 1) + FailedCount(vs[1..])
  }

  /** Some validator of the list failed with message `m`. */
  predicate FailsWith(vs: seq<Validator>, m: Message)
  {
    exists i :: 0 <= i < |vs| && !vs[i].passes && vs[i].message == m
  }

  lemma FailsWithCons(vs: seq<Validator>, m: Message)
    requires vs != []
    ensures FailsWith(vs, m) <==> (!vs[0].passes && vs[0].message == m) || FailsWith(vs[1..], m)
  {
    if FailsWith(vs, m) {
      var i :| 0 <= i < |vs| && !vs[i].passes && vs[i].message == m;
      if i > 0 {
        assert vs[1..][i - 1] == vs[i];
      }
    }
    if FailsWith(vs[1..], m) {
      var i :| 0 <= i < |vs[1..]| && !vs[1..][i].passes && vs[1..][i].message == m;
      assert vs[i + 1] == vs[1..][i];
    }
  }

  /** A chain reports a message exactly when one of its validators failed
      with it, once per failed validator. */
  lemma {:induction false} ChainErrorsMeaning(c: Chain)
    ensures forall m :: FieldError(c.field, m) in ChainErrors(c) <==> FailsWith(c.validators, m)
    ensures |ChainErrors(c)| == FailedCount(c.validators)
    decreases |c.validators|
  {
    if c.validators != [] {
      var vs := c.validators;
      var tail := Chain(c.field, vs[1..]);
      ChainErrorsMeaning(tail);
      var head := if vs[0].passes then [] else [FieldError(c.field, vs[0].message)];
      assert ChainErrors(c) == head + ChainErrors(tail);
      forall m
        ensures FieldError(c.field, m) in ChainErrors(c) <==> FailsWith(vs, m)
      {
        FailsWithCons(vs, m);
      }
    }
  }


  // ---------------------------------------------------------------------
  // Shared pieces of the chains
  // ---------------------------------------------------------------------

  /** `body(name).trim()`: the field's text with its edges trimmed. */
  function Trimmed(b: Body, name: string): string
  {
    Trim(ToStr(Get(b, name)))
  }

  /** `isAlpha("en-US", {ignore: " -"})` then `isLength({min: 3, max: 30})`. */
  function NameValidators(v: string, alphaMessage: Message, lengthMessage: Message): seq<Validator>
  {
    [Validator(IsAlpha(v, " -"), alphaMessage), Validator(3 <= |v| <= 30, lengthMessage)]
  }

  /** `isLength({min: 9})` then the password pattern. */
  function PasswordValidators(v: string, patternMessage: Message): seq<Validator>
  {
    [Validator(|v| >= 9, PasswordTooShort),
     Validator(MatchesPasswordPattern(v), patternMessage)]
  }

  /** `isObject()` then the custom closed-key-set check, whose message
      names the first key outside the set. */
  function SocialLinksValidators(v: Value): seq<Validator>
  {
    var bad := FirstInvalidKey(OwnKeys(v));
    [Validator(v.Object?, SocialLinksNotObject),
     Validator(bad.None?, SocialLinkKeyInvalid(if bad.Some? then bad.value else ""))]
  }

  /** A first or last name the rules accept. */
  predicate NameOk(s: string)
  {
    && 3 <= |s| <= 30
    && (forall i :: 0 <= i < |s| ==> IsAsciiLetter(s[i]) || s[i] == ' ' || s[i] == '-')
    && (exists i :: 0 <= i < |s| && IsAsciiLetter(s[i]))
  }

  /** A socialLinks value the rules accept: an object whose keys are all allowed. */
  predicate SocialLinksOk(v: Value)
  {
    v.Object? && forall i :: 0 <= i < |v.entries| ==> IsSocialKey(v.entries[i].0)
  }

  /** The socialLinks validators pass exactly on `SocialLinksOk` values; on
      an object with a bad key only the key check fails, naming the first. */
  lemma SocialLinksValidatorsMeaning(v: Value)
    ensures Passes(Chain("socialLinks", SocialLinksValidators(v))) <==> SocialLinksOk(v)
    ensures v.Object? && FirstInvalidKey(OwnKeys(v)).Some? ==>
      ChainErrors(Chain("socialLinks", SocialLinksValidators(v))) ==
        [FieldError("socialLinks", SocialLinkKeyInvalid(FirstInvalidKey(OwnKeys(v)).value))]
  {
    var vs := SocialLinksValidators(v);
    assert vs[0].passes == v.Object? && vs[1].passes == FirstInvalidKey(OwnKeys(v)).None?;
    if v.Object? {
      var keys := OwnKeys(v);
      assert forall i :: 0 <= i < |keys| ==> keys[i] == v.entries[i].0;
    }
  }

  /** A required name chain of the signup list (`firstname`, `lastname`) on
      the trimmed value `v`: `notEmpty()` then the name validators. */
  function RequiredNameChain(field: string, v: string, requiredMessage: Message,
                             alphaMessage: Message, lengthMessage: Message): Chain
  {
    Chain(field, [Validator(v != "", requiredMessage)] + NameValidators(v, alphaMessage, lengthMessage))
  }

  lemma RequiredNameChainMeaning(field: string, v: string, requiredMessage: Message,
                                 alphaMessage: Message, lengthMessage: Message)
    ensures Passes(RequiredNameChain(field, v, requiredMessage, alphaMessage, lengthMessage))
      <==> NameOk(v)
  {
    var vs := RequiredNameChain(field, v, requiredMessage, alphaMessage, lengthMessage).validators;
    assert vs[0].passes == (v != "") && vs[1].passes == IsAlpha(v, " -") && vs[2].passes == (3 <= |v| <= 30);
    IsAlphaLettersSpacesHyphens(v);
  }

  /** A required password chain (`password`, `newPassword`) on the trimmed
      value `v`: `notEmpty()` then the password validators. */
  function RequiredPasswordChain(field: string, v: string, requiredMessage: Message, patternMessage: Message): Chain
  {
    Chain(field, [Validator(v != "", requiredMessage)] + PasswordValidators(v, patternMessage))
  }

  lemma RequiredPasswordChainMeaning(field: string, v: string, requiredMessage: Message, patternMessage: Message)
    ensures Passes(RequiredPasswordChain(field, v, requiredMessage, patternMessage))
      <==> StrongPassword(v)
  {
    var vs := RequiredPasswordChain(field, v, requiredMessage, patternMessage).validators;
    assert vs[0].passes == (v != "") && vs[1].passes == (|v| >= 9) && vs[2].passes == MatchesPasswordPattern(v);
    PasswordPatternMeaning(v);
  }

  /** An optional chain with one validator (`optional().<check>`):
      `present` says whether the field is in the body. */
  function OptionalChain(field: string, present: bool, passes: bool, message: Message): Chain
  {
    Chain(field, if present then [Validator(passes, message)] else [])
  }

  lemma OptionalChainMeaning(field: string, present: bool, passes: bool, message: Message)
    ensures Passes(OptionalChain(field, present, passes, message)) <==> (present ==> passes)
  {
    if present {
      assert OptionalChain(field, present, passes, message).validators[0].passes == passes;
    }
  }

  /** The socialLinks chain, shared by signup and profile update. */
  function SocialLinksChain(v: Field): Chain
  {
    Chain("socialLinks", if v.Some? then SocialLinksValidators(v.value) else [])
  }

  lemma SocialLinksChainMeaning(v: Field)
    ensures Passes(SocialLinksChain(v)) <==> (v.Some? ==> SocialLinksOk(v.value))
  {
    if v.Some? {
      SocialLinksValidatorsMeaning(v.value);
    }
  }


  /** An optional name chain of the profile-update list: when the field was
      sent, its trimmed value `v` meets the name validators. */
  function OptionalNameChain(field: string, v: Option<string>, alphaMessage: Message, lengthMessage: Message): Chain
  {
    Chain(field, if v.Some? then NameValidators(v.value, alphaMessage, lengthMessage) else [])
  }

  lemma OptionalNameChainMeaning(field: string, v: Option<string>, alphaMessage: Message, lengthMessage: Message)
    ensures Passes(OptionalNameChain(field, v, alphaMessage, lengthMessage)) <==> (v.Some? ==> NameOk(v.value))
  {
    if v.Some? {
      var vs := OptionalNameChain(field, v, alphaMessage, lengthMessage).validators;
      assert vs[0].passes == IsAlpha(v.value, " -") && vs[1].passes == (3 <= |v.value| <= 30);
      IsAlphaLettersSpacesHyphens(v.value);
    }
  }

  // ---------------------------------------------------------------------
  // signupValidationRules
  // ---------------------------------------------------------------------

  /** What the signup chains read from a body: the five basic fields after
      `trim()`, the optional ones as they came. */
  datatype SignupInput = SignupInput(
    firstname: string, lastname: string, username: string, email: string, password: string,
    role: Field, bio: Field, title: Field, experience: Field, socialLinks: Field)

  function SignupInputOf(b: Body): SignupInput
  {
    SignupInput(Trimmed(b, "firstname"), Trimmed(b, "lastname"), Trimmed(b, "username"),
                Trimmed(b, "email"), Trimmed(b, "password"),
                Get(b, "role"), Get(b, "bio"), Get(b, "title"), Get(b, "experience"), Get(b, "socialLinks"))
  }

  /** The signup `username` chain on the trimmed value. */
  function SignupUsernameChain(v: string): Chain
  {
    Chain("username", [Validator(v != "", UsernameRequired),
                       Validator(IsAlphanumeric(v), UsernameNotAlphanumeric),
                       Validator(3 <= |v| <= 15, UsernameLength)])
  }

  lemma SignupUsernameChainMeaning(v: string)
    ensures Passes(SignupUsernameChain(v)) <==> 3 <= |v| <= 15 && IsAlphanumeric(v)
  {
    var vs := SignupUsernameChain(v).validators;
    assert vs[0].passes == (v != "") && vs[1].passes == IsAlphanumeric(v) && vs[2].passes == (3 <= |v| <= 15);
  }

  /** The signup `email` chain on the trimmed value. */
  function SignupEmailChain(v: string, lib: EmailLib): Chain
  {
    Chain("email", [Validator(v != "", EmailRequired), Validator(lib.isEmail(v), EmailInvalid)])
  }

  lemma SignupEmailChainMeaning(v: string, lib: EmailLib)
    ensures Passes(SignupEmailChain(v, lib)) <==> v != "" && lib.isEmail(v)
  {
    var vs := SignupEmailChain(v, lib).validators;
    assert vs[0].passes == (v != "") && vs[1].passes == lib.isEmail(v);
  }

  /** The errors of the five basic chains (firstname, lastname, username,
      email, password), in list order. */
  function SignupBasicErrors(s: SignupInput, lib: EmailLib): seq<FieldError>
  {
    ChainErrors(RequiredNameChain("firstname", s.firstname, FirstnameRequired,
      FirstnameNotAlpha, FirstnameLength))
    + ChainErrors(RequiredNameChain("lastname", s.lastname, LastnameRequired,
      LastnameNotAlpha, LastnameLength))
    + ChainErrors(SignupUsernameChain(s.username))
    + ChainErrors(SignupEmailChain(s.email, lib))
    + ChainErrors(RequiredPasswordChain("password", s.password, PasswordRequired,
      PasswordWeak))
  }

  /** The errors of the five optional chains (role, bio, title, experience,
      socialLinks), in list order. */
  function SignupOptionalErrors(s: SignupInput): seq<FieldError>
  {
    ChainErrors(OptionalChain("role", s.role.Some?, ToStr(s.role) in Roles,
      RoleInvalid))
    + ChainErrors(OptionalChain("bio", s.bio.Some?, |ToStr(s.bio)| <= 500, BioTooLong))
    + ChainErrors(OptionalChain("title", s.title.Some?, |ToStr(s.title)| <= 100,
      TitleTooLong))
    + ChainErrors(OptionalChain("experience", s.experience.Some?, IsInt(ToStr(s.experience), 0, 100),
      ExperienceOutOfRange))
    + ChainErrors(SocialLinksChain(s.socialLinks))
  }

  /** The basic fields a signup needs, in plain terms. */
  predicate SignupBasicOk(s: SignupInput, lib: EmailLib)
  {
    && NameOk(s.firstname)
    && NameOk(s.lastname)
    && 3 <= |s.username| <= 15 && IsAlphanumeric(s.username)
    && s.email != "" && lib.isEmail(s.email)
    && StrongPassword(s.password)
  }

  /** The optional fields of a signup, in plain terms: each one, when sent,
      is acceptable. */
  predicate SignupOptionalOk(s: SignupInput)
  {
    && (s.role.Some? ==> ToStr(s.role) in Roles)
    && (s.bio.Some? ==> |ToStr(s.bio)| <= 500)
    && (s.title.Some? ==> |ToStr(s.title)| <= 100)
    && (s.experience.Some? ==> IsInt(ToStr(s.experience), 0, 100))
    && (s.socialLinks.Some? ==> SocialLinksOk(s.socialLinks.value))
  }

  lemma SignupBasicAccepts(s: SignupInput, lib: EmailLib)
    ensures SignupBasicErrors(s, lib) == [] <==> SignupBasicOk(s, lib)
  {
    RequiredNameChainMeaning("firstname", s.firstname, FirstnameRequired,
      FirstnameNotAlpha, FirstnameLength);
    RequiredNameChainMeaning("lastname", s.lastname, LastnameRequired,
      LastnameNotAlpha, LastnameLength);
    SignupUsernameChainMeaning(s.username);
    SignupEmailChainMeaning(s.email, lib);
    RequiredPasswordChainMeaning("password", s.password, PasswordRequired,
      PasswordWeak);
  }

  lemma SignupOptionalAccepts(s: SignupInput)
    ensures SignupOptionalErrors(s) == [] <==> SignupOptionalOk(s)
  {
    OptionalChainMeaning("role", s.role.Some?, ToStr(s.role) in Roles,
      RoleInvalid);
    OptionalChainMeaning("bio", s.bio.Some?, |ToStr(s.bio)| <= 500, BioTooLong);
    OptionalChainMeaning("title", s.title.Some?, |ToStr(s.title)| <= 100,
      TitleTooLong);
    OptionalChainMeaning("experience", s.experience.Some?, IsInt(ToStr(s.experience), 0, 100),
      ExperienceOutOfRange);
    SocialLinksChainMeaning(s.socialLinks);
  }

  /** The fields the signup sanitizers write back. */
  const SignupSanitized: set<string> := {"firstname", "lastname", "username", "email", "password"}

  /** The body after the signup sanitizers: the five basic fields trimmed,
      the email then normalised, every other field as it came. */
  function SignupBody(b: Body, lib: EmailLib): (r: Body)
    ensures Get(r, "firstname") == Some(Text(SignupInputOf(b).firstname))
    ensures Get(r, "lastname") == Some(Text(SignupInputOf(b).lastname))
    ensures Get(r, "username") == Some(Text(SignupInputOf(b).username))
    ensures Get(r, "email") == Some(Text(lib.normalize(SignupInputOf(b).email)))
    ensures Get(r, "password") == Some(Text(SignupInputOf(b).password))
    ensures forall k :: k in b && k !in SignupSanitized ==> k in r && r[k] == b[k]
  {
    WriteBackSignup(b, SignupInputOf(b), lib)
  }

  /** Writes the sanitized basic fields of `s` back into `b`. */
  function WriteBackSignup(b: Body, s: SignupInput, lib: EmailLib): (r: Body)
    ensures Get(r, "firstname") == Some(Text(s.firstname))
    ensures Get(r, "lastname") == Some(Text(s.lastname))
    ensures Get(r, "username") == Some(Text(s.username))
    ensures Get(r, "email") == Some(Text(lib.normalize(s.email)))
    ensures Get(r, "password") == Some(Text(s.password))
    ensures forall k :: k in b && k !in SignupSanitized ==> k in r && r[k] == b[k]
  {
    b["firstname" := Text(s.firstname)]["lastname" := Text(s.lastname)]
     ["username" := Text(s.username)]["email" := Text(lib.normalize(s.email))]
     ["password" := Text(s.password)]
  }

  /** `signupValidationRules` run on a request body. */
  function SignupRules(b: Body, lib: EmailLib): Checked
  {
    Checked(SignupBody(b, lib), SignupErrors(SignupInputOf(b), lib))
  }

  /** The errors of the whole signup list. */
  function SignupErrors(s: SignupInput, lib: EmailLib): seq<FieldError>
  {
    SignupBasicErrors(s, lib) + SignupOptionalErrors(s)
  }

  lemma SignupErrorsMeaning(s: SignupInput, lib: EmailLib)
    ensures SignupErrors(s, lib) == [] <==> SignupBasicOk(s, lib) && SignupOptionalOk(s)
  {
    SignupBasicAccepts(s, lib);
    SignupOptionalAccepts(s);
  }

  /** The signup rules report no error exactly when the basic fields are
      acceptable and every optional field sent is too. */
  lemma SignupAccepts(b: Body, lib: EmailLib)
    ensures SignupRules(b, lib).errors == [] <==>
      SignupBasicOk(SignupInputOf(b), lib) && SignupOptionalOk(SignupInputOf(b))
  {
    SignupErrorsMeaning(SignupInputOf(b), lib);
  }

  /** A numeric experience passes `isInt({min: 0, max: 100})` exactly when
      it lies between 0 and 100. */
  lemma SignupExperienceNumber(s: SignupInput, n: int)
    requires s.experience == Some(Number(n))
    ensures SignupOptionalOk(s) ==> 0 <= n <= 100
    ensures (0 <= n <= 100 && SignupOptionalOk(s.(experience := None))) ==> SignupOptionalOk(s)
  {
    IsIntOfNumber(n, 0, 100);
  }

  // ---------------------------------------------------------------------
  // signInValidationRules
  // ---------------------------------------------------------------------

  /** What the signin chains read from a body: username and email as they
      came, the password after `trim()`. */
  datatype SigninInput = SigninInput(username: Field, email: Field, password: string)

  function SigninInputOf(b: Body): SigninInput
  {
    SigninInput(Get(b, "username"), Get(b, "email"), Trimmed(b, "password"))
  }

  /** The email as `normalizeEmail()` leaves it in the body, when one was sent. */
  function SanitizedEmail(s: SigninInput, lib: EmailLib): Field
  {
    if s.email.Some? then Some(Text(lib.normalize(ToStr(s.email)))) else None
  }

  /** The body after the signin sanitizers: a sent email normalised, the
      password trimmed, everything else as it came. */
  function SigninBody(b: Body, lib: EmailLib): (r: Body)
    ensures Get(r, "email") == SanitizedEmail(SigninInputOf(b), lib)
    ensures Get(r, "username") == Get(b, "username")
    ensures Get(r, "password") == Some(Text(Trimmed(b, "password")))
    ensures forall k :: k in b && k != "email" && k != "password" ==> k in r && r[k] == b[k]
  {
    var withEmail := if "email" in b then b["email" := Text(lib.normalize(ToStr(Get(b, "email"))))] else b;
    withEmail["password" := Text(Trimmed(b, "password"))]
  }

  /** The errors of the four signin chains, in list order. The last one is
      the whole-body check: it reads the body the chains before it have
      sanitized and reports under the empty field name. */
  function SigninErrors(s: SigninInput, lib: EmailLib): seq<FieldError>
  {
    ChainErrors(OptionalChain("username", s.username.Some?, IsAlphanumeric(ToStr(s.username)),
      UsernameNotAlphanumeric))
    + ChainErrors(OptionalChain("email", s.email.Some?, lib.isEmail(ToStr(s.email)), SigninEmailInvalid))
    + ChainErrors(Chain("password", [Validator(s.password != "", SigninPasswordRequired)]))
    + ChainErrors(Chain("", [Validator(Truthy(SanitizedEmail(s, lib)) || Truthy(s.username),
                                       UsernameOrEmailRequired)]))
  }

  /** `signInValidationRules` run on a request body. */
  function SigninRules(b: Body, lib: EmailLib): Checked
  {
    Checked(SigninBody(b, lib), SigninErrors(SigninInputOf(b), lib))
  }

  /** A signin the rules accept, in plain terms: a sent username is
      alphanumeric, a sent email is an address, the password is not blank,
      and a username or an email survives sanitizing. */
  predicate SigninAcceptable(s: SigninInput, lib: EmailLib)
  {
    && (s.username.Some? ==> IsAlphanumeric(ToStr(s.username)))
    && (s.email.Some? ==> lib.isEmail(ToStr(s.email)))
    && s.password != ""
    && ((s.email.Some? && lib.normalize(ToStr(s.email)) != "") || Truthy(s.username))
  }

  lemma SigninAccepts(b: Body, lib: EmailLib)
    ensures SigninRules(b, lib).errors == [] <==> SigninAcceptable(SigninInputOf(b), lib)
  {
    var s := SigninInputOf(b);
    OptionalChainMeaning("username", s.username.Some?, IsAlphanumeric(ToStr(s.username)), UsernameNotAlphanumeric);
    OptionalChainMeaning("email", s.email.Some?, lib.isEmail(ToStr(s.email)), SigninEmailInvalid);
    var password := Chain("password", [Validator(s.password != "", SigninPasswordRequired)]);
    assert password.validators[0].passes == (s.password != "");
    var either := Chain("", [Validator(Truthy(SanitizedEmail(s, lib)) || Truthy(s.username), UsernameOrEmailRequired)]);
    assert either.validators[0].passes == (Truthy(SanitizedEmail(s, lib)) || Truthy(s.username));
  }

  // ---------------------------------------------------------------------
  // profileUpdateValidationRules
  // ---------------------------------------------------------------------

  /** What the profile-update chains read from a body: a sent first or
      last name after `trim()`, the other fields as they came. */
  datatype ProfileInput = ProfileInput(
    firstname: Option<string>, lastname: Option<string>,
    bio: Field, title: Field, experience: Field, socialLinks: Field)

  function ProfileInputOf(b: Body): ProfileInput
  {
    ProfileInput(if "firstname" in b then Some(Trimmed(b, "firstname")) else None,
                 if "lastname" in b then Some(Trimmed(b, "lastname")) else None,
                 Get(b, "bio"), Get(b, "title"), Get(b, "experience"), Get(b, "socialLinks"))
  }

  /** The body after the profile-update sanitizers: a sent first or last
      name trimmed. */
  function ProfileBody(b: Body): Body
  {
    var withFirst := if "firstname" in b then b["firstname" := Text(Trimmed(b, "firstname"))] else b;
    if "lastname" in b then withFirst["lastname" := Text(Trimmed(b, "lastname"))] else withFirst
  }

  /** The errors of the six profile-update chains, in list order; every
      chain is optional. */
  function ProfileErrors(p: ProfileInput): seq<FieldError>
  {
    ChainErrors(OptionalNameChain("firstname", p.firstname,
      FirstnameNotAlpha, FirstnameLength))
    + ChainErrors(OptionalNameChain("lastname", p.lastname,
      LastnameNotAlpha, LastnameLength))
    + ChainErrors(OptionalChain("bio", p.bio.Some?, |ToStr(p.bio)| <= 500, BioExceeds))
    + ChainErrors(OptionalChain("title", p.title.Some?, |ToStr(p.title)| <= 100, TitleExceeds))
    + ChainErrors(OptionalChain("experience", p.experience.Some?, |ToStr(p.experience)| <= 100, ExperienceExceeds))
    + ChainErrors(SocialLinksChain(p.socialLinks))
  }

  /** `profileUpdateValidationRules` run on a request body. */
  function ProfileRules(b: Body): Checked
  {
    Checked(ProfileBody(b), ProfileErrors(ProfileInputOf(b)))
  }

  /** A profile update the rules accept: every field sent is acceptable. */
  predicate ProfileAcceptable(p: ProfileInput)
  {
    && (p.firstname.Some? ==> NameOk(p.firstname.value))
    && (p.lastname.Some? ==> NameOk(p.lastname.value))
    && (p.bio.Some? ==> |ToStr(p.bio)| <= 500)
    && (p.title.Some? ==> |ToStr(p.title)| <= 100)
    && (p.experience.Some? ==> |ToStr(p.experience)| <= 100)
    && (p.socialLinks.Some? ==> SocialLinksOk(p.socialLinks.value))
  }

  lemma ProfileErrorsMeaning(p: ProfileInput)
    ensures ProfileErrors(p) == [] <==> ProfileAcceptable(p)
  {
    OptionalNameChainMeaning("firstname", p.firstname,
      FirstnameNotAlpha, FirstnameLength);
    OptionalNameChainMeaning("lastname", p.lastname,
      LastnameNotAlpha, LastnameLength);
    OptionalChainMeaning("bio", p.bio.Some?, |ToStr(p.bio)| <= 500, BioExceeds);
    OptionalChainMeaning("title", p.title.Some?, |ToStr(p.title)| <= 100, TitleExceeds);
    OptionalChainMeaning("experience", p.experience.Some?, |ToStr(p.experience)| <= 100, ExperienceExceeds);
    SocialLinksChainMeaning(p.socialLinks);
  }

  lemma ProfileAccepts(b: Body)
    ensures ProfileRules(b).errors == [] <==> ProfileAcceptable(ProfileInputOf(b))
  {
    ProfileErrorsMeaning(ProfileInputOf(b));
  }

  /** The two lists read `experience` differently: signup wants an integer
      from 0 to 100, profile update only text of at most 100 characters, so
      500 passes the second and not the first. */
  lemma ExperienceRulesDiffer(s: SignupInput, p: ProfileInput)
    requires s.experience == Some(Number(500)) && p.experience == Some(Number(500))
    ensures !SignupOptionalOk(s)
    ensures p.experience.Some? && |ToStr(p.experience)| <= 100
  {
    IsIntOfNumber(500, 0, 100);
    assert IntToString(500) == "500";
  }

  // ---------------------------------------------------------------------
  // passwordUpdateValidationRules
  // ---------------------------------------------------------------------

  /** What the password-update chains read: the three fields after `trim()`.
      `newPassword` is also what the confirmation is compared with, since
      its chain has written the trimmed value back by then. */
  datatype PasswordInput = PasswordInput(current: string, newPassword: string, confirm: string)

  function PasswordInputOf(b: Body): PasswordInput
  {
    PasswordInput(Trimmed(b, "currentPassword"), Trimmed(b, "newPassword"), Trimmed(b, "confirmPassword"))
  }

  /** The body after the password-update sanitizers: all three fields trimmed. */
  function PasswordUpdateBody(b: Body): Body
  {
    b["currentPassword" := Text(Trimmed(b, "currentPassword"))]
     ["newPassword" := Text(Trimmed(b, "newPassword"))]
     ["confirmPassword" := Text(Trimmed(b, "confirmPassword"))]
  }

  /** The confirmPassword chain: `notEmpty()`, then the custom check that
      the value equals `req.body.newPassword`. */
  function ConfirmChain(p: PasswordInput): Chain
  {
    Chain("confirmPassword", [Validator(p.confirm != "", ConfirmPasswordRequired),
                              Validator(p.confirm == p.newPassword, PasswordsDiffer)])
  }

  /** The errors of the three password-update chains, in list order. */
  function PasswordUpdateErrors(p: PasswordInput): seq<FieldError>
  {
    ChainErrors(Chain("currentPassword", [Validator(p.current != "", CurrentPasswordRequired)]))
    + ChainErrors(RequiredPasswordChain("newPassword", p.newPassword, NewPasswordRequired, NewPasswordWeak))
    + ChainErrors(ConfirmChain(p))
  }

  /** `passwordUpdateValidationRules` run on a request body. */
  function PasswordUpdateRules(b: Body): Checked
  {
    Checked(PasswordUpdateBody(b), PasswordUpdateErrors(PasswordInputOf(b)))
  }

  /** A password update the rules accept: the current password is not
      blank, the new one is strong, and the confirmation repeats it. */
  predicate PasswordUpdateAcceptable(p: PasswordInput)
  {
    p.current != "" && StrongPassword(p.newPassword) && p.confirm == p.newPassword
  }

  lemma PasswordUpdateErrorsMeaning(p: PasswordInput)
    ensures PasswordUpdateErrors(p) == [] <==> PasswordUpdateAcceptable(p)
  {
    var current := Chain("currentPassword", [Validator(p.current != "", CurrentPasswordRequired)]);
    assert current.validators[0].passes == (p.current != "");
    RequiredPasswordChainMeaning("newPassword", p.newPassword, NewPasswordRequired, NewPasswordWeak);
    assert ConfirmChain(p).validators[1].passes == (p.confirm == p.newPassword);
  }

  lemma PasswordUpdateAccepts(b: Body)
    ensures PasswordUpdateRules(b).errors == [] <==> PasswordUpdateAcceptable(PasswordInputOf(b))
  {
    PasswordUpdateErrorsMeaning(PasswordInputOf(b));
  }

  /** "Password do not match" is reported, under confirmPassword, exactly
      when the trimmed confirmation differs from the trimmed new password. */
  lemma PasswordMismatchReported(p: PasswordInput)
    ensures FieldError("confirmPassword", PasswordsDiffer) in PasswordUpdateErrors(p)
      <==> p.confirm != p.newPassword
  {
    var c := ConfirmChain(p);
    assert c.validators[1..][1..] == [];
    assert ChainErrors(Chain(c.field, c.validators[1..])) ==
      if p.confirm == p.newPassword then [] else [FieldError("confirmPassword", PasswordsDiffer)];
  }

  // ---------------------------------------------------------------------
  // validate
  // ---------------------------------------------------------------------

  /** `validate`: with no errors the request moves on; otherwise a 400
      reply carries every error, in order, as `{field, message}`. */
  function Validate(errors: seq<FieldError>): (o: Outcome)
    ensures o.Next? <==> errors == []
    ensures o.Respond? ==> o.reply == Reply(400, false, Some("Validation Failed"), None, None, errors)
  {
    if errors == [] then Next else Respond(Reply(400, false, Some("Validation Failed"), None, None, errors))
  }
}
