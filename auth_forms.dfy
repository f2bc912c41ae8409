/** The login and register pages: the client-side form checks, the
    password-strength meter, the browser session record and its expiry,
    and the legacy in-memory account list. */
module AuthForms {
  import opened Opt
  import opened Store
  import opened Seqs
  import opened Tracker
  import JsString

  // ---------------------------------------------------------------- email

  /** A character of the class `[^\s@]`. */
  predicate EmailChar(c: char) {
    !JsString.IsWhitespace(c) && c != '@'
  }

  predicate AllEmailChars(s: string) {
    forall i :: 0 <= i < |s| ==> EmailChar(s[i])
  }

  /** The part after the '@': `[^\s@]+\.[^\s@]+`, that is, no '@' and no
      whitespace, and a '.' somewhere other than first or last. */
  predicate ValidDomain(d: string) {
    AllEmailChars(d) && exists k :: 1 <= k < |d| - 1 && d[k] == '.'
  }

  /** `isValidEmail`: `/^[^\s@]+@[^\s@]+\.[^\s@]+$/.test(email)`. */
  predicate IsValidEmail(email: string) {
    exists at :: 0 < at < |email| && email[at] == '@' && AllEmailChars(email[..at]) && ValidDomain(email[at + 1..])
  }

  /** The regular expression's own reading: local part, '@', domain label,
      '.', last label, each non-empty and free of '@' and whitespace. */
  ghost predicate EmailShape(email: string, local: string, domain: string, tld: string) {
    && email == local + "@" + domain + "." + tld
    && |local| > 0 && |domain| > 0 && |tld| > 0
    && AllEmailChars(local) && AllEmailChars(domain) && AllEmailChars(tld)
  }

  /** Any slice of a run of email characters is one. */
  lemma SliceOfEmailChars(s: string, i: nat, j: nat)
    requires AllEmailChars(s) && i <= j <= |s|
    ensures AllEmailChars(s[i..j])
  {
    forall k | 0 <= k < j - i ensures EmailChar(s[i..j][k]) {
      assert s[i..j][k] == s[i + k];
    }
  }

  /** Every address `IsValidEmail` accepts splits as the pattern reads it. */
  lemma ValidEmailHasShape(email: string)
    requires IsValidEmail(email)
    ensures exists l, d, t :: EmailShape(email, l, d, t)
  {
    var at :| 0 < at < |email| && email[at] == '@' && AllEmailChars(email[..at]) && ValidDomain(email[at + 1..]);
    var rest := email[at + 1..];
    var k :| 1 <= k < |rest| - 1 && rest[k] == '.';
    var l, d, t := email[..at], rest[..k], rest[k + 1..];
    SliceOfEmailChars(rest, 0, k);
    SliceOfEmailChars(rest, k + 1, |rest|);
    SplitAtBoth(email, at, k);
    assert EmailShape(email, l, d, t);
  }

  /** Cutting a string at an '@' and, further on, at a '.'. */
  lemma SplitAtBoth(email: string, at: nat, k: nat)
    requires at < |email| && email[at] == '@'
    requires k < |email[at + 1..]| && email[at + 1..][k] == '.'
    ensures email == email[..at] + "@" + email[at + 1..][..k] + "." + email[at + 1..][k + 1..]
  {
    var rest := email[at + 1..];
    assert rest == rest[..k] + "." + rest[k + 1..];
    assert email == email[..at] + "@" + rest;
  }

  /** Every string the pattern matches is accepted by `IsValidEmail`. */
  lemma ShapeIsValidEmail(email: string, l: string, d: string, t: string)
    requires EmailShape(email, l, d, t)
    ensures IsValidEmail(email)
  {
    var at := |l|;
    var rest := d + "." + t;
    assert email == l + "@" + rest;
    assert email[..at] == l && email[at] == '@' && email[at + 1..] == rest;
    assert rest[|d|] == '.';
    forall i | 0 <= i < |rest| ensures EmailChar(rest[i]) {
      if i < |d| {
        assert rest[i] == d[i];
      } else if i > |d| {
        assert rest[i] == t[i - |d| - 1];
      }
    }
    assert ValidDomain(rest);
  }

  /** `IsValidEmail` accepts exactly the strings the pattern matches. */
  lemma EmailPattern(email: string)
    ensures IsValidEmail(email) <==> exists l, d, t :: EmailShape(email, l, d, t)
  {
    if IsValidEmail(email) {
      ValidEmailHasShape(email);
    }
    if exists l, d, t :: EmailShape(email, l, d, t) {
      var l, d, t :| EmailShape(email, l, d, t);
      ShapeIsValidEmail(email, l, d, t);
    }
  }

  /** An address the pattern accepts has no whitespace at either end. */
  lemma ValidEmailIsTrimmed(email: string)
    requires IsValidEmail(email)
    ensures JsString.Trim(email) == email
  {
    var at :| 0 < at < |email| && email[at] == '@' && AllEmailChars(email[..at]) && ValidDomain(email[at + 1..]);
    assert email[0] == email[..at][0];
    var rest := email[at + 1..];
    assert email[|email| - 1] == rest[|rest| - 1];
    JsString.TrimUntouched(email);
  }

  // ----------------------------------------------------------- register form

  /** The register form as `handleRegister` reads it; `age` is
      `parseInt` of the age field, `None` standing for `NaN`. */
  datatype RegisterForm = RegisterForm(
    firstName: string,
    lastName: string,
    email: string,
    age: Option<int>,
    password: string,
    confirmPassword: string,
    menopauseStage: string,
    agreeTerms: bool,
    newsletter: bool)

  /** The register rules, in the order they are checked. */
  datatype Rule = FirstNameRule | LastNameRule | EmailRule | AgeRule | PasswordRule | ConfirmRule | TermsRule

  /** Where a failed rule is reported: under a field, or in the error
      dialog (`None`). */
  function FieldOf(r: Rule): Option<string> {
    match r
    case FirstNameRule => Some("firstName")
    case LastNameRule => Some("lastName")
    case EmailRule => Some("email")
    case AgeRule => Some("age")
    case PasswordRule => Some("password")
    case ConfirmRule => Some("confirmPassword")
    case TermsRule => None
  }

  const EmailMessage := "Please enter a valid email address"
  const AgeMessage := "Please enter a valid age (18-100)"
  const PasswordMessage := "Password must be at least 8 characters"

  function MessageOf(r: Rule): string {
    match r
    case FirstNameRule => "First name must be at least 2 characters"
    case LastNameRule => "Last name must be at least 2 characters"
    case EmailRule => EmailMessage
    case AgeRule => AgeMessage
    case PasswordRule => PasswordMessage
    case ConfirmRule => "Passwords do not match"
    case TermsRule => "Please agree to the Terms of Service and Privacy Policy"
  }

  /** Whether the form breaks rule `r`. Names are not trimmed here, unlike
      on the server. */
  predicate Breaks(form: RegisterForm, r: Rule) {
    match r
    case FirstNameRule => |form.firstName| < 2
    case LastNameRule => |form.lastName| < 2
    case EmailRule => !IsValidEmail(form.email)
    case AgeRule => form.age.None? || form.age.value < 18 || form.age.value > 100
    case PasswordRule => |form.password| < 8
    case ConfirmRule => form.password != form.confirmPassword
    case TermsRule => !form.agreeTerms
  }

  /** The register form as a whole, rule by rule. */
  predicate FormAcceptable(form: RegisterForm) {
    && |form.firstName| >= 2 && |form.lastName| >= 2
    && IsValidEmail(form.email)
    && form.age.Some? && 18 <= form.age.value <= 100
    && |form.password| >= 8
    && form.password == form.confirmPassword
    && form.agreeTerms
  }

  /** A rule's place in the checking order. */
  function Rank(r: Rule): nat {
    match r
    case FirstNameRule => 0
    case LastNameRule => 1
    case EmailRule => 2
    case AgeRule => 3
    case PasswordRule => 4
    case ConfirmRule => 5
    case TermsRule => 6
  }

  /** The form meets every rule exactly when it breaks none. */
  lemma AcceptableIffNothingBroken(form: RegisterForm)
    ensures FormAcceptable(form) <==> forall r :: !Breaks(form, r)
  {
    if !FormAcceptable(form) {
      if |form.firstName| < 2 {
        assert Breaks(form, FirstNameRule);
      } else if |form.lastName| < 2 {
        assert Breaks(form, LastNameRule);
      } else if !IsValidEmail(form.email) {
        assert Breaks(form, EmailRule);
      } else if !(form.age.Some? && 18 <= form.age.value <= 100) {
        assert Breaks(form, AgeRule);
      } else if |form.password| < 8 {
        assert Breaks(form, PasswordRule);
      } else if form.password != form.confirmPassword {
        assert Breaks(form, ConfirmRule);
      } else {
        assert Breaks(form, TermsRule);
      }
    }
  }

  /** The rule checked at place `k`. */
  function RuleAt(k: nat): (r: Rule)
    requires k < 7
    ensures Rank(r) == k
  {
    [FirstNameRule, LastNameRule, EmailRule, AgeRule, PasswordRule, ConfirmRule, TermsRule][k]
  }

  /** The broken rules among the first `k` checked, in checking order. */
  function FailedUpTo(form: RegisterForm, k: nat): seq<Rule>
    requires k <= 7
  {
    if k == 0 then []
    else FailedUpTo(form, k - 1) + if Breaks(form, RuleAt(k - 1)) then [RuleAt(k - 1)] else []
  }

  /** The broken rules, in checking order. */
  function FailedRules(form: RegisterForm): seq<Rule> {
    FailedUpTo(form, 7)
  }

  /** The first `k` checks report exactly the broken rules of rank below
      `k`, each once, in checking order. */
  lemma {:induction false} FailedUpToExact(form: RegisterForm, k: nat)
    requires k <= 7
    ensures forall r :: r in FailedUpTo(form, k) <==> Rank(r) < k && Breaks(form, r)
    ensures forall i, j :: 0 <= i < j < |FailedUpTo(form, k)| ==>
      Rank(FailedUpTo(form, k)[i]) < Rank(FailedUpTo(form, k)[j])
  {
    if k > 0 {
      FailedUpToExact(form, k - 1);
      var before := FailedUpTo(form, k - 1);
      forall r ensures r in FailedUpTo(form, k) <==> Rank(r) < k && Breaks(form, r) {
        if Rank(r) == k - 1 {
          assert r == RuleAt(k - 1);
        }
      }
      forall i | 0 <= i < |before| ensures Rank(before[i]) < k - 1 {
        assert before[i] in before;
      }
    }
  }

  /** Every rule is evaluated, whatever the earlier ones gave: a rule is
      reported exactly when the form breaks it, once, in checking order,
      and nothing is reported exactly when the form meets every rule. */
  lemma FailedRulesExact(form: RegisterForm)
    ensures forall r :: r in FailedRules(form) <==> Breaks(form, r)
    ensures forall i, j :: 0 <= i < j < |FailedRules(form)| ==>
      Rank(FailedRules(form)[i]) < Rank(FailedRules(form)[j])
    ensures FailedRules(form) == [] <==> FormAcceptable(form)
  {
    FailedUpToExact(form, 7);
    AcceptableIffNothingBroken(form);
    if FailedRules(form) != [] {
      assert FailedRules(form)[0] in FailedRules(form);
    }
  }

  /** `validateRegisterForm`: the seven checks in order, each failure
      reported, and the form valid when none failed. */
  method ValidateRegisterForm(form: RegisterForm) returns (isValid: bool, failed: seq<Rule>)
    ensures failed == FailedRules(form)
    ensures isValid <==> FormAcceptable(form)
  {
    isValid := true;
    failed := [];
    if |form.firstName| < 2 {
      failed := failed + [FirstNameRule];
      isValid := false;
    }
    assert failed == FailedUpTo(form, 1) && (isValid <==> failed == []);
    if |form.lastName| < 2 {
      failed := failed + [LastNameRule];
      isValid := false;
    }
    assert failed == FailedUpTo(form, 2) && (isValid <==> failed == []);
    if !IsValidEmail(form.email) {
      failed := failed + [EmailRule];
      isValid := false;
    }
    assert failed == FailedUpTo(form, 3) && (isValid <==> failed == []);
    if form.age.None? || form.age.value < 18 || form.age.value > 100 {
      failed := failed + [AgeRule];
      isValid := false;
    }
    assert failed == FailedUpTo(form, 4) && (isValid <==> failed == []);
    if |form.password| < 8 {
      failed := failed + [PasswordRule];
      isValid := false;
    }
    assert failed == FailedUpTo(form, 5) && (isValid <==> failed == []);
    if form.password != form.confirmPassword {
      failed := failed + [ConfirmRule];
      isValid := false;
    }
    assert failed == FailedUpTo(form, 6) && (isValid <==> failed == []);
    if !form.agreeTerms {
      failed := failed + [TermsRule];
      isValid := false;
    }
    assert failed == FailedUpTo(form, 7) && (isValid <==> failed == []);
    FailedRulesExact(form);
  }

  /** `validateField`, run on blur: the value is trimmed, an empty value
      always passes, and only email, password and age are checked.
      `toNumber` is JavaScript's string-to-number conversion, `None`
      standing for `NaN`. */
  function ValidateField(name: string, raw: string, toNumber: string -> Option<real>): (ok: bool)
    ensures JsString.Trim(raw) == "" ==> ok
    ensures name != "email" && name != "password" && name != "age" ==> ok
    ensures name == "email" ==> (ok <==> JsString.Trim(raw) == "" || IsValidEmail(JsString.Trim(raw)))
    ensures name == "password" ==> (ok <==> JsString.Trim(raw) == "" || |JsString.Trim(raw)| >= 8)
  {
    var value := JsString.Trim(raw);
    if value == "" then true
    else if name == "email" then IsValidEmail(value)
    else if name == "password" then |value| >= 8
    else if name == "age" then
      var n := toNumber(value);
      n.Some? && 18.0 <= n.value <= 100.0
    else true
  }

  /** An email the register rule accepts also passes the field check. */
  lemma EmailFieldAgreesWithForm(email: string, toNumber: string -> Option<real>)
    requires IsValidEmail(email)
    ensures ValidateField("email", email, toNumber)
  {
    ValidEmailIsTrimmed(email);
  }

  /** A non-blank password the field check accepts also meets the register
      rule, since trimming only shortens. */
  lemma PasswordFieldImpliesForm(password: string, toNumber: string -> Option<real>)
    requires JsString.Trim(password) != "" && ValidateField("password", password, toNumber)
    ensures |password| >= 8
  {
  }

  // ------------------------------------------------------- password strength

  predicate HasLower(p: string) { exists i :: 0 <= i < |p| && 'a' <= p[i] <= 'z' }
  predicate HasUpper(p: string) { exists i :: 0 <= i < |p| && 'A' <= p[i] <= 'Z' }
  predicate HasDigit(p: string) { exists i :: 0 <= i < |p| && '0' <= p[i] <= '9' }
  /** `/[^A-Za-z0-9]/`. */
  predicate HasSymbol(p: string) {
    exists i :: 0 <= i < |p| && !('a' <= p[i] <= 'z' || 'A' <= p[i] <= 'Z' || '0' <= p[i] <= '9')
  }

  /** The five strength criteria, in the order the meter tests them. */
  function Criteria(p: string): seq<bool> {
    [|p| >= 8, HasLower(p), HasUpper(p), HasDigit(p), HasSymbol(p)]
  }

  function Indicator(b: bool): nat {
    if b then 1 else 0
  }

  /** Five flags count as the sum of their indicators. */
  lemma CountOfFive(c: seq<bool>)
    requires |c| == 5
    ensures Count(c, true) == Indicator(c[0]) + Indicator(c[1]) + Indicator(c[2]) + Indicator(c[3]) + Indicator(c[4])
  {
    CountHead(c);
    CountHead(c[1..]);
    CountHead(c[2..]);
    CountHead(c[3..]);
    assert c[1..][1..] == c[2..] && c[2..][1..] == c[3..] && c[3..][1..] == c[4..] && c[4..][1..] == [];
  }

  /** Counting the true flags peels off the first one. */
  lemma CountHead(c: seq<bool>)
    requires |c| > 0
    ensures Count(c, true) == Indicator(c[0]) + Count(c[1..], true)
  {
  }

  /** The strength score: how many criteria hold. */
  function Score(p: string): (n: nat)
    ensures n <= 5
  {
    Count(Criteria(p), true)
  }

  datatype Strength = Weak | Medium | Strong

  function StrengthOf(score: nat): Strength {
    if score <= 2 then Weak else if score <= 3 then Medium else Strong
  }

  /** `checkPasswordStrength`: the meter's score and label. */
  method CheckPasswordStrength(password: string) returns (strength: nat, meter: Strength)
    ensures strength == Score(password) && meter == StrengthOf(strength)
  {
    strength := 0;
    if |password| >= 8 {
      strength := strength + 1;
    }
    if HasLower(password) {
      strength := strength + 1;
    }
    if HasUpper(password) {
      strength := strength + 1;
    }
    if HasDigit(password) {
      strength := strength + 1;
    }
    if HasSymbol(password) {
      strength := strength + 1;
    }
    CountOfFive(Criteria(password));
    if strength <= 2 {
      meter := Weak;
    } else if strength <= 3 {
      meter := Medium;
    } else {
      meter := Strong;
    }
  }

  /** Counting the true entries is monotone in each entry. */
  lemma {:induction false} CountTrueMonotone(xs: seq<bool>, ys: seq<bool>)
    requires |xs| == |ys| && forall i :: 0 <= i < |xs| && xs[i] ==> ys[i]
    ensures Count(xs, true) <= Count(ys, true)
  {
    if xs != [] {
      CountTrueMonotone(xs[1..], ys[1..]);
    }
  }

  /** A full score means every criterion holds. */
  lemma FullScore(p: string)
    ensures Score(p) == 5 <==> |p| >= 8 && HasLower(p) && HasUpper(p) && HasDigit(p) && HasSymbol(p)
  {
    CountOfFive(Criteria(p));
  }

  /** Typing more characters never lowers the score, so never the label. */
  lemma ScoreNeverDrops(p: string, more: string)
    ensures Score(p) <= Score(p + more)
    ensures StrengthOf(Score(p)) == Strong ==> StrengthOf(Score(p + more)) == Strong
    ensures StrengthOf(Score(p)) == Medium ==> StrengthOf(Score(p + more)) != Weak
  {
    var q := p + more;
    assert forall i :: 0 <= i < |p| ==> q[i] == p[i];
    CountTrueMonotone(Criteria(p), Criteria(q));
  }

  // ------------------------------------------------------- browser session

  /** The record kept under the session key of local storage. */
  datatype ClientSession = ClientSession(userId: int, email: string, firstName: string, lastName: string, expires: nat)

  /** `createSession` at time `now` (milliseconds). */
  function CreateSession(userId: int, email: string, firstName: string, lastName: string,
                         rememberMe: bool, now: nat): (s: ClientSession)
    ensures s.userId == userId && s.email == email && s.firstName == firstName && s.lastName == lastName
    ensures s.expires == now + if rememberMe then ThirtyDaysMs else DayMs
  {
    ClientSession(userId, email, firstName, lastName, now + if rememberMe then ThirtyDaysMs else DayMs)
  }

  datatype SessionCheck = NoSession | Redirect | Cleared

  /** `checkExistingSession`: what the page does and what the session slot
      holds afterwards. */
  function CheckExistingSession(stored: Option<ClientSession>, now: nat): (r: (SessionCheck, Option<ClientSession>))
    ensures stored.None? ==> r == (NoSession, None)
    ensures stored.Some? ==> (r.0 == Redirect <==> stored.value.expires > now)
    ensures r.0 == Redirect ==> r.1 == stored
    ensures r.0 != Redirect ==> r.1.None?
  {
    match stored
    case None => (NoSession, None)
    case Some(s) => if s.expires > now then (Redirect, stored) else (Cleared, None)
  }

  /** A session made at `t` is honoured exactly until its lifetime has
      passed, and then cleared; a remembered one outlives a plain one. */
  lemma SessionLifetime(userId: int, email: string, firstName: string, lastName: string,
                        rememberMe: bool, t: nat, now: nat)
    ensures var check := CheckExistingSession(Some(CreateSession(userId, email, firstName, lastName, rememberMe, t)), now);
      (check.0 == Redirect <==> now < t + if rememberMe then ThirtyDaysMs else DayMs)
      && (check.0 == Cleared <==> now >= t + if rememberMe then ThirtyDaysMs else DayMs)
    ensures CheckExistingSession(Some(CreateSession(userId, email, firstName, lastName, false, t)), now).0 == Redirect
        ==> CheckExistingSession(Some(CreateSession(userId, email, firstName, lastName, true, t)), now).0 == Redirect
  {
  }

  // ------------------------------------------------- legacy account list

  /** The per-user tracking data a legacy account starts with. */
  datatype Journal = Journal(symptoms: seq<SymptomEntry>, medications: seq<Medication>, goals: Goals)

  /** An account of the legacy in-memory list; `createdAt` stands for the
      ISO time stamp. */
  datatype LocalUser = LocalUser(
    id: int,
    firstName: string,
    lastName: string,
    email: string,
    age: Option<int>,
    password: string,
    menopauseStage: string,
    newsletter: bool,
    createdAt: nat,
    data: Journal)

  function NewLocalUser(form: RegisterForm, id: int, createdAt: nat): (u: LocalUser)
    ensures u.email == form.email && u.password == form.password
    ensures u.data == Journal([], [], ZeroGoals)
  {
    LocalUser(id, form.firstName, form.lastName, form.email, form.age, form.password,
              form.menopauseStage, form.newsletter, createdAt, Journal([], [], ZeroGoals))
  }

  /** `users.find(u => u.email === email && u.password === password)`. */
  function FirstMatch(users: seq<LocalUser>, email: string, password: string): (r: Option<LocalUser>)
    ensures r.Some? ==> r.value in users && r.value.email == email && r.value.password == password
    ensures r.None? <==> forall u :: u in users ==> !(u.email == email && u.password == password)
  {
    if users == [] then None
    else if users[0].email == email && users[0].password == password then Some(users[0])
    else FirstMatch(users[1..], email, password)
  }

  /** The first account holding both credentials is the one found, as
      `Array.prototype.find` returns the first match. */
  lemma {:induction false} FirstMatchIsFirst(users: seq<LocalUser>, email: string, password: string, k: nat)
    requires k < |users| && users[k].email == email && users[k].password == password
    requires forall j :: 0 <= j < k ==> !(users[j].email == email && users[j].password == password)
    ensures FirstMatch(users, email, password) == Some(users[k])
  {
    if k > 0 {
      FirstMatchIsFirst(users[1..], email, password, k - 1);
    }
  }

  /** No two accounts share an email. */
  ghost predicate EmailsDistinct(users: seq<LocalUser>) {
    forall i, j :: 0 <= i < j < |users| ==> users[i].email != users[j].email
  }

  /** A freshly registered account is the one its credentials find. */
  lemma {:induction false} RegisteredLocalUserFound(users: seq<LocalUser>, form: RegisterForm, id: int, createdAt: nat)
    requires forall u :: u in users ==> u.email != form.email
    ensures FirstMatch(users + [NewLocalUser(form, id, createdAt)], form.email, form.password)
         == Some(NewLocalUser(form, id, createdAt))
  {
    var u := NewLocalUser(form, id, createdAt);
    if users == [] {
      assert users + [u] == [u];
    } else {
      assert (users + [u])[1..] == users[1..] + [u];
      RegisteredLocalUserFound(users[1..], form, id, createdAt);
    }
  }

  /** The legacy in-memory account list behind `registerUser` and
      `authenticateUser`. */
  class LegacyDirectory {
    var users: seq<LocalUser>

    ghost predicate Valid()
      reads this
    {
      EmailsDistinct(users)
    }

    constructor ()
      ensures Valid() && users == []
    {
      users := [];
    }

    /** `users.find(u => u.email === email)`, as an index. */
    method FindByEmail(email: string) returns (k: Option<nat>)
      ensures k.Some? ==> k.value < |users| && users[k.value].email == email
      ensures k.Some? ==> forall j :: 0 <= j < k.value ==> users[j].email != email
      ensures k.None? <==> forall u :: u in users ==> u.email != email
    {
      var i := 0;
      while i < |users|
        invariant 0 <= i <= |users|
        invariant forall j :: 0 <= j < i ==> users[j].email != email
      {
        if users[i].email == email {
          return Some(i);
        }
        i := i + 1;
      }
      return None;
    }

    /** `registerUser`: refuse a taken email; otherwise append the new
      account with empty tracking data. */
    method RegisterUser(form: RegisterForm, id: int, createdAt: nat) returns (ok: bool)
      modifies this
      ensures ok <==> forall u :: u in old(users) ==> u.email != form.email
      ensures !ok ==> users == old(users)
      ensures ok ==> users == old(users) + [NewLocalUser(form, id, createdAt)]
      ensures old(Valid()) ==> Valid()
    {
      var existing := FindByEmail(form.email);
      if existing.Some? {
        return false;
      }
      users := users + [NewLocalUser(form, id, createdAt)];
      return true;
    }

    /** `authenticateUser`: the first account with both credentials. */
    method AuthenticateUser(email: string, password: string) returns (found: Option<LocalUser>)
      ensures found == FirstMatch(users, email, password)
    {
      var i := 0;
      while i < |users|
        invariant 0 <= i <= |users|
        invariant FirstMatch(users, email, password) == FirstMatch(users[i..], email, password)
      {
        if users[i].email == email && users[i].password == password {
          return Some(users[i]);
        }
        i := i + 1;
      }
      return None;
    }
  }
}
