/**
 * Accounts: the user record and its manager (users/models.py), the
 * registration and profile serializers (users/serializers.py) and the
 * email-or-phone login backend (users/backends.py).
 */
module Identity {
  import opened Wrappers
  import opened Ids
  import Text

  /**
   * A user row. `password` stands for the stored hash: `None` is an
   * unusable password. `availableSteps` is the spendable step balance the
   * promotion views read and write.
   */
  datatype User = User(
    email: Option<string>,
    phoneNumber: Option<string>,
    firstName: Option<string>,
    lastName: Option<string>,
    password: Option<string>,
    coins: int,
    overallSteps: int,
    availableSteps: int,
    isPartner: bool,
    isStaff: bool,
    isSuperuser: bool,
    isActive: bool)

  /** Python truthiness of an optional string: present and non-empty. */
  predicate Truthy(s: Option<string>) {
    s.Some? && s.value != ""
  }

  /**
   * `BaseUserManager.normalize_email`: strip surrounding blanks, split at the
   * last '@' and lower-case the domain part; text without '@' is returned
   * as given.
   */
  function NormalizeEmail(s: string): (r: string)
    ensures '@' in s <==> '@' in r
    ensures '@' !in s ==> r == s
  {
    var t := Text.Strip(s);
    var i := Text.LastIndexOf(t, '@');
    if i >= 0 then
      assert '@' in s;
      var r := t[..i] + "@" + Text.LowerAscii(t[i + 1..]);
      assert r[i] == '@';
      r
    else
      s
  }

  /**
   * An address whose first and last characters are not blank is split at
   * its last '@', and only the part after it is lower-cased.
   */
  lemma NormalizeSplit(local: string, domain: string)
    requires '@' !in domain
    requires local != [] ==> !Text.IsSpace(local[0])
    requires domain != [] ==> !Text.IsSpace(domain[|domain| - 1])
    ensures NormalizeEmail(local + "@" + domain) == local + "@" + Text.LowerAscii(domain)
  {
    SplitNeedsNoStrip(local, domain);
    SplitAtLast(local, domain);
    SplitParts(local, domain);
    NormalizeUnstripped(local + "@" + domain, |local|);
  }

  lemma SplitParts(local: string, domain: string)
    ensures (local + "@" + domain)[..|local|] == local
    ensures (local + "@" + domain)[|local| + 1..] == domain
  {
  }

  lemma NormalizeUnstripped(s: string, i: nat)
    requires Text.Strip(s) == s
    requires i < |s| && Text.LastIndexOf(s, '@') == i
    ensures NormalizeEmail(s) == s[..i] + "@" + Text.LowerAscii(s[i + 1..])
  {
  }

  lemma SplitNeedsNoStrip(local: string, domain: string)
    requires local != [] ==> !Text.IsSpace(local[0])
    requires domain != [] ==> !Text.IsSpace(domain[|domain| - 1])
    ensures Text.Strip(local + "@" + domain) == local + "@" + domain
  {
    var s := local + "@" + domain;
    assert s[0] == (if local == [] then '@' else local[0]);
    assert s[|s| - 1] == (if domain == [] then '@' else domain[|domain| - 1]);
  }

  lemma SplitAtLast(local: string, domain: string)
    requires '@' !in domain
    ensures Text.LastIndexOf(local + "@" + domain, '@') == |local|
  {
    NoAtAfter(local, domain);
    Text.LastIndexOfUnique(local + "@" + domain, '@', |local|);
  }

  lemma NoAtAfter(local: string, domain: string)
    requires '@' !in domain
    ensures forall j :: |local| < j < |local + "@" + domain| ==> (local + "@" + domain)[j] != '@'
  {
    var s := local + "@" + domain;
    var n := |local|;
    forall j | n < j < |s| ensures s[j] != '@' {
      assert s[j] == domain[j - (n + 1)];
    }
  }

  /** The four ASCII information separators are stripped like any other blank. */
  lemma StripsSeparators()
    ensures NormalizeEmail("\U{1C}a@B") == "a@b"
  {
    var s, t := "\U{1C}a@B", "a@B";
    StripsLeadingSeparator();
    LastAtOfExample();
    NormalizeAt(s, 1);
    assert t[..1] == "a" && t[2..] == "B";
    assert Text.LowerAscii("B") == "b" by {
      assert Text.LowerAscii("B") == [Text.LowerChar('B')] + Text.LowerAscii([]);
    }
  }

  lemma StripsLeadingSeparator()
    ensures Text.Strip("\U{1C}a@B") == "a@B"
  {
    var s, t := "\U{1C}a@B", "a@B";
    assert Text.IsSpace(s[0]) && s[1..] == t;
    assert Text.Strip(t) == t;
  }

  lemma LastAtOfExample()
    ensures Text.LastIndexOf("a@B", '@') == 1
  {
    var t := "a@B";
    assert t[1] == '@' && t[2] != '@';
  }



  /** Normalising a normalised address changes nothing. */
  lemma NormalizeIdempotent(s: string)
    ensures NormalizeEmail(NormalizeEmail(s)) == NormalizeEmail(s)
  {
    var i := Text.LastIndexOf(Text.Strip(s), '@');
    if i >= 0 {
      IdempotentAt(s, i);
    } else {
      StripKeepsAt(s);
    }
  }

  lemma IdempotentAt(s: string, i: int)
    requires 0 <= i && Text.LastIndexOf(Text.Strip(s), '@') == i
    ensures NormalizeEmail(NormalizeEmail(s)) == NormalizeEmail(s)
  {
    var t := Text.Strip(s);
    var local, tail := t[..i], t[i + 1..];
    var dom := Text.LowerAscii(tail);
    NormalizeAt(s, i);
    calc {
      NormalizeEmail(NormalizeEmail(s));
    ==
      NormalizeEmail(local + "@" + dom);
    == { NormalizedParts(t, i); NormalizeSplit(local, dom); }
      local + "@" + Text.LowerAscii(dom);
    == { Text.LowerAsciiIdempotent(tail); }
      NormalizeEmail(s);
    }
  }

  lemma StripKeepsAt(s: string)
    requires Text.LastIndexOf(Text.Strip(s), '@') < 0
    ensures '@' !in s
  {
    assert !Text.IsSpace('@');
  }

  lemma NormalizeAt(s: string, i: int)
    requires 0 <= i && Text.LastIndexOf(Text.Strip(s), '@') == i
    ensures var t := Text.Strip(s);
      NormalizeEmail(s) == t[..i] + "@" + Text.LowerAscii(t[i + 1..])
  {
  }

  /**
   * The parts of a stripped address split at its last '@' meet the
   * conditions of `NormalizeSplit` once the domain is lower-cased.
   */
  lemma NormalizedParts(t: string, i: int)
    requires 0 <= i < |t| && Text.LastIndexOf(t, '@') == i
    requires !Text.IsSpace(t[0]) && !Text.IsSpace(t[|t| - 1])
    ensures var dom := Text.LowerAscii(t[i + 1..]);
      && '@' !in dom
      && (t[..i] != [] ==> !Text.IsSpace(t[..i][0]))
      && (dom != [] ==> !Text.IsSpace(dom[|dom| - 1]))
  {
    var tail := t[i + 1..];
    TailHasNoAt(t, i);
    Text.LowerKeepsAbsent(tail, '@');
    if tail != [] {
      assert tail[|tail| - 1] == t[|t| - 1];
      Text.LowerCharKeepsSpace(tail[|tail| - 1]);
    }
  }

  lemma TailHasNoAt(t: string, i: int)
    requires 0 <= i < |t| && Text.LastIndexOf(t, '@') == i
    ensures '@' !in t[i + 1..]
  {
    var tail := t[i + 1..];
    forall j | 0 <= j < |tail| ensures tail[j] != '@' {
      assert tail[j] == t[i + 1 + j];
    }
  }

  /** Keyword arguments beyond identifier and password; `None` means not passed. */
  datatype Extras = Extras(
    email: Option<Option<string>>,
    phoneNumber: Option<Option<string>>,
    firstName: Option<string>,
    lastName: Option<string>,
    isStaff: Option<bool>,
    isSuperuser: Option<bool>,
    coins: Option<int>,
    overallSteps: Option<int>,
    isPartner: Option<bool>,
    isActive: Option<bool>)

  const NoExtras := Extras(None, None, None, None, None, None, None, None, None, None)

  datatype CreateError =
    | NoIdentifier       // ValueError: neither email nor phone
    | DuplicateArgument  // TypeError: the field is passed twice to the model
    | NotSuperuser       // ValueError from create_superuser
    | NotStaff           // ValueError from create_superuser

  datatype Creation = Made(user: User) | Refused(error: CreateError)

  function Flatten(o: Option<Option<string>>): Option<string> {
    if o.Some? then o.value else None
  }

  /**
   * `create_user`: an identifier with '@' is the email (normalised) and the
   * phone is popped from the extras; any other identifier is the phone and
   * the email is popped from the extras. The other key, if also passed, is
   * then given to the model twice.
   */
  function CreateUser(identifier: string, password: Option<string>, extras: Extras): (r: Creation)
    ensures '@' in identifier && r.Made? ==>
      r.user.email == Some(NormalizeEmail(identifier)) && r.user.phoneNumber == Flatten(extras.phoneNumber)
    ensures '@' !in identifier && r.Made? ==>
      r.user.phoneNumber == Some(identifier) && r.user.email == Flatten(extras.email)
    ensures r == Refused(NoIdentifier) <==> '@' !in identifier && identifier == "" && !Truthy(Flatten(extras.email))
    ensures r == Refused(DuplicateArgument) <==>
      if '@' in identifier then extras.email.Some?
      else extras.phoneNumber.Some? && !(identifier == "" && !Truthy(Flatten(extras.email)))
    ensures r.Made? || r == Refused(NoIdentifier) || r == Refused(DuplicateArgument)
    ensures r.Made? ==> Truthy(r.user.email) || Truthy(r.user.phoneNumber)
    ensures r.Made? ==> r.user.password == password && r.user.availableSteps == 0
    ensures r.Made? ==> r.user.firstName == extras.firstName && r.user.lastName == extras.lastName
    ensures r.Made? ==> r.user.coins == extras.coins.GetOr(0) && r.user.overallSteps == extras.overallSteps.GetOr(0)
    ensures r.Made? ==> r.user.isPartner == extras.isPartner.GetOr(false) && r.user.isActive == extras.isActive.GetOr(true)
    ensures r.Made? ==> r.user.isStaff == extras.isStaff.GetOr(false)
    ensures r.Made? ==> r.user.isSuperuser == extras.isSuperuser.GetOr(false)
  {
    // Normalising keeps the '@', so an identifier with one always yields a
    // truthy email and the missing-identifier error needs no check there.
    if '@' in identifier then
      var email := NormalizeEmail(identifier);
      assert '@' in email && email != "";
      if extras.email.Some? then Refused(DuplicateArgument)
      else Made(NewUser(Some(email), Flatten(extras.phoneNumber), password, extras))
    else if identifier == "" && !Truthy(Flatten(extras.email)) then Refused(NoIdentifier)
    else if extras.phoneNumber.Some? then Refused(DuplicateArgument)
    else Made(NewUser(Flatten(extras.email), Some(identifier), password, extras))
  }

  /**
   * The row `create_user` saves: the extra fields passed, and the column
   * defaults (no coins, no steps, active, not a partner) for the others.
   */
  function NewUser(email: Option<string>, phone: Option<string>, password: Option<string>, extras: Extras): User {
    User(email, phone, extras.firstName, extras.lastName, password,
      extras.coins.GetOr(0), extras.overallSteps.GetOr(0), 0, extras.isPartner.GetOr(false),
      extras.isStaff.GetOr(false), extras.isSuperuser.GetOr(false), extras.isActive.GetOr(true))
  }

  /** The extras `create_superuser` passes on: both flags set. */
  function AsSuperuser(extras: Extras): (e: Extras)
    ensures e.isStaff == Some(true) && e.isSuperuser == Some(true)
    ensures e.email == extras.email && e.phoneNumber == extras.phoneNumber
  {
    extras.(isSuperuser := Some(true), isStaff := Some(true))
  }

  /** `create_superuser`: both flags default to true, and an explicit false for either is refused. */
  function CreateSuperuser(email: string, password: Option<string>, extras: Extras): (r: Creation)
    ensures r.Made? ==> r.user.isStaff && r.user.isSuperuser
    ensures extras.isSuperuser == Some(false) ==> r == Refused(NotSuperuser)
    ensures extras.isSuperuser != Some(false) && extras.isStaff == Some(false) ==> r == Refused(NotStaff)
    ensures extras.isSuperuser != Some(false) && extras.isStaff != Some(false) ==>
      r == CreateUser(email, password, AsSuperuser(extras))
  {
    // `setdefault(flag, True)` then `is not True`: only an explicit false is refused
    if extras.isSuperuser == Some(false) then Refused(NotSuperuser)
    else if extras.isStaff == Some(false) then Refused(NotStaff)
    else CreateUser(email, password, AsSuperuser(extras))
  }

  /** `__str__`: the email, else the phone, else a fixed text. */
  function UserLabel(u: User): (r: string)
    ensures Truthy(u.email) ==> r == u.email.value
    ensures !Truthy(u.email) && Truthy(u.phoneNumber) ==> r == u.phoneNumber.value
    ensures !Truthy(u.email) && !Truthy(u.phoneNumber) ==> r == "User (No identifier)"
    ensures r != ""
  {
    if Truthy(u.email) then u.email.value
    else if Truthy(u.phoneNumber) then u.phoneNumber.value
    else "User (No identifier)"
  }

  /**
   * The registration payload after field validation. The identifier and
   * both passwords are required texts; the names are required keys whose
   * value may be blank or null, as their nullable columns allow.
   */
  datatype Registration = Registration(
    identifier: string,
    password: string,
    password2: string,
    firstName: Option<string>,
    lastName: Option<string>)

  datatype RegistrationError = PasswordMismatch | IdentifierTaken

  /** Some user's email or phone is exactly this text. */
  predicate TakenExactly(users: map<UserId, User>, identifier: string) {
    exists id :: id in users && (users[id].email == Some(identifier) || users[id].phoneNumber == Some(identifier))
  }

  /**
   * `UserRegisterSerializer.validate` as written: passwords must agree, then
   * the raw identifier must equal no user's email or phone exactly.
   */
  function ValidateAsWritten(users: map<UserId, User>, d: Registration): (r: Option<RegistrationError>)
    ensures r == Some(PasswordMismatch) <==> d.password != d.password2
    ensures r.None? <==> d.password == d.password2 && !TakenExactly(users, d.identifier)
  {
    if d.password != d.password2 then Some(PasswordMismatch)
    else if TakenExactly(users, d.identifier) then Some(IdentifierTaken)
    else None
  }

  /** Some user's email matches the normalised identifier, ignoring case, as the login lookup does. */
  predicate EmailTakenIgnoringCase(users: map<UserId, User>, identifier: string) {
    '@' in identifier &&
    exists id :: id in users && users[id].email.Some? && Text.EqualsIgnoreCase(users[id].email.value, NormalizeEmail(identifier))
  }

  /**
   * Registration validation as evidently intended: it also refuses an
   * address that, once stored, would clash with an existing email under the
   * case-insensitive login lookup.
   */
  function Validate(users: map<UserId, User>, d: Registration): (r: Option<RegistrationError>)
    ensures r == Some(PasswordMismatch) <==> d.password != d.password2
    ensures r.None? <==>
      (d.password == d.password2 && !TakenExactly(users, d.identifier) && !EmailTakenIgnoringCase(users, d.identifier))
    ensures ValidateAsWritten(users, d).Some? ==> r.Some?
  {
    if d.password != d.password2 then Some(PasswordMismatch)
    else if TakenExactly(users, d.identifier) || EmailTakenIgnoringCase(users, d.identifier) then Some(IdentifierTaken)
    else None
  }

  /**
   * `UserRegisterSerializer.create`: identifier, password and password2 are
   * taken out of the data; the names go on as extra fields.
   */
  function Register(d: Registration): (r: Creation)
    ensures d.identifier != "" ==> r.Made?
    ensures r.Made? ==> r.user.password == Some(d.password)
    ensures r.Made? ==> r.user.firstName == d.firstName && r.user.lastName == d.lastName
    ensures r.Made? ==> !r.user.isStaff && !r.user.isSuperuser
    ensures r.Made? ==> r.user.coins == 0 && r.user.overallSteps == 0 && !r.user.isPartner && r.user.isActive
  {
    CreateUser(d.identifier, Some(d.password), NamesOnly(d))
  }

  /** The extra fields registration passes on: the two names. */
  function NamesOnly(d: Registration): Extras {
    NoExtras.(firstName := d.firstName, lastName := d.lastName)
  }

  /** The email a registration stores, if any. */
  function RegisteredEmail(d: Registration): Option<string> {
    if '@' in d.identifier then Some(NormalizeEmail(d.identifier)) else None
  }

  lemma RegisteredEmailStored(d: Registration)
    requires d.identifier != ""
    ensures Register(d).user.email == RegisteredEmail(d)
  {}

  /**
   * A registration that passes the intended validation stores an email no
   * existing user has, not even up to case.
   */
  lemma ValidatedEmailIsNew(users: map<UserId, User>, d: Registration, id: UserId)
    requires Validate(users, d).None? && RegisteredEmail(d).Some?
    requires id in users && users[id].email.Some?
    ensures !Text.EqualsIgnoreCase(users[id].email.value, RegisteredEmail(d).value)
    ensures users[id].email != RegisteredEmail(d)
  {}

  /**
   * As written, the check lets through an address whose stored form equals
   * an existing email: `local@Domain` when `local@domain` is registered
   * (for instance "a@EXAMPLE.com" after "a@example.com").
   */
  lemma AsWrittenAdmitsDuplicateEmail(users: map<UserId, User>, id: UserId, local: string, domain: string, d: Registration)
    requires '@' !in domain && local != [] && domain != []
    requires !Text.IsSpace(local[0]) && !Text.IsSpace(domain[|domain| - 1])
    requires d.identifier == local + "@" + domain && d.password == d.password2
    requires id in users && users[id].email == Some(local + "@" + Text.LowerAscii(domain))
    requires !TakenExactly(users, d.identifier)
    ensures ValidateAsWritten(users, d).None?
    ensures Register(d).Made? && Register(d).user.email == users[id].email
    ensures Validate(users, d) == Some(IdentifierTaken)
  {
    NormalizeSplit(local, domain);
    Text.LowerAsciiIdempotent(domain);
    assert Text.EqualsIgnoreCase(users[id].email.value, NormalizeEmail(d.identifier));
  }

  /**
   * As written, two users can hold emails that differ only in the case of
   * the local part ("A@example.com" beside "a@example.com"); the login
   * lookup then matches both and fails.
   */
  lemma AsWrittenAdmitsCaseTwin(users: map<UserId, User>, id: UserId, newId: UserId, d: Registration, password: Option<string>)
    requires '@' in d.identifier && d.password == d.password2 && !TakenExactly(users, d.identifier)
    requires id in users && users[id].email.Some? && newId !in users
    requires Text.EqualsIgnoreCase(users[id].email.value, NormalizeEmail(d.identifier))
    ensures ValidateAsWritten(users, d).None?
    ensures Register(d).Made?
    ensures Authenticate(users[newId := Register(d).user], users[id].email, password) == Ambiguous
    ensures Validate(users, d) == Some(IdentifierTaken)
  {
    assert EmailTakenIgnoringCase(users, d.identifier);
    var u := Register(d).user;
    assert u.email == Some(NormalizeEmail(d.identifier));
    CaseTwinsClash(users, id, newId, u, password);
  }

  /** A new user whose email equals an existing one up to case makes the login lookup ambiguous. */
  lemma CaseTwinsClash(users: map<UserId, User>, id: UserId, newId: UserId, u: User, password: Option<string>)
    requires id in users && users[id].email.Some? && newId !in users && u.email.Some?
    requires '@' in u.email.value
    requires Text.EqualsIgnoreCase(users[id].email.value, u.email.value)
    ensures Authenticate(users[newId := u], users[id].email, password) == Ambiguous
  {
    var users' := users[newId := u];
    var e := users[id].email.value;
    assert Truthy(users[id].email) by {
      assert |Text.LowerAscii(e)| == |Text.LowerAscii(u.email.value)|;
    }
    assert users'[id] == users[id];
    assert Text.EqualsIgnoreCase(e, e);
    TwoMatches(users', id, newId, e);
  }

  /** Two users matching one username make the lookup ambiguous. */
  lemma TwoMatches(users: map<UserId, User>, a: UserId, b: UserId, username: string)
    requires a != b && a in users && b in users
    requires MatchesUser(users[a], username) && MatchesUser(users[b], username)
    ensures |Matches(users, username)| > 1
  {
    var found := Matches(users, username);
    assert {a, b} <= found;
    assert |{a, b}| == 2;
    SubsetSize({a, b}, found);
  }

  /** The fields a profile update may send; the read-only ones are accepted and ignored. */
  datatype ProfilePatch = ProfilePatch(
    firstName: Option<Option<string>>,
    lastName: Option<Option<string>>,
    email: Option<Option<string>>,
    phoneNumber: Option<Option<string>>,
    coins: Option<int>,
    overallSteps: Option<int>,
    isActive: Option<bool>)

  /** `UserProfileSerializer.update`: only the names can change. */
  function ApplyProfile(u: User, p: ProfilePatch): (r: User)
    ensures r.email == u.email && r.phoneNumber == u.phoneNumber && r.coins == u.coins
      && r.overallSteps == u.overallSteps && r.isActive == u.isActive
    ensures r == u.(firstName := r.firstName, lastName := r.lastName)
    ensures p.firstName.Some? ==> r.firstName == p.firstName.value
    ensures p.firstName.None? ==> r.firstName == u.firstName
    ensures p.lastName.Some? ==> r.lastName == p.lastName.value
    ensures p.lastName.None? ==> r.lastName == u.lastName
  {
    u.(firstName := if p.firstName.Some? then p.firstName.value else u.firstName,
       lastName := if p.lastName.Some? then p.lastName.value else u.lastName)
  }

  /** The users the login lookup finds: email equal ignoring case, or phone equal exactly. */
  function Matches(users: map<UserId, User>, username: string): (r: set<UserId>)
    ensures r <= users.Keys
    ensures forall id :: id in r <==> id in users && MatchesUser(users[id], username)
  {
    set id | id in users && MatchesUser(users[id], username)
  }

  predicate MatchesUser(u: User, username: string) {
    (u.email.Some? && Text.EqualsIgnoreCase(u.email.value, username)) || u.phoneNumber == Some(username)
  }

  /** `check_password`: an unusable password matches nothing. */
  predicate PasswordMatches(u: User, password: Option<string>) {
    u.password.Some? && password == u.password
  }

  /** Outcome of `authenticate`; `Ambiguous` is the uncaught `MultipleObjectsReturned`. */
  datatype Login = LoggedIn(id: UserId) | NoLogin | Ambiguous

  /**
   * `EmailOrPhoneBackend.authenticate`: an empty username finds nobody; a
   * single match is returned when the password checks and the user is
   * active.
   */
  function Authenticate(users: map<UserId, User>, username: Option<string>, password: Option<string>): (r: Login)
    ensures !Truthy(username) ==> r == NoLogin
    ensures r.LoggedIn? ==> r.id in users && Matches(users, username.value) == {r.id}
    ensures r.LoggedIn? ==> PasswordMatches(users[r.id], password) && users[r.id].isActive
    ensures r == Ambiguous <==> Truthy(username) && |Matches(users, username.value)| > 1
    ensures Truthy(username) && Matches(users, username.value) == {} ==> r == NoLogin
    ensures forall id :: Truthy(username) && Matches(users, username.value) == {id} ==>
      (r == LoggedIn(id) <==> PasswordMatches(users[id], password) && users[id].isActive)
  {
    if !Truthy(username) then NoLogin
    else
      var found := Matches(users, username.value);
      if found == {} then NoLogin
      else if |found| > 1 then Ambiguous
      else
        var id := TheOnly(found);
        if PasswordMatches(users[id], password) && users[id].isActive then LoggedIn(id) else NoLogin
  }

  /** The element of a one-element set. */
  function TheOnly(s: set<UserId>): (x: UserId)
    requires |s| == 1
    ensures s == {x}
  {
    var x :| x in s;
    assert s == {x} by {
      if y :| y in s && y != x {
        assert {x, y} <= s;
        assert |{x, y}| == 2;
        SubsetSize({x, y}, s);
      }
    }
    x
  }

  /** `get_user`: the user with that key, or none. */
  function GetUser(users: map<UserId, User>, id: UserId): (r: Option<User>)
    ensures r.Some? <==> id in users
    ensures r.Some? ==> r.value == users[id]
  {
    if id in users then Some(users[id]) else None
  }
}
