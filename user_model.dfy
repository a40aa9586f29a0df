/** User documents: field rules and defaults, the two `save` hooks that hash the
    password and stamp its change time, the query hook that hides deactivated users,
    the password-change check used against session tokens, and reset-token issuance. */
module UserModel {
  import opened Seqs
  import opened Documents
  import opened Hex
  import Text

  const PasswordMinLength := 8
  const Roles: seq<string> := ["user", "guide", "lead-guide", "admin"]
  const DefaultRole := "user"
  /** How far the change stamp is set back, in milliseconds. */
  const ChangeStampBackdate := 5000
  /** How long a reset token stays valid: 10 minutes, in milliseconds. */
  const ResetTokenLifetime := 10 * 60 * 1000
  /** `crypto.randomBytes(32)`: the number of random bytes in a reset token. */
  const ResetTokenBytes := 32

  /** A user as a document holds it; an absent field is None. Instants are milliseconds since the epoch. */
  datatype User = User(
    name: Option<string>,
    email: Option<string>,
    photo: Option<string>,
    password: Option<string>,
    confirmPassword: Option<string>,
    passwordChangedAt: Option<int>,
    role: Option<string>,
    active: Option<bool>,
    passwordResetToken: Option<string>,
    passwordResetExpires: Option<int>)

  /** The `lowercase` setter on an optional path: a present value stays present and keeps
      no upper-case ASCII letter. */
  function LowerField(v: Option<string>): (r: Option<string>)
    ensures r.Some? == v.Some?
    ensures r.Some? ==> forall i :: 0 <= i < |r.value| ==> !('A' <= r.value[i] <= 'Z')
  {
    Text.ToLowerIdempotent(v.GetOr(""));
    match v
    case Some(s) => Some(Text.ToLower(s))
    case None => None
  }

  /** The document `new User(input)` builds: the `lowercase` setter runs on email and an
      absent role defaults to 'user'. `active` has no default: its option key is misspelt
      `defualt`, so an absent flag stays absent. */
  function Construct(input: User): (u: User)
    ensures u.role.Some? && u.active == input.active
    ensures u.email.Some? == input.email.Some?
    ensures u.email.Some? ==> forall i :: 0 <= i < |u.email.value| ==> !('A' <= u.email.value[i] <= 'Z')
  {
    input.(email := LowerField(input.email), role := Some(input.role.GetOr(DefaultRole)))
  }

  lemma ConstructDefaults(input: User)
    ensures var u := Construct(input);
      && u.role == (if input.role.Some? then input.role else Some("user"))
      && u.active == input.active
      && u.email.Some? == input.email.Some?
      && (input.email.Some? ==> u.email.value == Text.ToLower(input.email.value))
      && u.(email := input.email, role := input.role) == input
  {
  }

  /** `required`, then the format check; an empty string counts as missing. */
  function EmailErrors(email: Option<string>, isEmail: string -> bool): (es: seq<FieldError>)
    ensures OnPath(es, "email")
    ensures es == [] <==> (email.Some? && email.value != "" && isEmail(email.value))
    ensures es != [] ==> es[0].kind == (if RequiredString(email) then UserDefined else Required)
  {
    if !RequiredString(email) then [FieldError("email", Required)]
    else if !isEmail(email.value) then [FieldError("email", UserDefined)]
    else []
  }

  /** The minlength validator counts UTF-16 code units, as JavaScript's `.length` does. */
  function PasswordErrors(password: Option<string>): (es: seq<FieldError>)
    ensures OnPath(es, "password")
  {
    if !RequiredString(password) then [FieldError("password", Required)]
    else if Text.Utf16Length(password.value) < PasswordMinLength then [FieldError("password", MinLength)]
    else []
  }

  /** The custom validator `el === this.password`, after the `required` check. */
  function ConfirmErrors(confirm: Option<string>, password: Option<string>): (es: seq<FieldError>)
    ensures OnPath(es, "confirmPassword")
    ensures es == [] <==> (confirm.Some? && confirm.value != "" && confirm == password)
    ensures es != [] ==> es[0].kind == (if RequiredString(confirm) then UserDefined else Required)
  {
    if !RequiredString(confirm) then [FieldError("confirmPassword", Required)]
    else if confirm != password then [FieldError("confirmPassword", UserDefined)]
    else []
  }

  /** The enum validator of the role; it skips an absent value. */
  function RoleErrors(role: Option<string>): (es: seq<FieldError>)
    ensures OnPath(es, "role")
    ensures es == [] <==> (role.Some? ==> role.value in Roles)
    ensures es != [] ==> es[0].kind == Enum
  {
    if role.Some? && role.value !in Roles then [FieldError("role", Enum)] else []
  }

  /** The validation errors of a document, one per failing path, in schema order.
      isEmail is the email-format check of the validator library. */
  function UserErrors(u: User, isEmail: string -> bool): (errors: seq<FieldError>)
    ensures PathsIn(errors, {"name", "email", "password", "confirmPassword", "role"})
    ensures DistinctPaths(errors)
  {
    var r5 := RoleErrors(u.role);
    var e4 := ConfirmErrors(u.confirmPassword, u.password);
    DistinctPathsPrepend(e4, "confirmPassword", r5, {"role"});
    var r4 := e4 + r5;
    var e3 := PasswordErrors(u.password);
    DistinctPathsPrepend(e3, "password", r4, {"role", "confirmPassword"});
    var r3 := e3 + r4;
    var e2 := EmailErrors(u.email, isEmail);
    DistinctPathsPrepend(e2, "email", r3, {"role", "confirmPassword", "password"});
    var r2 := e2 + r3;
    var e1 := RequiredErrors("name", !RequiredString(u.name));
    DistinctPathsPrepend(e1, "name", r2, {"role", "confirmPassword", "password", "email"});
    e1 + r2
  }

  /** The document rules stated field by field. A password's length is counted in UTF-16
      code units, so a valid password has at least 4 characters, and a valid user always
      carries a confirmation. */
  predicate ValidUser(u: User, isEmail: string -> bool)
    ensures ValidUser(u, isEmail) ==>
      u.password.Some? && |u.password.value| >= PasswordMinLength / 2 && u.confirmPassword.Some?
  {
    && u.name.Some? && u.name.value != ""
    && u.email.Some? && u.email.value != "" && isEmail(u.email.value)
    && u.password.Some? && Text.Utf16Length(u.password.value) >= PasswordMinLength
    && u.confirmPassword == u.password
    && (u.role.Some? ==> u.role.value in Roles)
  }

  /** Validation reports no error exactly when the document satisfies every rule. */
  lemma ValidIffNoErrors(u: User, isEmail: string -> bool)
    ensures UserErrors(u, isEmail) == [] <==> ValidUser(u, isEmail)
  {
  }

  /** A password of four emoji is eight UTF-16 code units long, so the minlength validator
      accepts it. */
  lemma PasswordLengthInCodeUnits()
    ensures |"\U{1F600}\U{1F600}\U{1F600}\U{1F600}"| == PasswordMinLength / 2
    ensures PasswordErrors(Some("\U{1F600}\U{1F600}\U{1F600}\U{1F600}")) == []
  {
    Text.Utf16LengthOfAstral("");
  }

  /** A constructed user passes validation exactly when name, email (lower-cased, well formed),
      a password of at least 8 UTF-16 code units and an equal confirmation are given, and a given role
      is one of the four; an omitted role is valid since it defaults to 'user'. */
  lemma ConstructValidity(input: User, isEmail: string -> bool)
    ensures ValidUser(Construct(input), isEmail) <==>
      && input.name.Some? && input.name.value != ""
      && input.email.Some? && input.email.value != "" && isEmail(Text.ToLower(input.email.value))
      && input.password.Some? && Text.Utf16Length(input.password.value) >= PasswordMinLength
      && input.confirmPassword == input.password
      && (input.role.Some? ==> input.role.value in Roles)
  {
  }

  /** `parseInt(ms / 1000, 10)`: whole seconds, the quotient truncated toward zero. */
  function WholeSeconds(ms: int): (s: int)
    ensures 0 <= ms ==> 0 <= s * 1000 <= ms < s * 1000 + 1000
    ensures ms < 0 ==> s * 1000 - 1000 < ms <= s * 1000 <= 0
  {
    if ms >= 0 then ms / 1000 else -((-ms) / 1000)
  }

  /** `changedPasswordAfter`: the password changed after a session token issued at
      jwtTimestamp (seconds) was signed. */
  function ChangedPasswordAfter(u: User, jwtTimestamp: int): (r: bool)
    ensures r ==> u.passwordChangedAt.Some? && jwtTimestamp * 1000 < u.passwordChangedAt.value
  {
    match u.passwordChangedAt
    case Some(ms) => jwtTimestamp < WholeSeconds(ms)
    case None => false
  }

  /** A user whose password never changed invalidates no token. */
  lemma NeverChangedInvalidatesNothing(u: User, jwtTimestamp: int)
    requires u.passwordChangedAt.None?
    ensures !ChangedPasswordAfter(u, jwtTimestamp)
  {
  }

  /** A token issued earlier than one that is invalidated is invalidated too. */
  lemma ChangedPasswordAfterMonotone(u: User, later: int, earlier: int)
    requires earlier <= later
    requires ChangedPasswordAfter(u, later)
    ensures ChangedPasswordAfter(u, earlier)
  {
  }

  /** For a change at or after the epoch: a token is invalidated exactly when the whole second
      it was issued in ended no later than the change. */
  lemma ChangedPasswordAfterMeaning(u: User, jwtTimestamp: int)
    requires u.passwordChangedAt.Some? && u.passwordChangedAt.value >= 0
    ensures ChangedPasswordAfter(u, jwtTimestamp) <==> (jwtTimestamp + 1) * 1000 <= u.passwordChangedAt.value
  {
    var ms := u.passwordChangedAt.value;
    var s := WholeSeconds(ms);
    if jwtTimestamp < s {
      assert (jwtTimestamp + 1) * 1000 <= s * 1000;
    } else {
      assert s * 1000 <= jwtTimestamp * 1000;
    }
  }

  /** A user document with Mongoose's change tracking: whether it has been stored yet, and
      whether its password was assigned since it was created or loaded. */
  class UserDocument {
    var data: User
    var isNew: bool
    var passwordModified: bool

    constructor (input: User)
      ensures data == Construct(input) && isNew && passwordModified == input.password.Some?
    {
      data := Construct(input);
      isNew := true;
      passwordModified := input.password.Some?;
    }

    /** A document read back from the collection. */
    constructor Loaded(stored: User)
      ensures data == stored && !isNew && !passwordModified
    {
      data := stored;
      isNew := false;
      passwordModified := false;
    }

    /** Assigning a new password and its confirmation to the document. */
    method SetPassword(password: string, confirmPassword: string)
      modifies this
      ensures data == old(data).(password := Some(password), confirmPassword := Some(confirmPassword))
      ensures passwordModified && isNew == old(isNew)
    {
      data := data.(password := Some(password), confirmPassword := Some(confirmPassword));
      passwordModified := true;
    }

    /** The first `pre('save')` hook: a modified password is replaced by its hash and the
        confirmation is dropped; otherwise nothing changes. hash stands for bcrypt at cost 12. */
    method HashPasswordHook(hash: string -> string)
      requires passwordModified ==> data.password.Some?
      modifies this`data
      ensures !passwordModified ==> data == old(data)
      ensures passwordModified ==>
        data == old(data).(password := Some(hash(old(data).password.value)), confirmPassword := None)
    {
      if passwordModified {
        data := data.(password := Some(hash(data.password.value)), confirmPassword := None);
      }
    }

    /** The second `pre('save')` hook: when the password of an already stored document was
        modified, the change time becomes 5 seconds before now; otherwise nothing changes. */
    method StampPasswordChangeHook(now: int)
      modifies this`data
      ensures passwordModified && !isNew ==>
        data == old(data).(passwordChangedAt := Some(now - ChangeStampBackdate))
      ensures !(passwordModified && !isNew) ==> data == old(data)
    {
      if passwordModified && !isNew {
        data := data.(passwordChangedAt := Some(now - ChangeStampBackdate));
      }
    }

    /** `save()`: validation runs first and, when it reports errors, nothing changes; otherwise
        the two hooks run in order and the document is stored, which clears both flags. */
    method Save(isEmail: string -> bool, hash: string -> string, now: int) returns (errors: seq<FieldError>)
      modifies this
      ensures errors == UserErrors(old(data), isEmail)
      ensures errors == [] <==> ValidUser(old(data), isEmail)
      ensures errors != [] ==>
        data == old(data) && isNew == old(isNew) && passwordModified == old(passwordModified)
      ensures errors == [] ==>
        && data.password == (if old(passwordModified) then Some(hash(old(data).password.value)) else old(data).password)
        && data.confirmPassword == (if old(passwordModified) then None else old(data).confirmPassword)
        && data.passwordChangedAt ==
             (if old(passwordModified) && !old(isNew) then Some(now - ChangeStampBackdate) else old(data).passwordChangedAt)
        && data.(password := old(data).password, confirmPassword := old(data).confirmPassword,
                 passwordChangedAt := old(data).passwordChangedAt) == old(data)
        && !isNew && !passwordModified
    {
      errors := UserErrors(data, isEmail);
      ValidIffNoErrors(data, isEmail);
      if errors == [] {
        HashPasswordHook(hash);
        StampPasswordChangeHook(now);
        isNew := false;
        passwordModified := false;
      }
    }

    /** `createPasswordResetToken`: the hex text of the random bytes is returned, only its
        SHA-256 digest is stored, and it expires 10 minutes after now. random stands for
        `crypto.randomBytes(32)` and sha256Hex for the hex SHA-256 digest. */
    method CreatePasswordResetToken(random: seq<Byte>, sha256Hex: string -> string, now: int) returns (token: string)
      requires |random| == ResetTokenBytes
      modifies this`data
      ensures token == HexEncode(random) && |token| == 2 * ResetTokenBytes
      ensures data == old(data).(passwordResetToken := Some(sha256Hex(token)),
                                 passwordResetExpires := Some(now + ResetTokenLifetime))
    {
      token := HexEncode(random);
      data := data.(passwordResetToken := Some(sha256Hex(token)), passwordResetExpires := Some(now + ResetTokenLifetime));
    }
  }

  /** The token handed out is 64 lower-case hex digits for 32 random bytes, and it determines
      the bytes: different random values give different tokens. */
  lemma ResetTokenDeterminesRandom(random: seq<Byte>, other: seq<Byte>)
    ensures |HexEncode(random)| == 2 * |random|
    ensures forall i :: 0 <= i < |HexEncode(random)| ==> HexEncode(random)[i] in Digits
    ensures HexDecode(HexEncode(random)) == Some(random)
    ensures random != other ==> HexEncode(random) != HexEncode(other)
  {
    HexRoundTrip(random);
    HexRoundTrip(other);
  }

  const UserPaths: set<string> := {
    "name", "email", "photo", "password", "confirmPassword", "passwordChangedAt", "role",
    "active", "passwordResetToken", "passwordResetExpires"}

  /** The value stored at a path of a user, if any. */
  function PathValue(u: User, path: string): Option<Value> {
    match path
    case "name" => StrValue(u.name)
    case "email" => StrValue(u.email)
    case "photo" => StrValue(u.photo)
    case "password" => StrValue(u.password)
    case "confirmPassword" => StrValue(u.confirmPassword)
    case "passwordChangedAt" => InstantValue(u.passwordChangedAt)
    case "role" => StrValue(u.role)
    case "active" => if u.active.Some? then Some(Bool(u.active.value)) else None
    case "passwordResetToken" => StrValue(u.passwordResetToken)
    case "passwordResetExpires" => InstantValue(u.passwordResetExpires)
    case _ => None
  }

  /** The fields of a user as the store sees them when it evaluates a filter. */
  function ToDocument(u: User): Document {
    map path | path in UserPaths && PathValue(u, path).Some? :: PathValue(u, path).value
  }

  /** The condition the find hook adds: `{ active: { $ne: false } }`. */
  const HideInactive: Condition := Ne("active", Bool(false))

  /** A user that default reads return: its active flag is not false (true or absent). */
  predicate IsActive(u: User) {
    u.active != Some(false)
  }

  lemma HideInactiveMeaning(u: User)
    ensures MatchesAll([HideInactive], ToDocument(u)) <==> IsActive(u)
  {
  }

  /** The users a find query with these conditions returns from the collection. */
  function Find(conditions: seq<Condition>, coll: seq<User>): seq<User> {
    Select(conditions, ToDocument, coll)
  }

  /** `pre(/^find/)`: `this.find({ active: { $ne: false } })` merges the inactive-user
      exclusion into the query's filter. */
  method PreFind(q: Query)
    modifies q
    ensures q.conditions == Merge(old(q.conditions), HideInactive)
    ensures q.start == old(q.start)
  {
    q.conditions := Merge(q.conditions, HideInactive);
  }

  /** Whatever a find asks for, the hooked query returns exactly the active users among what
      the client's conditions that survive the merge select; a client condition on active
      that the merge displaces has no effect. */
  lemma FindHidesInactive(conditions: seq<Condition>, coll: seq<User>)
    ensures Find(Merge(conditions, HideInactive), coll)
            == Seqs.Filter(IsActive, Find(Seqs.Filter(Survivors(HideInactive), conditions), coll))
    ensures forall u :: u in Find(Merge(conditions, HideInactive), coll) ==> IsActive(u)
  {
    var kept := Seqs.Filter(Survivors(HideInactive), conditions);
    SelectMerge(conditions, HideInactive, ToDocument, coll);
    var before := Find(kept, coll);
    forall u | u in before ensures MatchesAll([HideInactive], ToDocument(u)) == IsActive(u) {
      HideInactiveMeaning(u);
    }
    SelectAsFilter([HideInactive], ToDocument, before, IsActive);
    forall u | u in Find(Merge(conditions, HideInactive), coll) ensures IsActive(u) {
      FilterMembership(IsActive, before, u);
    }
  }

  /** A client filter that does not name active is narrowed to its active users. */
  lemma FindHidesInactiveUntouched(conditions: seq<Condition>, coll: seq<User>)
    requires forall c :: c in conditions ==> c.field != "active"
    ensures Find(Merge(conditions, HideInactive), coll) == Seqs.Filter(IsActive, Find(conditions, coll))
  {
    MergeUntouched(conditions, HideInactive);
    FindHidesInactive(conditions, coll);
    FilterKeepsAll(Survivors(HideInactive), conditions);
  }

  /** A find cannot reach a deactivated user: asking for `active=false` selects it, yet the
      merged filter replaces that value with `{ $ne: false }`. */
  lemma InactiveUserNotFound(u: User)
    requires u.active == Some(false)
    ensures Find([Eq("active", Bool(false))], [u]) == [u]
    ensures Find(Merge([Eq("active", Bool(false))], HideInactive), [u]) == []
  {
    FindHidesInactive([Eq("active", Bool(false))], [u]);
    assert ToDocument(u)["active"] == Bool(false);
    assert Find([Eq("active", Bool(false))], [u]) == [u] by {
      assert Select([Eq("active", Bool(false))], ToDocument, [u][1..]) == [];
    }
  }

  /** A hooked find returns exactly the users whose active flag is not false, INCLUDING those
      that have no active flag at all, each as often as stored and in collection order. */
  lemma ActiveUsersExactly(coll: seq<User>, u: User)
    ensures Find(Merge([], HideInactive), coll) == Seqs.Filter(IsActive, coll)
    ensures u in Find(Merge([], HideInactive), coll) <==> u in coll && u.active != Some(false)
    ensures u in coll && u.active.None? ==> u in Find(Merge([], HideInactive), coll)
    ensures multiset(Find(Merge([], HideInactive), coll))[u] == if IsActive(u) then multiset(coll)[u] else 0
    ensures IsSubsequence(Find(Merge([], HideInactive), coll), coll)
  {
    FindHidesInactiveUntouched([], coll);
    SelectNothing(ToDocument, coll);
    FilterMembership(IsActive, coll, u);
    FilterMultiplicity(IsActive, coll, u);
    FilterIsSubsequence(IsActive, coll);
  }
}
