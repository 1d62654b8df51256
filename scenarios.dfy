/** Runs of `adminCreateUser` against a store holding only the caller's
    profile, proved from the handler's contract alone: what any client
    observes for the requests of each kind. */
module Scenarios {
  import opened Base
  import opened Text
  import opened Firestore
  import opened Identity
  import opened Provisioning

  /** A profile document of an existing user with the given role and activity. */
  function CallerProfile(role: string, active: bool): (d: Doc)
    ensures IsActiveAdmin(d) <==> role == AdminRole && active
  {
    map["role" := Str(role), "active" := Bool(active)]
  }

  /** An email as the handler stores it: non-empty, trimmed, no upper-case
      letter (for example "a@b.com"). */
  predicate NormalEmail(email: string) {
    email != "" && Trimmed(email) && forall i :: 0 <= i < |email| ==> !IsUpper(email[i])
  }

  /** A request with a normal email, a role given or left out, and
      `active: true`, normalises to its own fields. */
  lemma NormalRequest(email: string, password: string, role: Option<string>)
    requires NormalEmail(email)
    requires role.Some? ==> role.value in AllowedRoles
    ensures Normalize(Some(RequestBody(Some(email), Some(password), None, role, Some(true))))
      == Normalized(email, password, "", role.GetOr(DefaultRole), true)
  {
    TrimOfTrimmed(email);
    ToLowerOfLower(email);
    TrimOfTrimmed(role.GetOr(DefaultRole));
  }

  /** An active admin creates an active user with a normal email, a password
      of at least six characters and an allowed role (for example
      "a@b.com", "secret1", "DEPOT"): the call succeeds with the issued uid,
      the account is enabled, and the store holds the new profile, without
      display name. */
  method AdminCreatesUser(admin: string, email: string, password: string, role: string, uid: string)
    returns (outcome: Outcome, stored: Option<Profile>, accounts: map<string, NewAccount>)
    requires NormalEmail(email) && |password| >= MinPasswordLength && role in AllowedRoles
    ensures outcome == Ok(uid)
    ensures stored == Some(Profile(uid, email, None, role, true))
    ensures accounts == map[uid := NewAccount(email, password, None, false)]
  {
    var users := new Collection(map[admin := CallerProfile(AdminRole, true)]);
    var provider := new Provider(map[]);
    var body := RequestBody(Some(email), Some(password), None, Some(role), Some(true));
    NormalRequest(email, password, Some(role));
    assert GateDecision(Some(admin), users.docs).None?;
    assert Validate(Normalize(Some(body))).None?;
    outcome := AdminCreateUser(Some(admin), Some(body), users, provider, Issued(uid), None);
    stored := DecodeProfile(users.docs[uid]);
    accounts := provider.accounts;
  }

  /** An active FERMIER calling the operation is refused with
      `permission-denied` whatever it sends, and no account is created. */
  method FarmerIsRefused(farmer: string, body: Option<RequestBody>, answer: Answer)
    returns (outcome: Outcome, accounts: map<string, NewAccount>)
    ensures outcome == Err(NotAdmin) && outcome.cause.Code() == PermissionDenied
    ensures accounts == map[]
  {
    var users := new Collection(map[farmer := CallerProfile(DefaultRole, true)]);
    var provider := new Provider(map[]);
    outcome := AdminCreateUser(Some(farmer), body, users, provider, answer, None);
    accounts := provider.accounts;
  }

  /** An admin asking for a password shorter than six characters (for
      example "abc") is refused with `invalid-argument`, and no account is
      created whatever the provider would have answered. */
  method ShortPasswordIsRefused(admin: string, email: string, password: string, answer: Answer)
    returns (outcome: Outcome, accounts: map<string, NewAccount>)
    requires NormalEmail(email) && |password| < MinPasswordLength
    ensures outcome == Err(PasswordTooShort) && outcome.cause.Code() == InvalidArgument
    ensures accounts == map[]
  {
    var users := new Collection(map[admin := CallerProfile(AdminRole, true)]);
    var provider := new Provider(map[]);
    var body := RequestBody(Some(email), Some(password), None, None, None);
    TrimOfTrimmed(email);
    ToLowerOfLower(email);
    assert Normalize(Some(body)).email == email;
    outcome := AdminCreateUser(Some(admin), Some(body), users, provider, answer, None);
    accounts := provider.accounts;
  }

  /** Submitting a request again after it succeeded, against any store in
      which the caller is an active admin: the provider refuses the duplicate
      email with an error whose code contains `auth/email-already-exists`, so
      the call reports `already-exists` and the store is left as it was, with
      no second profile document. */
  method SameEmailAgain(admin: string, initial: map<string, Doc>, email: string, password: string, prefix: string, suffix: string, message: string)
    returns (outcome: Outcome, docs: map<string, Doc>)
    requires admin in initial && IsActiveAdmin(initial[admin])
    requires NormalEmail(email) && |password| >= MinPasswordLength
    ensures outcome == Err(EmailTaken) && outcome.cause.Code() == AlreadyExists
    ensures docs == initial
  {
    var users := new Collection(initial);
    var provider := new Provider(map[]);
    var body := RequestBody(Some(email), Some(password), None, None, Some(true));
    NormalRequest(email, password, None);
    var duplicate := BackendError(Some(prefix + DuplicateEmailCode + suffix), message);
    DuplicateEmailTranslated(prefix, suffix, message);
    outcome := AdminCreateUser(Some(admin), Some(body), users, provider, Refused(duplicate), None);
    docs := users.docs;
  }
}
