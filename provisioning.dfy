/** The `adminCreateUser` callable: an administrator gate, normalisation and
    validation of the request body, then account creation at the identity
    provider followed by a merge-write of the profile into `users/{uid}`,
    with every backend error translated to an `already-exists` or
    `internal` error. */
module Provisioning {
  import opened Base
  import opened Text
  import opened Firestore
  import opened Identity

  const AdminRole := "ADMIN"
  const DefaultRole := "FERMIER"
  /** The roles a new user may be given, in the order the source lists them. */
  const AllowedRoles: seq<string> := ["ADMIN", "FERMIER", "VETERINAIRE", "DEPOT"]
  const MinPasswordLength := 6
  /** The provider's error code for an email that already has an account. */
  const DuplicateEmailCode := "auth/email-already-exists"

  /** The error codes the callable reports to its caller. */
  datatype ErrorCode = Unauthenticated | PermissionDenied | InvalidArgument | AlreadyExists | Internal

  /** Which of the handler's `throw`s fired. Each carries one error code; the
      text of the message is not modelled, except that an internal error keeps
      the backend error it reports. */
  datatype Cause =
    | NotSignedIn | ProfileMissing | AccountInactive | NotAdmin
    | EmailRequired | PasswordTooShort | RoleInvalid
    | EmailTaken | Backend(error: BackendError)
  {
    function Code(): ErrorCode {
      match this
      case NotSignedIn => Unauthenticated
      case ProfileMissing | AccountInactive | NotAdmin => PermissionDenied
      case EmailRequired | PasswordTooShort | RoleInvalid => InvalidArgument
      case EmailTaken => AlreadyExists
      case Backend(_) => Internal
    }
  }

  /** The callable's result: `{ ok: true, uid }`, or the error it throws. */
  datatype Outcome = Ok(uid: string) | Err(cause: Cause)

  // ---------------------------------------------------------------------
  // Authorization gate (assertAdmin)
  // ---------------------------------------------------------------------

  /** The caller's profile document lets it through: `active` is exactly
      `true` and `role` is exactly the string `"ADMIN"`. */
  predicate IsActiveAdmin(profile: Doc) {
    Lookup(profile, "active") == Some(Bool(true)) && Lookup(profile, "role") == Some(Str(AdminRole))
  }

  /** The gate's verdict for caller `auth` against the profiles in `docs`:
      `None` lets the request through, otherwise the reason it is refused.
      The checks fire in the order: no caller, no profile, inactive, not admin. */
  function GateDecision(auth: Option<string>, docs: map<string, Doc>): (r: Option<Cause>)
    ensures r.None? <==> auth.Some? && auth.value in docs && IsActiveAdmin(docs[auth.value])
    ensures r.Some? ==> r.value.Code() == (if auth.None? then Unauthenticated else PermissionDenied)
  {
    match auth
    case None => Some(NotSignedIn)
    case Some(uid) =>
      if uid !in docs then Some(ProfileMissing)
      else if Lookup(docs[uid], "active") != Some(Bool(true)) then Some(AccountInactive)
      else if Lookup(docs[uid], "role") != Some(Str(AdminRole)) then Some(NotAdmin)
      else None
  }

  /** The gate's refusals, in the order they are checked: no caller, then no
      profile, then a profile whose `active` is not exactly `true`, then one
      whose `role` is not exactly `"ADMIN"`. */
  lemma GateOrder(auth: Option<string>, docs: map<string, Doc>)
    ensures GateDecision(auth, docs) == Some(NotSignedIn) <==> auth.None?
    ensures GateDecision(auth, docs) == Some(ProfileMissing) <==> auth.Some? && auth.value !in docs
    ensures GateDecision(auth, docs) == Some(AccountInactive) <==>
      auth.Some? && auth.value in docs && Lookup(docs[auth.value], "active") != Some(Bool(true))
    ensures GateDecision(auth, docs) == Some(NotAdmin) <==>
      auth.Some? && auth.value in docs && Lookup(docs[auth.value], "active") == Some(Bool(true))
      && Lookup(docs[auth.value], "role") != Some(Str(AdminRole))
  {
  }

  /** `assertAdmin`: with no caller, refuse without touching the store;
      otherwise read the caller's profile once and judge it. */
  method AssertAdmin(auth: Option<string>, users: Collection) returns (denial: Option<Cause>)
    modifies users`ops
    ensures denial == GateDecision(auth, users.docs)
    ensures auth.None? ==> users.ops == old(users.ops)
    ensures auth.Some? ==> users.ops == old(users.ops) + [Read(auth.value)]
  {
    if auth.None? {
      return Some(NotSignedIn);
    }
    var callerUid := auth.value;
    var snap := users.Get(callerUid);
    if snap.None? {
      return Some(ProfileMissing);
    }
    var data := snap.value;
    if Lookup(data, "active") != Some(Bool(true)) {
      return Some(AccountInactive);
    }
    if Lookup(data, "role") != Some(Str(AdminRole)) {
      return Some(NotAdmin);
    }
    return None;
  }

  // ---------------------------------------------------------------------
  // Input normalisation and validation
  // ---------------------------------------------------------------------

  /** The request body; every field may be absent. */
  datatype RequestBody = RequestBody(
    email: Option<string>,
    password: Option<string>,
    displayName: Option<string>,
    role: Option<string>,
    active: Option<bool>)

  /** `request.data || {}`. */
  function Body(data: Option<RequestBody>): (b: RequestBody)
    ensures data.Some? ==> b == data.value
    ensures data.None? ==> b == RequestBody(None, None, None, None, None)
  {
    data.GetOr(RequestBody(None, None, None, None, None))
  }

  /** `String(v || fallback)` on a string field: an absent or empty value
      gives `fallback`. */
  function OrDefault(v: Option<string>, fallback: string): (r: string)
    ensures v.Some? && v.value != "" ==> r == v.value
    ensures v.None? || v == Some("") ==> r == fallback
  {
    if v.Some? && v.value != "" then v.value else fallback
  }

  /** The request fields after normalisation. */
  datatype Normalized = Normalized(email: string, password: string, displayName: string, role: string, active: bool)

  /** Normalisation of the body: email trimmed and lower-cased, password
      taken as it is, display name and role trimmed (role defaulting to
      `"FERMIER"`), `active` true only for the value `true`. */
  function Normalize(data: Option<RequestBody>): (n: Normalized)
    ensures Trimmed(n.email) && forall i :: 0 <= i < |n.email| ==> !IsUpper(n.email[i])
    ensures Trimmed(n.displayName) && Trimmed(n.role)
    ensures n.email == ToLower(Trim(OrDefault(Body(data).email, "")))
    ensures n.password == Body(data).password.GetOr("")
    ensures n.displayName == Trim(OrDefault(Body(data).displayName, ""))
    ensures n.role == Trim(OrDefault(Body(data).role, DefaultRole))
    ensures n.active <==> Body(data).active == Some(true)
  {
    var b := Body(data);
    var email := Trim(OrDefault(b.email, ""));
    ToLowerTrimmed(email);
    Normalized(
      ToLower(email),
      OrDefault(b.password, ""),
      Trim(OrDefault(b.displayName, "")),
      Trim(OrDefault(b.role, DefaultRole)),
      b.active == Some(true))
  }

  /** The normalised email is the given one without its surrounding white
      space and lower-cased: an email `core` padded with any white space
      normalises to `core` in lower case. */
  lemma NormalizedEmail(data: Option<RequestBody>, pre: string, core: string, post: string)
    requires AllSpace(pre) && AllSpace(post) && Trimmed(core)
    requires Body(data).email == Some(pre + core + post)
    ensures Normalize(data).email == ToLower(core)
  {
    TrimPadded(pre, core, post);
  }

  /** The normalised display name is the given one without its surrounding
      white space. */
  lemma NormalizedDisplayName(data: Option<RequestBody>, pre: string, core: string, post: string)
    requires AllSpace(pre) && AllSpace(post) && Trimmed(core)
    requires Body(data).displayName == Some(pre + core + post)
    ensures Normalize(data).displayName == core
  {
    TrimPadded(pre, core, post);
  }

  /** The normalised role is the given one without its surrounding white
      space, and `"FERMIER"` when the role given is empty. */
  lemma NormalizedRole(data: Option<RequestBody>, pre: string, core: string, post: string)
    requires AllSpace(pre) && AllSpace(post) && Trimmed(core)
    requires Body(data).role == Some(pre + core + post)
    ensures Normalize(data).role == if pre + core + post == "" then DefaultRole else core
  {
    TrimPadded(pre, core, post);
    TrimOfTrimmed(DefaultRole);
  }

  /** `assertRoleValid`: the role must be one of the four allowed roles. */
  function CheckRole(role: string): (r: Option<Cause>)
    ensures r.None? <==> role in AllowedRoles
    ensures r.Some? ==> r == Some(RoleInvalid)
  {
    if role in AllowedRoles then None else Some(RoleInvalid)
  }

  /** The validation checks in order: email, password, role. */
  function Validate(n: Normalized): (r: Option<Cause>)
    ensures r.None? <==> n.email != "" && |n.password| >= MinPasswordLength && n.role in AllowedRoles
    ensures r.Some? ==> r.value.Code() == InvalidArgument
  {
    if n.email == "" then Some(EmailRequired)
    else if n.password == "" || |n.password| < MinPasswordLength then Some(PasswordTooShort)
    else CheckRole(n.role)
  }

  /** The validation refusals, in the order they are checked: empty email,
      then short password, then a role outside the allowed four. */
  lemma ValidationOrder(n: Normalized)
    ensures Validate(n) == Some(EmailRequired) <==> n.email == ""
    ensures Validate(n) == Some(PasswordTooShort) <==> n.email != "" && |n.password| < MinPasswordLength
    ensures Validate(n) == Some(RoleInvalid) <==>
      n.email != "" && |n.password| >= MinPasswordLength && n.role !in AllowedRoles
  {
  }

  /** The email check: the normalised email is empty, and the request is
      refused with `EmailRequired`, exactly when the email given is absent
      or white space only. */
  lemma EmailRule(data: Option<RequestBody>)
    ensures Normalize(data).email == "" <==> AllSpace(OrDefault(Body(data).email, ""))
    ensures Validate(Normalize(data)) == Some(EmailRequired) <==> AllSpace(OrDefault(Body(data).email, ""))
  {
  }

  /** The password check, once the email passed: an absent password or one
      shorter than six characters is refused, any other passes; the password
      is not trimmed, so six spaces pass. */
  lemma PasswordRule(data: Option<RequestBody>)
    requires Normalize(data).email != ""
    ensures Validate(Normalize(data)) == Some(PasswordTooShort) <==>
      |Body(data).password.GetOr("")| < MinPasswordLength
    ensures Body(data).password.None? ==> Validate(Normalize(data)) == Some(PasswordTooShort)
  {
  }

  /** The role check, once email and password passed: the trimmed role (with
      an absent or empty role read as `"FERMIER"`) is accepted exactly when
      it is one of the four allowed roles. */
  lemma RoleRule(data: Option<RequestBody>)
    requires Normalize(data).email != "" && |Normalize(data).password| >= MinPasswordLength
    ensures Validate(Normalize(data)) == None <==> Trim(OrDefault(Body(data).role, DefaultRole)) in AllowedRoles
    ensures Validate(Normalize(data)) != None ==> Validate(Normalize(data)) == Some(RoleInvalid)
  {
  }

  /** An absent or empty role becomes `"FERMIER"` and passes the role check. */
  lemma RoleDefaults(data: Option<RequestBody>)
    requires Body(data).role.None? || Body(data).role == Some("")
    ensures Normalize(data).role == DefaultRole
    ensures CheckRole(Normalize(data).role).None?
  {
    TrimOfTrimmed(DefaultRole);
  }

  /** A role made only of white space is not replaced by the default: it
      trims to the empty string and is refused. */
  lemma BlankRoleRejected(data: Option<RequestBody>)
    requires Body(data).role.Some? && Body(data).role.value != "" && AllSpace(Body(data).role.value)
    ensures Normalize(data).role == ""
    ensures CheckRole(Normalize(data).role) == Some(RoleInvalid)
  {
  }

  /** The body a client would send to resubmit normalised fields. */
  function Resubmission(n: Normalized): RequestBody {
    RequestBody(Some(n.email), Some(n.password), Some(n.displayName), Some(n.role), Some(n.active))
  }

  /** Normalisation is idempotent: resubmitting the normalised fields of a
      request that has a role gives the same normalised fields back. */
  lemma NormalizeIdempotent(data: Option<RequestBody>)
    requires Normalize(data).role != ""
    ensures Normalize(Some(Resubmission(Normalize(data)))) == Normalize(data)
  {
    var n := Normalize(data);
    var b := Resubmission(n);
    assert Body(Some(b)) == b;
    TrimOfTrimmed(n.email);
    ToLowerOfLower(n.email);
    assert OrDefault(b.email, "") == n.email;
    TrimOfTrimmed(n.displayName);
    assert OrDefault(b.displayName, "") == n.displayName;
    TrimOfTrimmed(n.role);
    assert OrDefault(b.role, DefaultRole) == n.role;
  }

  /** Trimming a string with no white space at its ends changes nothing. */
  lemma TrimOfTrimmed(s: string)
    requires Trimmed(s)
    ensures Trim(s) == s
  {
    TrimPadded([], s, []);
    assert [] + s + [] == s;
  }

  // ---------------------------------------------------------------------
  // Provisioning: the account request and the profile record
  // ---------------------------------------------------------------------

  /** `displayName || undefined` (or `|| null`): an empty display name is absent. */
  function DisplayNameOf(displayName: string): (r: Option<string>)
    ensures r.None? <==> displayName == ""
    ensures r.Some? ==> r.value == displayName
  {
    if displayName == "" then None else Some(displayName)
  }

  /** The properties passed to `createUser`: the account is disabled exactly
      when the new user is not active. */
  function AccountRequestOf(n: Normalized): (a: NewAccount)
    ensures a.email == n.email && a.password == n.password
    ensures a.displayName == DisplayNameOf(n.displayName)
    ensures a.disabled <==> !n.active
  {
    NewAccount(n.email, n.password, DisplayNameOf(n.displayName), !n.active)
  }

  /** The profile record mirrored into `users/{uid}`. */
  datatype Profile = Profile(uid: string, email: string, displayName: Option<string>, role: string, active: bool)

  function ProfileOf(uid: string, n: Normalized): (p: Profile)
    ensures p.uid == uid && p.email == n.email && p.role == n.role && p.active == n.active
    ensures p.displayName == DisplayNameOf(n.displayName)
  {
    Profile(uid, n.email, DisplayNameOf(n.displayName), n.role, n.active)
  }

  /** The names of the fields the handler writes. */
  const ProfileFieldNames: set<string> := {"uid", "email", "displayName", "role", "active", "createdAt", "updatedAt"}

  /** Reads a profile record back from a document, if its five profile fields
      have the right types. */
  function DecodeProfile(d: Doc): Option<Profile> {
    var fields: (Option<Value>, Option<Value>, Option<Value>, Option<Value>, Option<Value>) :=
      (Lookup(d, "uid"), Lookup(d, "email"), Lookup(d, "displayName"), Lookup(d, "role"), Lookup(d, "active"));
    match fields
    case (Some(Str(uid)), Some(Str(email)), Some(Null), Some(Str(role)), Some(Bool(active))) =>
      Some(Profile(uid, email, None, role, active))
    case (Some(Str(uid)), Some(Str(email)), Some(Str(name)), Some(Str(role)), Some(Bool(active))) =>
      Some(Profile(uid, email, Some(name), role, active))
    case _ => None
  }

  /** The fields of the merge-write: the profile record (a missing display
      name written as `null`) and two server timestamps. Reading the fields
      back gives the profile. */
  function ProfileFields(p: Profile): (d: Doc)
    ensures d.Keys == ProfileFieldNames
    ensures DecodeProfile(d) == Some(p)
    ensures d["createdAt"] == ServerTimestamp && d["updatedAt"] == ServerTimestamp
  {
    map[
      "uid" := Str(p.uid),
      "email" := Str(p.email),
      "displayName" := (match p.displayName case None => Null case Some(name) => Str(name)),
      "role" := Str(p.role),
      "active" := Bool(p.active),
      "createdAt" := ServerTimestamp,
      "updatedAt" := ServerTimestamp]
  }

  /** Whatever document was stored under the uid before, the merge-write
      leaves one that reads back as the written profile, with every other
      field of the old document kept. */
  lemma MergedProfileReadsBack(existing: Option<Doc>, p: Profile)
    ensures DecodeProfile(Merge(existing, ProfileFields(p))) == Some(p)
    ensures existing.Some? ==> forall k :: k in existing.value && k !in ProfileFieldNames ==>
      Merge(existing, ProfileFields(p))[k] == existing.value[k]
  {
    var d := Merge(existing, ProfileFields(p));
    var f := ProfileFields(p);
    assert Lookup(d, "uid") == Lookup(f, "uid");
    assert Lookup(d, "email") == Lookup(f, "email");
    assert Lookup(d, "displayName") == Lookup(f, "displayName");
    assert Lookup(d, "role") == Lookup(f, "role");
    assert Lookup(d, "active") == Lookup(f, "active");
  }

  /** The merge-write always writes `createdAt`: on an existing document the
      old creation time is replaced by a new server timestamp. */
  lemma CreatedAtOverwritten(existing: Doc, p: Profile)
    requires "createdAt" in existing && existing["createdAt"] != ServerTimestamp
    ensures Merge(Some(existing), ProfileFields(p))["createdAt"] != existing["createdAt"]
  {
  }

  /** A profile written by the handler lets its user through the gate exactly
      when the new user is an active administrator. */
  lemma CreatedProfileGate(docs: map<string, Doc>, uid: string, n: Normalized)
    ensures var written := docs[uid := Merge(Lookup(docs, uid), ProfileFields(ProfileOf(uid, n)))];
      GateDecision(Some(uid), written).None? <==> n.role == AdminRole && n.active
  {
    var d := Merge(Lookup(docs, uid), ProfileFields(ProfileOf(uid, n)));
    var f := ProfileFields(ProfileOf(uid, n));
    assert Lookup(d, "active") == Some(Bool(n.active));
    assert Lookup(d, "role") == Some(Str(n.role));
  }

  // ---------------------------------------------------------------------
  // Error translation
  // ---------------------------------------------------------------------

  /** `err && err.code ? String(err.code) : ""`. */
  function CodeText(e: BackendError): (t: string)
    ensures e.code.Some? ==> t == e.code.value
    ensures e.code.None? ==> t == ""
  {
    e.code.GetOr("")
  }

  /** The `catch` block: an error whose code contains
      `"auth/email-already-exists"` is reported as `already-exists`, any
      other as `internal` with the error attached. */
  function TranslateError(e: BackendError): (c: Cause)
    ensures c == EmailTaken || c == Backend(e)
    ensures c.Code() == AlreadyExists || c.Code() == Internal
  {
    if Contains(CodeText(e), DuplicateEmailCode) then EmailTaken else Backend(e)
  }

  /** An error is reported as `already-exists` exactly when the duplicate
      email code occurs somewhere in its code. */
  lemma TranslateErrorIff(e: BackendError)
    ensures TranslateError(e) == EmailTaken <==> exists i :: OccursAt(CodeText(e), DuplicateEmailCode, i)
  {
    ContainsIff(CodeText(e), DuplicateEmailCode);
  }

  /** The provider's duplicate-email code, alone or with a prefix such as a
      service name, is reported as `already-exists`. */
  lemma DuplicateEmailTranslated(prefix: string, suffix: string, message: string)
    ensures TranslateError(BackendError(Some(prefix + DuplicateEmailCode + suffix), message)) == EmailTaken
  {
    var t := prefix + DuplicateEmailCode + suffix;
    assert t[|prefix|..|prefix| + |DuplicateEmailCode|] == DuplicateEmailCode;
    assert OccursAt(t, DuplicateEmailCode, |prefix|);
    TranslateErrorIff(BackendError(Some(t), message));
  }

  /** An error without a code is always reported as `internal`. */
  lemma CodelessErrorIsInternal(message: string)
    ensures TranslateError(BackendError(None, message)) == Backend(BackendError(None, message))
  {
    TranslateErrorIff(BackendError(None, message));
  }

  // ---------------------------------------------------------------------
  // The handler
  // ---------------------------------------------------------------------

  /** What the provisioning steps leave behind, given the operations `before`
      already made on the store: exactly one account is requested, disabled
      when the user is not active. If the provider refuses, the error is
      translated and the store is not written. If it issues a uid, the
      account exists and one merge-write of the profile is made at that uid;
      if the write fails, the account stays (there is no rollback) and the
      store is unchanged. */
  twostate predicate Provisioned(
    n: Normalized, users: Collection, provider: Provider,
    answer: Answer, writeFault: Option<BackendError>, outcome: Outcome, before: seq<Op>)
    reads users, provider
  {
    && provider.requests == old(provider.requests) + [AccountRequestOf(n)]
    && (answer.Refused? ==>
          && outcome == Err(TranslateError(answer.error))
          && provider.accounts == old(provider.accounts)
          && users.docs == old(users.docs)
          && users.ops == before)
    && (answer.Issued? ==>
          var fields := ProfileFields(ProfileOf(answer.uid, n));
          && provider.accounts == old(provider.accounts)[answer.uid := AccountRequestOf(n)]
          && users.ops == before + [MergeWrite(answer.uid, fields)]
          && (writeFault.None? ==>
                && outcome == Ok(answer.uid)
                && users.docs == old(users.docs)[answer.uid := Merge(Lookup(old(users.docs), answer.uid), fields)])
          && (writeFault.Some? ==>
                && outcome == Err(TranslateError(writeFault.value))
                && users.docs == old(users.docs)))
  }

  /** The `try` block: create the account, then merge-write the profile at
      the issued uid; any error either step throws is translated. `answer`
      is what the identity provider answers to `createUser` and `writeFault`
      what the store answers to the merge-write (`None`: it succeeded). */
  method Provision(n: Normalized, users: Collection, provider: Provider, answer: Answer, writeFault: Option<BackendError>)
    returns (outcome: Outcome)
    modifies users, provider
    ensures Provisioned(n, users, provider, answer, writeFault, outcome, old(users.ops))
    // On success the store holds the new profile at the issued uid, and no
    // other document changed.
    ensures outcome.Ok? <==> answer.Issued? && writeFault.None?
    ensures outcome.Ok? ==>
      && outcome.uid in users.docs
      && DecodeProfile(users.docs[outcome.uid]) == Some(ProfileOf(outcome.uid, n))
      && users.docs.Keys == old(users.docs).Keys + {outcome.uid}
      && forall k :: k in old(users.docs) && k != outcome.uid ==> users.docs[k] == old(users.docs)[k]
    ensures !outcome.Ok? ==> users.docs == old(users.docs)
  {
    var created := provider.CreateUser(AccountRequestOf(n), answer);
    if created.Refused? {
      return Err(TranslateError(created.error));
    }
    var uid := created.uid;
    var fields := ProfileFields(ProfileOf(uid, n));
    var failed := users.SetMerge(uid, fields, writeFault);
    if failed.Some? {
      return Err(TranslateError(failed.value));
    }
    MergedProfileReadsBack(Lookup(old(users.docs), uid), ProfileOf(uid, n));
    return Ok(uid);
  }

  /** `adminCreateUser`: gate, then normalisation and validation, then the
      provisioning steps. The caller identity `auth` comes from the transport;
      `answer` and `writeFault` are the backends' answers, as for `Provision`. */
  method AdminCreateUser(
    auth: Option<string>, data: Option<RequestBody>,
    users: Collection, provider: Provider,
    answer: Answer, writeFault: Option<BackendError>)
    returns (outcome: Outcome)
    modifies users, provider
    // The gate runs first and its verdict does not depend on the body; on
    // refusal nothing is created or written, and without a caller nothing is read.
    ensures var gate := GateDecision(auth, old(users.docs));
      gate.Some? ==>
        && outcome == Err(gate.value)
        && users.docs == old(users.docs)
        && users.ops == old(users.ops) + (if auth.Some? then [Read(auth.value)] else [])
        && unchanged(provider)
    // Validation failures also have no effect beyond the gate's read.
    ensures var gate := GateDecision(auth, old(users.docs));
      var invalid := Validate(Normalize(data));
      gate.None? && invalid.Some? ==>
        && outcome == Err(invalid.value)
        && users.docs == old(users.docs)
        && users.ops == old(users.ops) + [Read(auth.value)]
        && unchanged(provider)
    // Past the gate and validation, the provisioning steps run on the
    // normalised fields, after the gate's read.
    ensures var gate := GateDecision(auth, old(users.docs));
      var n := Normalize(data);
      gate.None? && Validate(n).None? ==>
        Provisioned(n, users, provider, answer, writeFault, outcome, old(users.ops) + [Read(auth.value)])
    // Success exactly when every step succeeded; then the store holds the
    // new profile at the issued uid and no other document changed.
    ensures outcome.Ok? <==>
      GateDecision(auth, old(users.docs)).None? && Validate(Normalize(data)).None?
      && answer.Issued? && writeFault.None?
    ensures outcome.Ok? ==>
      && outcome.uid in users.docs
      && DecodeProfile(users.docs[outcome.uid]) == Some(ProfileOf(outcome.uid, Normalize(data)))
      && forall k :: k in old(users.docs) && k != outcome.uid ==> users.docs[k] == old(users.docs)[k]
    ensures !outcome.Ok? ==> users.docs == old(users.docs)
  {
    var denial := AssertAdmin(auth, users);
    if denial.Some? {
      return Err(denial.value);
    }

    var n := Normalize(data);
    var invalid := Validate(n);
    if invalid.Some? {
      return Err(invalid.value);
    }

    outcome := Provision(n, users, provider, answer, writeFault);
  }
}
