# adminCreateUser: a verified model

This project models the one administrative operation of the farm
application's backend, the callable `adminCreateUser`. An administrator
calls it to provision a new user. The operation runs these steps in order:

1. **Gate** (`assertAdmin`). The caller must be signed in. Its profile
   document `users/{uid}` must exist, and its `active` must be exactly `true`
   and its `role` exactly `"ADMIN"`.
2. **Normalisation and validation.** The email is trimmed and lower-cased.
   The password is taken as it is. The display name is trimmed. The role is
   trimmed and defaults to `"FERMIER"`. `active` is true only for the value
   `true`. Then the email must be non-empty, the password at least six
   characters, and the role one of `ADMIN`, `FERMIER`, `VETERINAIRE`, `DEPOT`.
3. **Provisioning.** The identity provider creates the account, disabled
   when the user is not active. Then the profile record is merge-written into
   `users/{uid}` under the issued uid.
4. **Error translation.** Any error thrown by either step becomes
   `already-exists` when its code contains `auth/email-already-exists`, and
   `internal` otherwise.

The modules follow that structure:

- `Base`: the `Option` type, and `BackendError` (an error's code and message).
- `Text`: the JavaScript string operations used: `trim` (over ECMAScript's
  white-space set), `toLowerCase` (on ASCII letters) and `includes`.
- `Firestore`: field values, documents, merge-write semantics, and the
  `users` collection as a class whose `docs` map the handler reads and
  merge-writes. A ghost log records each read and write request.
- `Identity`: the identity provider as a class holding its accounts, with a
  ghost log of `createUser` calls.
- `Provisioning`: the gate, normalisation, validation, the profile record,
  error translation, and the handler methods `Provision` (the `try` block)
  and `AdminCreateUser`.
- `Scenarios`: client methods that run the handler against fresh stores.
  Their results are proved from the handler's contract alone.

The backends' own decisions are parameters of the handler. `answer` is what
`createUser` returns: an issued uid or a thrown error. `writeFault` is whether
the merge-write throws. The model states, for every combination, the outcome,
the new store, the provider's accounts and the requests made.

The merge-write does not keep an earlier creation time. The handler writes
`createdAt` on every call (functions/index.js:68), and the merge replaces
whatever value the document held. `Provisioning.CreatedAtOverwritten` states
this for an earlier `createdAt` that is not the `ServerTimestamp` token. The
model writes that token in place of the time, so a document the handler wrote
itself already holds it, and a second merge shows no change there.

## Model

| member | source | states |
|---|---|---|
| `Text.IsSpace` | functions/index.js:39-42 | the characters trim removes: the ECMAScript white-space and line-terminator code points |
| `Text.Trim` | functions/index.js:39 | the trimmed string has no white space at either end, and it is empty exactly when the input is all white space |
| `Text.LeadingSpacesSpec` | functions/index.js:39 | the leading count covers only white space and stops at the first other character |
| `Text.TrailingSpacesSpec` | functions/index.js:39 | the trailing count covers only white space and stops at the last other character |
| `Text.TrimInfix` | functions/index.js:39 | the trimmed string is a middle slice of the input, with only white space before and after it |
| `Text.TrimPadded` | functions/index.js:41-42 | trimming any white-space padding around a string without boundary white space gives that string back |
| `Text.TrimIdempotent` | functions/index.js:41-42 | trimming twice equals trimming once |
| `Text.ToLower` | functions/index.js:39 | lower-casing keeps the length, turns every upper-case ASCII letter into the lower-case letter at the same place in the alphabet, and leaves no upper-case letter |
| `Text.ToLowerKeeps` | functions/index.js:39 | lower-casing changes only upper-case letters and keeps white space as white space |
| `Text.ToLowerTrimmed` | functions/index.js:39 | applying toLowerCase after trim leaves the email trimmed |
| `Text.ToLowerOfLower` | functions/index.js:39 | lower-casing a string without upper-case letters changes nothing |
| `Text.ToLowerIdempotent` | functions/index.js:39 | lower-casing twice equals lower-casing once |
| `Text.Contains` | functions/index.js:77 | includes never holds for a substring longer than the string, and always holds for the empty substring |
| `Text.ContainsIff` | functions/index.js:77 | includes holds exactly when the substring occurs at some position |
| `Base.Lookup` | functions/index.js:13-23 | a field read, or a document snapshot, is present exactly when the map has the key, and then holds its value |
| `Firestore.Merge` | functions/index.js:61-72 | a merge-write keeps every field it does not name, takes the written value for every field it names, and creates a missing document |
| `Firestore.MergeIdempotent` | functions/index.js:61-72 | merging the same fields twice equals merging once |
| `Firestore.Collection.Get` | functions/index.js:12-13 | a read returns the stored document or none, changes no document and logs one read |
| `Firestore.Collection.SetMerge` | functions/index.js:61-72 | a successful write replaces only the document at the key with its merge; a failed write changes nothing; either way one write is logged |
| `Identity.Provider.CreateUser` | functions/index.js:52-57 | an issued uid records the account under it; a refusal changes no account; every call is logged |
| `Provisioning.Cause.Code` | functions/index.js:8-80 | the error code of each throw: unauthenticated (line 8), permission-denied (lines 16, 21, 24), invalid-argument (lines 31, 45, 47), already-exists (line 78), internal (line 80) |
| `Provisioning.IsActiveAdmin` | functions/index.js:20-25 | a profile lets its caller through exactly when its active field is the boolean true and its role field the string ADMIN |
| `Provisioning.GateDecision` | functions/index.js:6-26 | the caller passes exactly when it is signed in and its profile is an active admin; a refusal is unauthenticated without a caller and permission-denied otherwise |
| `Provisioning.GateOrder` | functions/index.js:7-25 | the refusal reasons fire in the order: no caller, no profile, active not exactly true, role not exactly ADMIN |
| `Provisioning.AssertAdmin` | functions/index.js:6-26 | the gate's verdict, with no store read when there is no caller and exactly one read of the caller's profile otherwise |
| `Provisioning.Body` | functions/index.js:38 | a missing request body reads as one with every field absent |
| `Provisioning.OrDefault` | functions/index.js:39-42 | an absent or empty string field takes the fallback, any other keeps its value |
| `Provisioning.Normalize` | functions/index.js:38-43 | the email is the given one (or empty) trimmed and lower-cased, the display name the given one (or empty) trimmed, the role the given one (or FERMIER) trimmed, the password untouched, and active holds only for the value true; the email, display name and role have no white space at their ends, and the email no upper-case letter |
| `Provisioning.NormalizedEmail` | functions/index.js:39 | an email padded with any white space normalises to its core, lower-cased |
| `Provisioning.NormalizedDisplayName` | functions/index.js:41 | a display name padded with any white space normalises to its core |
| `Provisioning.NormalizedRole` | functions/index.js:42 | a role padded with any white space normalises to its core, and an empty role to FERMIER |
| `Provisioning.NormalizeIdempotent` | functions/index.js:38-43 | resubmitting the normalised fields of a request with a role normalises to the same fields |
| `Provisioning.CheckRole` | functions/index.js:28-33 | a role passes exactly when it is one of the four allowed roles, otherwise invalid-argument |
| `Provisioning.Validate` | functions/index.js:45-49 | validation passes exactly when the email is non-empty, the password has at least six characters and the role is allowed; every refusal is invalid-argument |
| `Provisioning.ValidationOrder` | functions/index.js:45-49 | the validation refusals fire in the order: email, password, role |
| `Provisioning.EmailRule` | functions/index.js:39-45 | the email is refused exactly when the given email is absent or white space only |
| `Provisioning.PasswordRule` | functions/index.js:40-48 | once the email passes, the password is refused exactly when the given one, untrimmed, is shorter than six; an absent password is refused |
| `Provisioning.RoleRule` | functions/index.js:42-49 | once email and password pass, the request is accepted exactly when the trimmed role, defaulting to FERMIER, is allowed |
| `Provisioning.RoleDefaults` | functions/index.js:42 | an absent or empty role becomes FERMIER and passes the role check |
| `Provisioning.BlankRoleRejected` | functions/index.js:42-49 | a white-space-only role trims to the empty string and is refused |
| `Provisioning.DisplayNameOf` | functions/index.js:55-65 | an empty display name is absent (undefined for the provider, null in the profile) |
| `Provisioning.AccountRequestOf` | functions/index.js:52-57 | the account request carries the normalised email and password and is disabled exactly when the user is not active |
| `Provisioning.ProfileOf` | functions/index.js:59-67 | the profile holds the issued uid, the normalised email, role and active, and the display name or none |
| `Provisioning.ProfileFields` | functions/index.js:62-70 | the written fields are exactly the seven named ones, read back as the profile, with server timestamps for createdAt and updatedAt |
| `Provisioning.MergedProfileReadsBack` | functions/index.js:61-72 | whatever document was there before, the merged document reads back as the profile and keeps the old document's other fields |
| `Provisioning.CreatedAtOverwritten` | functions/index.js:68 | a merge over an existing document replaces its createdAt |
| `Provisioning.CreatedProfileGate` | functions/index.js:20-25 | a profile the handler writes passes the gate exactly when the new user is an active ADMIN |
| `Provisioning.CodeText` | functions/index.js:76 | the code text is the error's code, or empty when it has none |
| `Provisioning.TranslateError` | functions/index.js:75-80 | every thrown error becomes already-exists, or internal carrying the error |
| `Provisioning.TranslateErrorIff` | functions/index.js:77-80 | an error becomes already-exists exactly when the duplicate-email code occurs in its code |
| `Provisioning.DuplicateEmailTranslated` | functions/index.js:77-78 | a code containing auth/email-already-exists at any position is reported as already-exists |
| `Provisioning.CodelessErrorIsInternal` | functions/index.js:76-80 | an error without a code is reported as internal |
| `Provisioning.Provision` | functions/index.js:51-81 | one account requested; a refusal is translated and writes nothing; an issued uid gets one merge-write, which on failure leaves the account in place and the store unchanged; on success the new profile reads back and no other document changed |
| `Provisioning.AdminCreateUser` | functions/index.js:35-82 | the gate runs first and its refusal ignores the body; gate and validation refusals create and write nothing; otherwise the provisioning steps run on the normalised fields; success exactly when every step succeeds |
| `Scenarios.NormalRequest` | functions/index.js:38-43 | a request with a normal email and an allowed or absent role normalises to its own fields |
| `Scenarios.AdminCreatesUser` | functions/index.js:35-82 | an active admin creating an active user with valid fields gets the issued uid, an enabled account, and the stored profile |
| `Scenarios.FarmerIsRefused` | functions/index.js:23-25 | an active FERMIER caller is refused with permission-denied whatever it sends, and no account is created |
| `Scenarios.ShortPasswordIsRefused` | functions/index.js:46-48 | a password shorter than six characters is refused with invalid-argument and no account is created |
| `Scenarios.SameEmailAgain` | functions/index.js:75-79 | a resubmission refused by the provider as a duplicate reports already-exists and leaves the store as it was |

## Left out

- The transport and SDK setup are not modelled: `initializeApp`, `onCall`, the
  region option and the construction of `HttpsError` (functions/index.js:1-4, 35).
  The caller identity is a parameter.
- Message texts are not part of the model. Each `throw` is identified by its
  `Cause`, and an internal error carries the backend error it reports. The
  formatting of that error into the message is not modelled.
- The backends are parameters. The provider's answer to `createUser` and the
  store's answer to the merge-write are given. The provider's email uniqueness
  check and its choice of uid are not modelled, and uids are not assumed fresh.
- Concurrent invocations and races at the provider and the store are not
  modelled.
- A failure of the gate's profile read (functions/index.js:13) is not modelled.
  It happens outside the `try` block and would reach the caller through the
  callable framework, which is not part of this model.
- `FieldValue.serverTimestamp()` is an opaque token; the time it stands for is
  not modelled.
- JavaScript coercion of non-string request fields by `String(...)` is not
  modelled. Request fields are optional strings, and `active` is an optional
  boolean.
- A thrown value that is not an error object is not modelled; every thrown
  error has an optional code and a message.
- Firestore's merge of nested maps is not modelled. The handler writes only
  top-level scalar fields, for which the model's field-by-field merge is exact.
- Text.ToLower: lower-cases ASCII letters only. JavaScript also maps other
  letters, some to longer strings; the model leaves them unchanged.
- Text.IsSpace: uses the fixed list of ECMAScript white-space and
  line-terminator code points of current Unicode. It does not track later
  Unicode versions.
- Provisioning.PasswordRule: counts length in Unicode code points. JavaScript
  counts UTF-16 code units, so a password of three astral characters passes
  in JavaScript and fails here.
- The scenarios are stated for any request of their kind, such as any normal
  email and any allowed role. They are not stated for the literal example
  strings.
