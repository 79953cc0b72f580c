# authflow session gate and issuance, in Dafny

This project models the part of authflow that decides whether a browser
session is trusted, and the part that creates those sessions.

- **Session service.** The `VerifyDeviceInfoMiddleware` gate checks every request. A request passes when its path is exempt, or when its `session_id` cookie names a live stored record whose device fingerprint matches the request's current fingerprint. Everything else is redirected to the authentication URL. The model also covers the fingerprint (SHA-256 over `ip|user-agent|accept-language`), the header extraction it relies on, and the Redis session store with its 60-second TTL.
- **Auth service.** The model covers the sign-in and sign-up pipelines of `SimpleAuth`:
  - get-or-create the user row;
  - record the device row, with the IPv4 check of `DeviceSchema`;
  - issue a session through `SessionController` and `SessionSchema`, and save it to the store.

  It also covers the `atomic_transaction` commit/rollback/close protocol under every insert, the credential policy of `validate_input`, and the result filters of `SimpleAuthController`.

Everything is pure: an operation takes the state (session store, database tables) and returns a new one. Some things become parameters:

- the clock (`now`, in seconds);
- the `uuid4()` string;
- the SHA-256 function (`Sha256 = seq<byte> -> Digest`, where `Digest` is 64 lower-case hex characters);
- the identity provider (a function from the call's arguments to its reply).

Python exceptions become `Failure`/`Err` values. A store or database that is down is a flag in the state.

The auth service's fingerprint module is not part of this model. It is taken to be the session service's `generate_fingerprint`. The end-to-end lemmas in `Lifecycle` rest on that assumption.

The session service's test (`session-service/tests/middleware_test.py:116`) expects status 307 on a denial. The code sends 302, and the model follows the code.

Modules, in dependency order:

- `Wrappers`, `JsonValue`, `Http`, `Text`;
- `Fingerprint`, `DeviceInfo`, `SessionStore`, `Gateway`;
- `SessionSchema`, `SessionController`, `DeviceSchema`, `AuthInput`, `Atomic`, `Database`, `Replies`;
- `UserController`, `DeviceController`, `AuthController`, `SimpleAuth`, `Lifecycle`.

## Model

| member | source | states |
|---|---|---|
| Gateway.Dispatch | session-service/middleware/VerifyDeviceInforMiddleware.py:37-79 | The only outcomes are forward or the single denial (auth URL, 302). An exempt path with a client forwards. A request without a client is denied, because the first log line dereferences `client.host`. A non-exempt request without a `session_id` cookie is denied. |
| Gateway.DispatchIntended | session-service/middleware/VerifyDeviceInforMiddleware.py:44-79 | The gate with the exemption checked first. Exempt paths always forward. A missing cookie or a store that raises denies. |
| Gateway.ForwardIffAdmissible | session-service/middleware/VerifyDeviceInforMiddleware.py:44-75 | Fail-closed, both directions. A request is forwarded exactly when it has a client and is either exempt, or carries a cookie naming a live stored dictionary whose "fingerprint" equals the request's fingerprint. The condition is stated on the raw store entries. |
| Gateway.DeadSessionDenied | session-service/middleware/VerifyDeviceInforMiddleware.py:60-67 | A cookie naming a missing, deleted or expired session gets the denial. |
| Gateway.NonDictionaryDenied | session-service/middleware/VerifyDeviceInforMiddleware.py:65-67 | A live stored value that is not a dictionary (null, any string, a number, a list) gets the denial. |
| Gateway.MismatchDenied | session-service/middleware/VerifyDeviceInforMiddleware.py:69-72 | A stored dictionary whose "fingerprint" is missing or differs from the recomputed one gets the denial. |
| Gateway.VerdictDependsOnlyOnLookup | session-service/middleware/VerifyDeviceInforMiddleware.py:55-75 | The verdict depends on the store only through the one lookup of the cookie's key. Two stores that answer that lookup the same give the same verdict. |
| Gateway.ExemptPathNeedsClient | session-service/middleware/VerifyDeviceInforMiddleware.py:42-45 | As written, a client-less request to `/health` is denied; the intended gate forwards it. |
| Gateway.DispatchAgreesWithIntended | session-service/middleware/VerifyDeviceInforMiddleware.py:42-45 | With a client present, the written gate and the intended gate decide every request the same way. |
| Fingerprint.Generate | session-service/service/security/core/fingerprint.py:8-19 | The fingerprint is a 64-character lower-case hex digest. With all three keys missing, it is the hash of `Unknown\|Unknown\|` (empty accept-language). |
| Fingerprint.OnlyTripleMatters | session-service/service/security/core/fingerprint.py:11-16 | Two infos with the same forwarded-for, user-agent and accept-language values get the same fingerprint. These are the values after the defaults `Unknown`, `Unknown` and `""`. Other keys are ignored. |
| Fingerprint.Utf8Injective | session-service/service/security/core/fingerprint.py:16 | UTF-8 encoding is injective, so distinct canonical strings hash distinct byte strings. |
| Fingerprint.CanonicalInjective | session-service/service/security/core/fingerprint.py:15 | The `ip\|ua\|lang` string determines all three parts when `ip` and `ua` contain no `\|`. |
| Fingerprint.CanonicalNotInjective | session-service/service/security/core/fingerprint.py:15 | Without that restriction it does not: `("a\|b","c","d")` and `("a","b\|c","d")` give the same string. |
| Fingerprint.EqualFingerprintMeansSameDeviceOrCollision | session-service/service/security/core/fingerprint.py:11-16 | Equal fingerprints of `\|`-free infos mean equal triples, or two different byte strings on which the hash collides. |
| DeviceInfo.ExtractForSession | session-service/utils/extract_info.py:9-44 | The result has exactly the three keys. User-agent defaults to `Unknown` and accept-language to `""`. A present forwarded-for is used as is, even when empty. An absent one falls back to the peer host, or to `Unknown` when there is no client. The exception path gives the fixed fallback triple. |
| DeviceInfo.ExtractForAuth | auth-service/utils/extract_info.py:7-33 | The same keys and defaults, except that an absent or empty forwarded-for falls back to the peer host or `Unknown`. |
| DeviceInfo.CopiesAgreeUnlessEmptyForwarded | auth-service/utils/extract_info.py:14-16 | The two copies agree on a request exactly when its forwarded-for header is not the empty string, or when its fallback is itself empty. This is the `not` test here against `is None` at session-service/utils/extract_info.py:22. |
| DeviceInfo.SessionValuesPassThrough | session-service/utils/extract_info.py:12-29 | Each extracted value is a header value unchanged, the peer host, or a fixed default. Nothing is trimmed or case-folded. |
| SessionStore.SetSession | session-service/service/session/core/management.py:55-71 | The write succeeds exactly when the store is up. It fully overwrites the key with the new data and expiry `now + 60`. Every other key keeps its entry. |
| SessionStore.GetSession | session-service/service/session/core/management.py:73-97 | A live key reads as the stored value. A missing or expired key reads as the string `Does Not Exist!`. A store that is down raises. |
| SessionStore.DeleteSession | session-service/service/session/core/management.py:99-118 | The key is removed whether or not it existed, and the result is True. Every other key keeps its entry. |
| SessionStore.ReadYourWrite | session-service/service/session/core/management.py:70-95 | Within 60 s of a write, a read returns exactly the data written. |
| SessionStore.ExpiresAfterTtl | session-service/service/session/core/management.py:70-97 | From 60 s after a write on, a read returns the sentinel. |
| SessionStore.ReadAfterDelete | session-service/service/session/core/management.py:92-118 | After a delete, the key reads as the sentinel at any time. |
| SessionStore.DeleteIdempotent | session-service/service/session/core/management.py:117-118 | Deleting twice equals deleting once. Deleting an absent key changes nothing and reports True. |
| SessionStore.OtherKeysUnaffected | session-service/service/session/core/management.py:70-71 | A write or delete on one key never changes what another key reads. |
| SessionStore.ObjectDistinctFromSentinel | session-service/service/session/core/management.py:94-97 | For a stored dictionary, the read yields a dictionary exactly while it is live, and the sentinel exactly when it is not. |
| SessionStore.ExpiryFollowsLastWrite | session-service/service/session/core/management.py:70-97 | In any log of writes, reads and deletes, a key's entry is the one its last write produced, expiring 60 s after that write. Reads never extend it. The log model is tied to the store operations by `SessionStore.PerformIsReplay`. |
| SessionStore.UntouchedKeyKept | session-service/service/session/core/management.py:70-118 | Calls that neither write nor delete a key leave its entry as it was. |
| SessionStore.ApplyIsStoreOperation | session-service/service/session/core/management.py:55-118 | On a store that answers, one logged write, delete or read changes the entries exactly as `set_session`, `delete_session` or `get_session` does. |
| SessionStore.PerformIsReplay | session-service/service/session/core/management.py:55-118 | Making a log's calls one after another through the store operations leaves exactly the entries the log model computes. |
| SessionStore.LastWriteDecidesRead | session-service/service/session/core/management.py:70-97 | After any sequence of store calls, `get_session` of a key returns the data of its last write while that write is under 60 s old, and the sentinel from then on. |
| SessionSchema.ParseIntText | auth-service/schema/sessionSchema.py:7 | A text `user_id` is accepted exactly when it is one or more ASCII digits, optionally after one `+` or `-`. Its value is the decimal value of the digits, negated after `-`. `""`, a bare sign, and text with a non-digit are refused. |
| SessionSchema.IntTextRoundTrip | auth-service/schema/sessionSchema.py:7 | The decimal text of any integer, sign included, coerces back to that integer. |
| SessionSchema.SignedUserIdExamples | auth-service/schema/sessionSchema.py:7 | `"-5"` and `"+5"` coerce with their sign; `"-"` and `"5a"` are refused. |
| SessionSchema.UserIdExamples | auth-service/schema/sessionSchema.py:7 | `"0"` and `"-1"` coerce; `""` and `"abc"` are refused. |
| SessionSchema.LargeUserIdExample | auth-service/schema/sessionSchema.py:7 | `"999999999"` coerces to 999999999. |
| SessionSchema.Construct | auth-service/schema/sessionSchema.py:4-19 | Construction succeeds exactly when `session_id` and `fingerprint` are non-empty strings and `user_id` coerces. A success keeps the values unchanged. A failure lists every reason that applies: an empty `session_id` or `fingerprint` is reported as required, a missing one as not a string, and a `user_id` that does not coerce as not an integer. |
| SessionSchema.ValidateAll | auth-service/schema/sessionSchema.py:21-32 | Gives the dictionary of exactly `session_id`, `fingerprint` and `user_id`, with values unchanged. An empty id or fingerprint fails. |
| SessionSchema.ConstructedPassesValidateAll | auth-service/schema/sessionSchema.py:9-32 | A constructed schema always passes `validate_all`, and the result carries the constructed values. |
| SessionController.GenerateSession | auth-service/controllers/session_controller.py:36-96 | Fails exactly when there is no request, with "Invalid request, Error Creating Session". Otherwise returns the drawn id, the auth-side info, and that info's fingerprint. |
| SessionController.CreateSession | auth-service/controllers/session_controller.py:98-152 | Succeeds exactly when the request exists, the id is non-empty, `user_id` coerces and the store is up. Success saves, under the id, the record of exactly `fingerprint` and `user_id`, with a 60 s expiry, and reports the validated values. Every failure reports the same message and leaves the store unchanged. |
| SessionController.EmptyIdNeverSaved | auth-service/controllers/session_controller.py:118-133 | An empty session id is a failure and nothing is saved. |
| SessionController.DeleteCookieSession | auth-service/controllers/session_controller.py:154-177 | Removes the cookie's session when the cookie exists and the store answers. Otherwise the store is left alone; errors never surface. |
| DeviceSchema.ValidateIp | auth-service/schema/device_schema.py:16-32 | Accepts exactly four dot-separated groups of 1-3 ASCII digits, each at most 255, allowing one final newline. Returns the input unchanged. A wrong shape is refused for format. |
| DeviceSchema.AcceptsOctetList | auth-service/schema/device_schema.py:22-32 | Every four in-range groups joined by dots are accepted, with or without a final newline. |
| DeviceSchema.AcceptedIsOctetList | auth-service/schema/device_schema.py:22-32 | Every accepted address, less its final newline, is four in-range groups joined by dots. |
| DeviceSchema.RefusesLargeOctet | auth-service/schema/device_schema.py:28-30 | Four well-formed groups with one above 255 are refused with the octet-range message. |
| DeviceSchema.LeadingZeroExample | auth-service/schema/device_schema.py:22-32 | `"192.168.1.01"` is accepted and returned unchanged. |
| DeviceSchema.FinalNewlineExample | auth-service/schema/device_schema.py:22-32 | `"1.2.3.4\n"` is accepted. |
| DeviceSchema.OutOfRangeExample | auth-service/schema/device_schema.py:28-30 | `"256.1.1.1"` is refused for range. |
| DeviceSchema.WrongGroupCountExamples | auth-service/schema/device_schema.py:22-24 | Three or five groups are refused for format. |
| DeviceSchema.NoDotExamples | auth-service/schema/device_schema.py:22-24 | The empty string and `"::1"` are refused for format. |
| DeviceSchema.Construct | auth-service/schema/device_schema.py:6-41 | Construction succeeds exactly when the three strings are present, the address is accepted and `user_id` is present. Any user agent and language, empty included, are accepted unchanged. A missing `user_id` is refused. |
| DeviceSchema.ValidateAll | auth-service/schema/device_schema.py:43-53 | Passes exactly when the address is accepted, and returns the record unchanged. |
| DeviceSchema.ConstructedPassesValidateAll | auth-service/schema/device_schema.py:43-53 | A constructed device passes `validate_all` and comes back unchanged. |
| AuthInput.ValidateInput | auth-service/schema/auth_input.py:19-36 | The result is `None` or the unchanged input. It is the input exactly when both fields are present, the address (less one final newline) is `local@domain.tld`, and the password has at least 12 characters with an upper-case letter, a lower-case letter and a digit. |
| AuthInput.AddressExact | auth-service/schema/auth_input.py:25-26 | The first-`@`/last-`.` check accepts a text exactly when it is in the pattern's language. |
| AuthInput.SplitOfAddress | auth-service/schema/auth_input.py:25 | An address assembled from parts whose local part has no `@` and whose top label has no `.` splits back into those parts. |
| AuthInput.AnyIsSome | auth-service/schema/auth_input.py:29-34 | `any(pred(c) for c in s)` holds exactly when some character of `s` satisfies `pred`. |
| AuthInput.UsualAddress | auth-service/schema/auth_input.py:25 | `user@example.com` is in the pattern's language. |
| AuthInput.UsualPassword | auth-service/schema/auth_input.py:27-34 | `Password1234` meets the password policy. |
| AuthInput.AddressCheckComplete | auth-service/schema/auth_input.py:25-26 | The split at the first `@` and the last `.` finds every address in the pattern's language. |
| AuthInput.AddressCheckSound | auth-service/schema/auth_input.py:25-26 | Everything that split accepts is in the pattern's language. |
| AuthInput.PasswordChecksExact | auth-service/schema/auth_input.py:27-34 | The length and three `any(...)` checks hold exactly when the password meets the policy stated with existentials. |
| AuthInput.AcceptedExample | auth-service/schema/auth_input.py:19-36 | `user@example.com` with `Password1234` is returned unchanged. |
| AuthInput.ShortTopLabelExample | auth-service/schema/auth_input.py:25-26 | A one-letter top label (`user@example.c`) is refused. |
| AuthInput.MissingTopLabelExample | auth-service/schema/auth_input.py:25-26 | An address without a dot after `@` is refused. |
| AuthInput.BadFieldExamples | auth-service/schema/auth_input.py:23-28 | An 11-character password is refused, and so is a missing address. |
| Atomic.Run | auth-service/database/core/atomic.py:33-51 | Every trace is a complete session life. The result succeeds exactly when the body returns and the commit goes through. On success, the body's value and staged state are kept. On failure, the committed state is unchanged and the body's or commit's own error is re-raised, with rollback and close taken to succeed. A raising body is never committed. |
| Atomic.LifeClosesOnceAtEnd | auth-service/database/core/atomic.py:48-51 | Every complete session life ends with close, and close occurs in it exactly once. |
| Atomic.LifeAtMostOnce | auth-service/database/core/atomic.py:39-47 | A session life commits at most once and rolls back at most once. |
| Atomic.ChangedOnlyWhenCommitted | auth-service/database/core/atomic.py:39-47 | Success happens exactly on the trace `[Commit, Close]`. Any trace with a rollback leaves the committed state unchanged. |
| Database.CreateUser | auth-service/database/crud/user.py:10-21 | The insert succeeds exactly when the database is up and no stored row holds the same non-null `user_uuid` (the column is unique, database/models/user.py:11). On success, one row is added with the given fields and an id no existing row has, numbered one past the rows already there. A clashing uuid raises. A failed insert leaves the tables unchanged. |
| Database.CreateDeviceInfo | auth-service/database/crud/device_info.py:9-14 | The insert succeeds exactly when the database is up and `user_id` names an existing user row (the foreign key of database/models/device_info.py:12). On success, one row is added with the given fields and an id no existing row has, numbered one past the rows already there. A missing user raises. A failed insert leaves the tables unchanged. |
| Database.GetUserByEmail | auth-service/database/crud/user.py:24-47 | A database that is down raises. Otherwise the result is a row with that address, or `None` exactly when no row has it. |
| Database.FirstWithEmail | auth-service/database/crud/user.py:28 | The position found is the first row with that address: `None` exactly when no row has it. |
| Database.CreatedUserIsFound | auth-service/database/crud/user.py:10-47 | After an insert, looking up the address finds a row. When it was new, that row is the inserted one. |
| Database.SecondUserWithSameUuidRefused | auth-service/database/models/user.py:11 | A second user with another address but the same non-null `user_uuid` is refused with the uniqueness error. Nothing is written, and its address is still not found afterwards. |
| UserController.ValidateUser | auth-service/controllers/user_controller.py:24-64 | Succeeds exactly when name and address are both present, and returns them unchanged. Otherwise it reports the validation error. |
| UserController.CreateUser | auth-service/controllers/user_controller.py:66-134 | A validation error is returned unchanged and touches nothing. An existing address returns its row, "User already exists", and inserts nothing. For a new address, the insert happens exactly when the database is up and the `user_uuid` is free. The inserted row has the validated name and address and the given avatar and uuid. A clashing uuid gives "Error creating user!", as any failure does, and leaves the tables unchanged. |
| UserController.SecondCreateInsertsNothing | auth-service/controllers/user_controller.py:101-121 | Get-or-create is idempotent. After a successful call, a second call with the same address inserts nothing, and any success it reports is "User already exists". |
| UserController.GetUser | auth-service/controllers/user_controller.py:136-164 | Succeeds exactly when a row has the key as its address, returning such a row. Otherwise it reports "User not found", or the error message when the database raises. |
| DeviceController.ValidateDevice | auth-service/controllers/device_controller.py:34-64 | Succeeds exactly when `DeviceSchema` accepts the four fields, returning them unchanged. Otherwise it reports the validation error. |
| DeviceController.CreateDevice | auth-service/controllers/device_controller.py:66-112 | A validation failure is returned as it was and nothing is written. Success happens exactly when validation passes, the database is up and the user row exists. It inserts exactly the validated fields and reports the user agent, language and address. A missing user, like any failed insert, gives "Error creating device!" and leaves the table unchanged. |
| DeviceController.WrittenDeviceHasValidIp | auth-service/controllers/device_controller.py:81-93 | A device row is written only with an address the IPv4 check accepts, and the new row carries it. |
| AuthController.SignUp | auth-service/controllers/auth_controllers/auth_controller.py:22-41 | `None` exactly when the address or password is missing. Otherwise the provider's reply, failed ones included. |
| AuthController.SignIn | auth-service/controllers/auth_controllers/auth_controller.py:43-60 | The provider's reply exactly when both arguments are present and the reply succeeded. Otherwise `None`. |
| AuthController.SignOut | auth-service/controllers/auth_controllers/auth_controller.py:62-73 | The reply exactly when it succeeded. |
| AuthController.ForgotPassword | auth-service/controllers/auth_controllers/auth_controller.py:75-91 | `None` for a missing address. Otherwise only a successful reply is passed on. |
| AuthController.ResetPassword | auth-service/controllers/auth_controllers/auth_controller.py:93-109 | `None` for a missing password. Otherwise only a successful reply is passed on. |
| AuthController.MissingArgumentSkipsProvider | auth-service/controllers/auth_controllers/auth_controller.py:36-37 | A missing argument gives `None` whatever the provider would answer. |
| AuthController.EmptyIsNotMissing | auth-service/controllers/auth_controllers/auth_controller.py:36-41 | Empty strings are passed to the provider; only `None` short-circuits. |
| SimpleAuth.UpdateUser | auth-service/auth/simple_auth.py:94-129 | Returns the user's row exactly when get-or-create succeeds with the provider's id as `user_uuid`, so a new address whose provider id is already stored gives `None`. The row carries the requested address. On failure nothing changes. Devices and the store are never touched. |
| SimpleAuth.UpdateDevice | auth-service/auth/simple_auth.py:61-92 | Raises exactly when the request has no client. Records the device exactly when all of these hold: the address is a valid IPv4 address, both headers are present, the database is up, and the user row exists. The new row carries the client address and the user id. Otherwise nothing changes. |
| SimpleAuth.GenerateSession | auth-service/auth/simple_auth.py:131-154 | Returns the issued session exactly when the id is non-empty and the store is up, with the drawn id, the request's fingerprint and the user id. The database is never touched. |
| SimpleAuth.AuthProcess | auth-service/auth/simple_auth.py:222-290 | Succeeds exactly when all of these hold: the reply carries a user with an address; that address is on file or the provider's id is not already a stored `user_uuid`; the device can be recorded; the id is non-empty; the store is up. On success, the data is the session and the device, and the database holds the user's row and this request's device row for the session's user id. A failure never changes the session store. |
| SimpleAuth.SignUpProcess | auth-service/auth/simple_auth.py:156-220 | Never changes the session store. Succeeds exactly when the reply carries a user with an address, that address is on file or the provider's id is not already a stored `user_uuid`, and the device can be recorded. It then reports the verification notice. |
| SimpleAuth.ReusedProviderIdRefused | auth-service/auth/simple_auth.py:118-126 | Take a provider id already stored as the `user_uuid` of a row with another address. Both pipelines then fail with "Failed to sign in!" and leave the database and the store as they were. |
| SimpleAuth.SignUp | auth-service/auth/simple_auth.py:292-331 | A missing argument fails with the sign-up message and changes nothing. Otherwise the result is exactly `sign_up_process` on the provider's reply, failed or not, so it succeeds exactly under that function's conditions, the uuid clash included. The session store never changes. |
| SimpleAuth.SignUpNeedsProviderSuccess | auth-service/auth/simple_auth.py:172-176 | When failed replies carry no data, as the provider client builds them, sign-up succeeds only on a successful provider reply. |
| SimpleAuth.SignIn | auth-service/auth/simple_auth.py:333-371 | Succeeds exactly when both arguments are present, the provider's reply succeeded, and `auth_process` succeeds on it, the uuid clash included. A successful result is that function's result. A filtered-out reply is caught and reported without changing anything. |
| SimpleAuth.SessionOnlyAfterRecords | auth-service/auth/simple_auth.py:251-269 | Whenever sign-in changes the session store, it succeeded. The database then holds the user's row and this request's device row for the session's user, and the store holds the issued id with a 60 s expiry. |
| Lifecycle.IssuedSessionVerifies | auth-service/controllers/session_controller.py:98-152 | A session saved for a request is let through by the gate for a later request from the same device, within 60 s. This requires a forwarded-for header that is not empty. |
| Lifecycle.IssuedSessionExpires | session-service/service/session/core/management.py:70-97 | The same session is denied from 60 s after issue on. |
| Lifecycle.EmptyForwardedForOnlyPassesOnCollision | session-service/utils/extract_info.py:21-23 | Take a session issued with an empty forwarded-for header, and a client address that is not empty. The gate lets it through only if SHA-256 maps two different byte strings to the same digest. |
| Lifecycle.SignedInDeviceAdmitted | auth-service/auth/simple_auth.py:333-364 | After a successful sign-in, a later request from the same device carrying the issued cookie is forwarded within 60 s. |

## Left out

- HTTP plumbing is left out. This covers the ASGI servers, routes, `call_next`, cookies set on responses, and the redirect's body; a request is the path, cookies, lower-cased headers and peer host.
- Header lookup is by lower-case name with one value per name. For duplicate headers, Starlette's `request.headers.get` returns the first value; the model keeps only that one.
- The Redis network client is not modelled. Neither are `ping`, or JSON encoding beyond a round trip: the store keeps `Json` values directly, and JSON numbers are integers only.
- `hashlib` is an uninterpreted `Sha256` parameter. UTF-8 encoding is modelled, and strings are Dafny `char` sequences, so encoding failures cannot occur.
- The auth service's own `fingerprint` and `InitRedis` modules are not part of this model. They are taken to equal the session service's.
- The exception paths of `extract_info` are modelled only as a missing request. Any other failure inside them is not modelled.
- SessionSchema.ParseIntText: pydantic's lax `int` coercion is limited to an optional sign and ASCII digits. Surrounding whitespace, underscores, `"1.0"`-style floats and booleans are not modelled.
- DeviceSchema.ValidateIp: `\d` and `int()` accept only ASCII digits here. Python also accepts other Unicode decimal digits.
- AuthInput.ValidateInput: `isupper`, `islower` and `isdigit` are ASCII-only here. Python also counts other Unicode letters and digits.
- The "User validation failed" branch of `validate_user` is left out because it cannot be reached. Both field validators of `UserSchema` return their value, and its `validate_all` returns the record itself (auth-service/schema/user_schema.py:12-32); the model takes the schema as the identity on its two fields.
- `DeviceController.validate_device` returns "Device is None" when the constructor gives `None`. That never happens, so the branch is left out.
- `create_device`'s "Error adding device" branch is left out. `create_device_info` returns the row or raises, never `None`.
- `SessionController.generate_session` checks for a `None` fingerprint. `generate_fingerprint` never returns `None`, so that branch is left out.
- The `"solution"` and `"error"` hint fields of the `SimpleAuth` replies are not modelled; only success, message and data are.
- `SimpleAuth.forgot_password` and `reset_password` only forward the controller's answer. They are covered by `AuthController.ForgotPassword` and `AuthController.ResetPassword`.
- Logging, `print`, async scheduling and concurrent requests are left out. Every operation is one sequential step on an explicit state.
- The `user.id` foreign key of `device_info` is checked as PostgreSQL, the configured database, checks it. The SQLite database the tests use does not check foreign keys by default, and that behaviour is not modelled.
- Atomic.Run: a `rollback()` or `close()` that itself raises is not modelled. In the source, such an exception would replace the body's or the commit's error; the model always re-raises the body's or the commit's own error, and its rollback and close always succeed.
- Database.CreateUser: a new row's id is one past the rows already there, as SQLite numbers rows (the tests' database, auth-service/config/init_config.py:140). PostgreSQL's `SERIAL` sequence does not give back a value that a failed insert took, such as a uuid clash, a rejected commit or a foreign-key failure, so its ids can skip; the model does not follow that. The same holds for Database.CreateDeviceInfo. What holds on both engines is that the new id differs from every existing one, and the contracts state that too.
- Database sessions are modelled as committed state plus staged state. SQLAlchemy flush, identity maps and connection pooling are left out, and so is every table column beyond the ones the core reads or writes.

## Findings

| source | as written | input that shows it | evidently intended | confidence | as-written member | corrected member |
|---|---|---|---|---|---|---|
| session-service/middleware/VerifyDeviceInforMiddleware.py:42-45 | The first statement logs `request.client.host` before the exemption check. A request without a client raises there, and the catch-all redirects it even on an exempt path. | A request for `/health` whose `client` is `None` | Exempt paths are forwarded without looking at the client | not executed | Gateway.ExemptPathNeedsClient | Gateway.DispatchIntended |
