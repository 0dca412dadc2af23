# User service session and access control, in Dafny

This project models the session and access-control core of the
User_Notification_MicroServices user service (Go). It covers:

- **Accounts.** User creation as an ordered chain of side effects: store row, creation email, `user` role. Also the username-existence cascade (Bloom filter, then cache, then store), the input guards in front of the repository, and the validation of users, update requests, notification events, logout requests and configuration.
- **Sessions.** Login with a failed-attempt counter and lock-out. Access and refresh tokens kept in the cache per username. Logout, token refresh, and the password-reset flow with one outstanding link and one failed attempt per link.
- **Access control.** Bearer-token authorization with a per-user rate limit of 100 requests per two-minute window. Permission checks backed by a 100-second cache of the user's permission list, stored as JSON.
- **Error mapping.** The mapping from error values to HTTP status codes.

The collaborators are classes whose fields the operations update in place. Each has an `up` flag: when it is false, every command fails and changes nothing.

| collaborator | class | state |
|---|---|---|
| Redis | `Cache.Redis` | a keyspace of string values with optional time-to-live |
| PostgreSQL tables | `Repositories.UserRepo`, `Repositories.PermissionStore` | user rows in table order, role assignments, and the permission query's answer per user |
| JWT signer | `Jwt.Codec` | the tokens issued and not yet expired |
| Kafka producer | `Kafka.Producer` | the events the asynchronous writer accepted |
| Bloom filter | `Bloom.Filter` | the names added, plus a fixed set of false positives |

Time does not pass by itself. A key or token expires only through an explicit `Lapse` step. The random reset token is a parameter.

The main results:

- The access token returned by a successful login is accepted by `Authorize` for that user.
- After a second login, only the newer access token is accepted.
- A logout that got past the access-token check revokes that token.
- A refreshed access token is accepted.
- A used reset link cannot be used again.
- After one failed reset attempt the link is spent (429) and no new link can be requested while it is outstanding.
- The rate limiter forwards a request exactly while fewer than 100 requests were counted in the window.
- The permission cache round-trips the stored list (`Unmarshal(Marshal(ps)) == ps`), so two identical permission checks in a row give the same answer.
- `strconv.Atoi(strconv.Itoa(n)) == n`, so the user ID `Authorize` puts in the request context always parses.

## Model

| member | source | states |
|---|---|---|
| `Strconv.Itoa` | service/aut_service.go:307 | strconv.Itoa: a non-negative number is printed as decimal digits only; a negative one as '-' followed by digits |
| `Strconv.Atoi` | middleware/authorize.go:21 | strconv.Atoi: a result exactly for decimal digits, optionally after one '+' or '-' with at least one digit following; the value is that of the digits, negated after '-' |
| `Strconv.AtoiItoa` | service/aut_service.go:307 | reading back a printed integer gives the same integer, so the ID Authorize returns parses in RequirePermission |
| `Strconv.ItoaInjective` | middleware/authorize.go:33 | two different integers print differently |
| `Errors.Error.Root` | service/user_service.go:55 | the innermost error of a `%w` chain is not itself a wrapper |
| `ErrorHandler.HttpStatusFromError` | utils/error_handler.go:17-68 | identity switch: only the statuses 400/401/403/404/409/429/500/503 occur; 422 never occurs because ValidationFailed is listed earlier; every sentinel gets the class errors/error.go declares for it, except InvalidPassword (500); a wrapped error or a plain message gets 500 |
| `ErrorHandler.HttpStatusFromSuccess` | utils/error_handler.go:70-85 | 201, 202 and 204 each exactly for their listed action names, 200 otherwise |
| `ErrorHandler.WrappedSentinelIs500` | utils/error_handler.go:17-18 | a wrapped InvalidCategory, a 400-class sentinel, gets 500 |
| `ErrorHandler.IsMeansRoot` | utils/error_handler.go:17-18 | errors.Is against a sentinel holds exactly when the sentinel is the root of the chain |
| `ErrorHandler.HttpStatusFromErrorChain` | utils/error_handler.go:17-68 | classifying by the root of the chain still yields only the listed statuses |
| `ErrorHandler.ChainClassifiesByWrappedSentinel` | utils/error_handler.go:17-68 | any error that errors.Is a sentinel gets that sentinel's documented status |
| `ErrorHandler.ChainAgreesOnSentinels` | utils/error_handler.go:17-68 | on unwrapped errors the corrected mapping agrees with the identity switch |
| `ErrorHandler.WrappedSentinelKeepsStatus` | utils/error_handler.go:17-68 | wrapping a sentinel does not change its status under the corrected mapping |
| `TokenHelper.ExtractToken` | utils/token_helper.go:13-21 | no error exactly when the header starts with "Bearer "; the header is then the prefix followed by the token; otherwise the token is empty and the error is the fixed message |
| `TokenHelper.ExtractRoundTrip` | utils/token_helper.go:16-17 | every token sent as "Bearer <token>" comes back unchanged |
| `TokenHelper.OnlyOnePrefixRemoved` | utils/token_helper.go:17 | TrimPrefix removes one prefix only |
| `TokenHelper.InexactPrefixRejected` | utils/token_helper.go:16 | the prefix check is exact and case-sensitive |
| `TokenHelper.BarePrefixYieldsEmptyToken` | utils/token_helper.go:16-17 | a bare "Bearer " gives an empty token with no error |
| `LoginTokenRequests.Validate` | requests/log_tok_req.go:10-15 | accepted exactly when both tokens are non-empty; the error is ErrMissingField |
| `LoginTokenRequests.DependsOnlyOnEmptiness` | requests/log_tok_req.go:12 | token contents other than emptiness do not matter |
| `Events.Validate` | events/notification.go:22-39 | accepted exactly when the event is complete; the first missing field in source order names the error |
| `Events.UncheckedFieldsIgnored` | events/notification.go:22-39 | title and metadata never affect validation |
| `Events.EmailEvent` | utils/notifcation_helper.go:11-31 | the event has type "email", the given user and target, and validates exactly when user ID, action, message and target are present |
| `Configs.Validate` | config/configs.go:35-69 | accepted exactly when the checked fields are present; the first missing one in source order names the error |
| `Configs.UncheckedFieldsIgnored` | config/configs.go:35-69 | the Redis password and DB number and the Kafka settings never affect validation |
| `Configs.NegativePortsPass` | config/configs.go:35-69 | ports are only compared with 0, so negative ports pass |
| `Configs.DefaultConfigIsValid` | config/configs.go:71-93 | the default configuration validates |
| `Logger.LastHolder` | logger/log.go:66-77 | the index of the last map holding a key, and no later map holds it |
| `Logger.MergeFields` | logger/log.go:66-77 | no map for no arguments; otherwise the union of the maps, with later maps overriding earlier ones (loop proved against the specification) |
| `Logger.MergedKeys` | logger/log.go:66-77 | the merged keys are exactly the union of the keys |
| `Logger.MergedTakesLast` | logger/log.go:66-77 | each merged value comes from the last map that holds the key |
| `Models.MatchesMobile` | models/user.go:37-38 | `^[0-9]{10}$`: exactly ten ASCII digits (a predicate; its use is stated by `Models.Validate`) |
| `Models.Classify` | models/user.go:64-73 | the first arm of the switch a character satisfies: upper-case, lower-case and digit exactly for their ASCII ranges, and no class exactly outside printable ASCII |
| `Models.FirstIndexOf` | models/user.go:30 | the first position of a character, or none when it does not occur |
| `Models.LastIndexOf` | models/user.go:30 | the last position of a character, or none when it does not occur |
| `Models.MatchesEmailIsPattern` | models/user.go:30-31 | the executable email matcher accepts exactly the strings of the email regular expression |
| `Models.Utf8Len` | models/user.go:56 | a UTF-8 byte length is never below the character count |
| `Models.ValidatePassword` | models/user.go:54-80 | accepted exactly when the password is strong (at least 8 bytes; an upper-case, lower-case, digit and punctuation-or-symbol character, each classified by the first matching case); otherwise ErrWeakPassword |
| `Models.Validate` | models/user.go:24-49 | missing field, then bad email, then bad mobile number, then weak password, in that order; accepted exactly when all four checks pass |
| `Models.AsciiLength` | models/user.go:56 | for ASCII text the byte length is the character count |
| `Models.MinLengthCountsBytes` | models/user.go:56 | a 7-character password with one 2-byte character meets the 8-byte minimum |
| `UpdateRequests.Validate` | requests/user_update.go:15-35 | missing field, then bad email, then bad mobile number; accepted exactly when all pass |
| `UpdateRequests.AgreesWithUserValidation` | requests/user_update.go:15-35 | for a strong password, an update request validates exactly when the full user would |
| `Cache.Put` | service/aut_service.go:83 | SET stores the value under the key and leaves every other key alone |
| `Cache.Incremented` | service/aut_service.go:126 | INCR leaves other keys alone, keeps the time-to-live, and stores a decimal number |
| `Cache.AfterIncr` | service/aut_service.go:181 | a failed INCR changes nothing; a successful one raises the count by one |
| `Cache.WithExpiry` | service/aut_service.go:164 | EXPIRE gives an existing key a time-to-live and changes nothing else |
| `Cache.IncrementAddsOne` | middleware/auth.go:34 | INCR reports, and stores, one more than the count read before |
| `Cache.Redis.Get` | service/aut_service.go:227 | GET: a fault when the server is down; otherwise a hit exactly when the key is present, carrying its stored value, and a miss exactly when it is absent |
| `Cache.Redis.Set` | service/aut_service.go:83-86 | on a live server the keyspace becomes `Put` of the old one; otherwise nothing changes |
| `Cache.Redis.Incr` | middleware/auth.go:34 | the reported count and the new keyspace are those of `Incremented` |
| `Cache.Redis.Del` | service/aut_service.go:138-141 | the key is removed |
| `Cache.Redis.Expire` | middleware/auth.go:37 | the keyspace becomes `WithExpiry` of the old one |
| `Jwt.SerialOfToken` | utils/jwt/jwt.go:26-49 | a token's serial number can be read back from it |
| `Jwt.Codec.Decode` | utils/jwt/jwt.go:51-73 | a token verifies exactly when it was issued here and has not lapsed, and yields the user it was issued for |
| `Jwt.Codec.Generate` | utils/jwt/jwt.go:26-49 | the token is non-empty and decodes to the given user; it is assumed distinct from every token issued before (see Left out) |
| `Jwt.Codec.Lapse` | utils/jwt/jwt.go:32 | an expired token no longer decodes |
| `Kafka.Producer.Send` | kafka/producers/notification.go:26-32 | the event is accepted (appended to the outbox) exactly when the producer is up; otherwise nothing changes |
| `Bloom.Filter.Test` | service/user_service.go:216 | never negative for a string that was added |
| `Bloom.Filter.Add` | service/user_service.go:248 | the string joins the added set |
| `Repositories.FindFirst` | repositories/user_repo.go:160-187 | the first row in table order that matches, or none when no row matches |
| `Repositories.FindFirstAppended` | repositories/user_repo.go:286-316 | a row appended where none matched is the one found |
| `Repositories.InsertKeepsIds` | repositories/user_repo.go:48-51 | a row inserted under the next serial ID keeps every ID positive, below the counter and unique |
| `Repositories.UpdateKeepsIds` | repositories/user_repo.go:193-251 | updates that leave the ID column alone keep the IDs valid |
| `Repositories.DeleteKeepsIds` | repositories/user_repo.go:257-280 | deleting rows keeps the IDs valid |
| `Repositories.UserRepo.constructor` | repositories/user_repo.go:28-74 | an empty table with the serial counter at 1, so the IDs are valid |
| `Repositories.UserRepo.Lookup` | repositories/user_repo.go:330-361 | a found row is a matching row; a miss on a live database is ErrUserNotFound and no row matches |
| `Repositories.UserRepo.GetUserByID` | repositories/user_repo.go:126-154 | the row with that ID, with the password left out |
| `Repositories.UserRepo.GetUserByEmail` | repositories/user_repo.go:286-316 | the row with that email, or ErrUserNotFound exactly when none has it |
| `Repositories.UserRepo.GetUserByUsername` | repositories/user_repo.go:330-361 | the row with that username, or ErrUserNotFound exactly when none has it |
| `Repositories.UserRepo.GetUserByEmailOrUsername` | repositories/user_repo.go:160-187 | the row whose email or username is the key, or ErrUserNotFound exactly when none matches |
| `Repositories.UserRepo.CreateUser` | repositories/user_repo.go:28-74 | ErrUserExists when the username or email is taken as either; otherwise the row is appended under the next ID; the IDs stay valid |
| `Repositories.UserRepo.UpdatePassword` | repositories/user_repo.go:228-251 | ErrUserNotFound when no row has the username; otherwise exactly those rows get the password; the IDs stay valid |
| `Repositories.UserRepo.UpdateUser` | repositories/user_repo.go:193-222 | ErrUserNotFound when no row has the ID; otherwise that row's four fields are replaced; the IDs stay valid |
| `Repositories.UserRepo.DeleteUser` | repositories/user_repo.go:257-280 | ErrUserNotFound when no row has the ID; otherwise the rows with that ID are removed; the IDs stay valid |
| `Repositories.UserRepo.AddUserRole` | repositories/userrole_repo.go:22-48 | an unknown role name is refused with "role '…' not found"; otherwise the assignment is appended |
| `Repositories.PermissionStore.GetPermissions` | service/authorize.go:22-46 | an answer exactly when the database is up: the user's permissions, or none for a user without roles |
| `UserService.CreatedEvent` | service/user_service.go:80-87 | the creation email goes to the new user's address under their ID, and validates exactly when the ID is not negative and the email is present |
| `UserService.UserService.GetUserByID` | service/user_service.go:130-142 | an ID that is not positive is refused with a wrapped ErrMissingField; a found user has the ID asked for |
| `UserService.UserService.UsernameExists` | service/user_service.go:205-256 | empty name: false; Bloom-negative: false with nothing touched; cache hit: true; otherwise the store decides, store errors other than not-found are returned, and a found name is added to the filter and cached as "1" for 10 minutes |
| `UserService.UserService.CreateUser` | service/user_service.go:46-123 | name and email are checked before anything changes; a taken username or email gives ErrUserExists and a down store DbError, both with nothing stored or published; a failed insert publishes nothing; a failed publish assigns no role; success appends the row, the creation email and the `user` role; success is guaranteed when all dependencies are up, the role exists and nothing is taken; the IDs stay valid |
| `UserService.UserService.UpdateUser` | service/user_service.go:144-160 | ID 0 or neither name nor email is refused before the repository is asked; past the guards the repository's answer is passed through: DbError when down, ErrUserNotFound with nothing changed when no row has the ID, otherwise exactly that row's four fields replaced; the IDs stay valid |
| `UserService.UserService.DeleteUser` | service/user_service.go:162-176 | an ID that is not positive is refused before the repository is asked; past the guard the repository's answer is passed through: DbError when down, ErrUserNotFound with nothing changed when no row has the ID, otherwise exactly the rows with that ID removed and the others kept; the IDs stay valid |
| `UserService.UserService.CreateUserIndexed` | service/user_service.go:46-123 | the corrected creation also adds the username to the Bloom filter |
| `UserService.CreatedUsernameMissed` | service/user_service.go:216-219 | as written, a user whose creation succeeds (every dependency up, the role present, name and email free) and who is then stored, is reported as not existing when the filter had not seen the name |
| `UserService.CreatedUsernameFound` | service/user_service.go:205-256 | with indexed creation, a created user is reported as existing |
| `UserService.TrimLeft` | service/user_service.go:276 | a suffix of the input, everything cut off is white space, and it does not start with white space |
| `UserService.TrimRight` | service/user_service.go:276 | a prefix of the input, everything cut off is white space, and it does not end with white space |
| `UserService.TrimSpace` | service/user_service.go:276 | a slice of the input with white space only outside it and no white space at either of its ends |
| `UserService.CursorQueryOf` | service/user_service.go:267-322 | success exactly when the trimmed cursor is empty or a timestamp, each date is empty or a date, and the range is not reversed; otherwise the first failing check in source order (cursor, from, to, range) names the error, which wraps ErrInvalidCategory; the cursor and dates passed on are those parses; the limit is in 1..100 and replaced by 5 exactly when outside it |
| `UserService.ReversedRangeStatus` | service/user_service.go:312-315 | a reversed date range reaches the client as 500 under the identity switch and as 400 under the corrected mapping |
| `AuthServices.PrefixInjective` | service/aut_service.go:198 | keys of one family name one user each |
| `AuthServices.KeyFamiliesDisjoint` | service/aut_service.go:83-93 | the attempt, access, refresh, reset-token, active and invalid key families never collide, all fifteen pairs (they can collide with the bare usernames UsernameExists caches in the same Redis) |
| `AuthServices.AttemptKey` | service/aut_service.go:162 | `attempt_key:` followed by the name typed at login (no contract; its disjointness is `KeyFamiliesDisjoint`) |
| `AuthServices.AccessKey` | service/aut_service.go:198 | `access_token:` followed by the username (no contract) |
| `AuthServices.RefreshKey` | service/aut_service.go:199 | `refresh_token:` followed by the username (no contract) |
| `AuthServices.ResetTokenKey` | service/aut_service.go:83 | `reset_token:` followed by the reset token (no contract) |
| `AuthServices.ActiveKey` | service/aut_service.go:88 | `reset:active:` followed by the username (no contract) |
| `AuthServices.InvalidKey` | service/aut_service.go:93 | `reset:invalid:` followed by the username (no contract) |
| `AuthServices.ResetEvent` | service/aut_service.go:63-71 | the reset email goes to the user's address under their ID, carries the reset URL with the token, and validates exactly when the ID is not negative and the email is present |
| `AuthServices.SecurityEvent` | service/aut_service.go:165-172 | the lock-out warning goes to the user's address under their ID, and validates exactly when the ID is not negative and the email is present |
| `AuthServices.WithResetLink` | service/aut_service.go:83-93 | a reset link writes token→username, username→token and a zero count, and nothing else |
| `AuthServices.WithSession` | service/aut_service.go:198-199 | a login writes the access token (15 minutes) and the refresh token (4 hours) under the username, and nothing else |
| `AuthServices.AuthService.GenerateResetToken` | service/aut_service.go:40-102 | empty email 400, unknown email 404, outstanding link 400 with nothing written; otherwise the three keys are written and the reset email sent (200), or 500 on a cache or producer failure |
| `AuthServices.AuthService.ResetPassword` | service/aut_service.go:105-145 | 400 for a missing or unknown link; 429 once a failed attempt is counted; an empty password or a failed update counts an attempt; success sets the password and deletes the link's keys and the access token |
| `AuthServices.AuthService.Login` | service/aut_service.go:148-203 | 400/404 with nothing changed; more than 5 counted failures: 429, the counter's lifetime refreshed and a security email sent; wrong password: 401 and the count raised; success: two tokens for the user, distinct from each other and from all earlier ones under the distinct-issuance assumption of `Jwt.Codec.Generate`, stored under the username |
| `AuthServices.AuthService.WipeOutSession` | service/aut_service.go:206-245 | agrees with LoginTokenRequest.Validate on the first check; the stored access token must match; it is deleted before the refresh token is checked, so a bad refresh token still logs the access token out |
| `AuthServices.AuthService.GenerateAccessToken` | service/aut_service.go:248-279 | a refresh token that verifies and is the stored one buys a new access token (distinct from earlier ones under the distinct-issuance assumption of `Jwt.Codec.Generate`) that replaces the stored one |
| `AuthServices.AuthService.Authorize` | service/aut_service.go:282-308 | success only for a "Bearer " token that verifies, whose user exists and holds it as the stored access token, and the result parses to that user's ID; otherwise one of the four fixed messages; nothing passes with the cache down |
| `AuthServices.AuthorizesStoredToken` | service/aut_service.go:282-308 | a token that verifies for an existing user and is that user's stored access token passes all four checks, and the result is the user's ID |
| `AuthServices.LoginThenAuthorize` | service/aut_service.go:198-307 | the access token of a successful login authorizes the user who logged in |
| `AuthServices.LatestLoginWins` | service/aut_service.go:198 | after a second login only the newer access token authorizes, given that the two logins' tokens differ, which `Jwt.Codec.Generate` assumes and the source guarantees only for logins in different seconds |
| `AuthServices.LogoutRevokes` | service/aut_service.go:231 | a logout past the access-token check revokes that access token: after a 200, after a 403 for a refresh token that is not the stored one, and after the 400 for a refresh token that does not verify |
| `AuthServices.RefreshThenAuthorize` | service/aut_service.go:276 | a refreshed access token authorizes |
| `AuthServices.ResetLinkSingleUse` | service/aut_service.go:138 | a successfully used reset link is refused the second time |
| `AuthServices.OneStrikePerLink` | service/aut_service.go:93-128 | link sent (200), empty password (400), then any password is refused (429), and no second link while the first is outstanding (400) |
| `AuthMiddleware.RateKey` | middleware/auth.go:33 | the key as Sprintf formats it: `%d` applied to a string ID yields `%!d(string=…)` (no contract; `RateKeyInjective` states its use) |
| `AuthMiddleware.RateKeyInjective` | middleware/auth.go:33 | different users never share a counter |
| `AuthMiddleware.IncrCount` | middleware/auth.go:34 | the INCR count is one above the stored count, or 0 when INCR fails |
| `AuthMiddleware.Handle` | middleware/auth.go:17-54 | an Authorize failure is 401 and changes nothing; otherwise the count is raised, the first request starts a 2-minute window, and the request is forwarded exactly while fewer than 100 were counted; the forwarded ID always parses |
| `PermissionMiddleware.PermissionKey` | middleware/authorize.go:33 | `user_perm_` followed by the decimal ID (no contract; `PermissionKeyInjective` states its use) |
| `PermissionMiddleware.PermissionKeyInjective` | middleware/authorize.go:33 | different users never share a cached list |
| `PermissionMiddleware.ContextUserId` | middleware/authorize.go:19-32 | a string ID is parsed, an int is taken as is, anything else is absent |
| `PermissionMiddleware.CachedPermissions` | middleware/authorize.go:36-42 | a cached value that decodes yields its list; a miss or failure yields none |
| `PermissionMiddleware.HasPermission` | middleware/authorize.go:59-65 | the scan finds the permission exactly when it is in the list |
| `PermissionMiddleware.Decision` | middleware/authorize.go:67-70 | proceed exactly when the permission is held, otherwise 403 |
| `PermissionMiddleware.RequirePermission` | middleware/authorize.go:13-76 | no ID 401, unparsable ID 500; a non-empty cached list decides alone; otherwise the store decides and its list is cached for 100 seconds, or 500 with nothing cached |
| `PermissionMiddleware.RepeatedRequestAgrees` | middleware/authorize.go:36-56 | the same permission check twice in a row gets the same outcome |
| `JsonList.Marshal` | middleware/authorize.go:54 | a nil list is written as `null`, and nothing else is |
| `JsonList.Unmarshal` | middleware/authorize.go:38 | `null` and `[]` read as the empty list; anything else that reads starts with `[` (its exact language is `MarshalUnmarshal`) |
| `JsonList.UnmarshalMarshal` | middleware/authorize.go:38 | what Marshal writes, Unmarshal reads back unchanged |
| `JsonList.MarshalUnmarshal` | middleware/authorize.go:38 | apart from `[]`, Unmarshal accepts only what Marshal writes |
| `JsonList.ParseEscaped` | middleware/authorize.go:38 | an escaped string followed by a closing quote reads back as itself and leaves the rest |
| `JsonList.ParseLastItem` | middleware/authorize.go:38 | a quoted item followed by `]` reads back as a one-item list |
| `JsonList.ParseNextItem` | middleware/authorize.go:38 | a quoted item, a comma and a readable list read back as the item in front of that list |
| `JsonList.ParseJoined` | middleware/authorize.go:38 | the joined quoted items followed by `]` read back as the items |
| `JsonList.ParsedIsEscaped` | middleware/authorize.go:38 | what the string parser reads is the escaped content followed by a closing quote |
| `JsonList.ParsedIsJoined` | middleware/authorize.go:38 | what the list parser reads is the joined items followed by `]` |

## Left out

- HTTP plumbing: handlers, routing, JSON response writing and request decoding. Operations return their status and body, or a forwarding outcome, instead of writing to a response.
- Logging: the logger's output is I/O. Only `mergeFields` is modelled.
- SQL: the query text, the pool, and `GetAllUsers` / `GetUsersWithFiltersCursor` in the repository. The service's `GetUsersWithFiltersCursor` is modelled up to the arguments it passes to the query (`CursorQueryOf`).
- time.Parse: RFC 3339 and `2006-01-02` parsing are parameters (`parseTimestamp`, `parseDate`) returning an abstract instant.
- strings.TrimSpace: only ASCII white space is modelled, not Unicode spaces.
- JWT signing: HS384, the secret, and claims parsing are abstracted into `Jwt.Codec`. A token verifies exactly when it was issued and has not lapsed. `GenerateJWTtoken` cannot fail in the model, so the three 500 branches after token generation are not modelled.
- json.Marshal of an event cannot fail for these types, so the "failed to serialize event" and "failed to marshal" branches are not modelled.
- Event IDs (uuid) and creation times are not part of `Events.NotificationEvent`.
- A nil metadata map is modelled as an empty map.
- The Kafka transport: the writer is asynchronous (`Async: true`), so a send is accepted or refused as a whole and later delivery is not modelled; the outbox holds the accepted events.
- Bloom-filter hashing and false-positive rates are abstracted into `Bloom.Filter`.
- The asynchronous warm-up in main.go is not part of this model.
- Clocks: lifetimes are recorded on keys, and expiry is the explicit `Lapse` step. Nothing lapses inside an operation.
- Concurrency between requests is not modelled: each operation runs alone.
- Dependency failures are all-or-nothing per dependency for the length of an operation. A second cache command in one operation cannot fail after a first one succeeded. So `GenerateResetToken`'s failure branch for the second SET is unreachable, and so is `CreateUser`'s fetch-after-insert failure.
- int64 overflow of counters and IDs: integers are unbounded.
- Cache.Incremented: Redis INCR refuses stored values such as "+5", "007" or numbers past int64, which Go's Atoi (and so `Cache.Count`) would read. The model cannot reach such values, since counters are only ever written by Itoa and INCR.
- Unicode character classes: `unicode.IsUpper`, `IsLower`, `IsDigit`, `IsPunct` and `IsSymbol` are modelled on ASCII only. Other characters count toward the byte length but belong to no class.
- Go's JSON encoder escapes more than the quote and the backslash (control characters, `<`, `>`, `&`, invalid UTF-8). Go's decoder accepts white space and all escapes. `JsonList` models only the quote and the backslash and the compact form; permission names are plain identifiers.
- Jwt.Codec.Generate: tokens are assumed distinct from every token issued before. The source's HS384 tokens sign only the user, the expiry and the issue time in whole seconds, so two tokens for the same user and lifetime issued within one second coincide. `Login`, `GenerateAccessToken` and `LatestLoginWins` inherit this assumption.
- UserService.UserService.CreateUser: the publish error carries only its fixed message, not the text of the producer's error; the role-assignment error does carry the repository's text.
- AuthServices.AuthService.GenerateResetToken: the token is a parameter standing for the random base64 value the source draws.

## Findings

| source | as written | input that shows it | evidently intended | confidence | as-written member | corrected member |
|---|---|---|---|---|---|---|
| utils/error_handler.go:17-18 | `switch err` compares by identity, so every sentinel the services wrap with `%w` maps to 500 | GetUsersWithFiltersCursor with `from` after `to` returns a wrapped ErrInvalidCategory, which becomes 500 | classify with errors.Is, so the wrapped sentinel keeps its 400 | high, not executed | `ErrorHandler.WrappedSentinelIs500` | `ErrorHandler.HttpStatusFromErrorChain` |
| service/user_service.go:46-123 | CreateUser never adds the new username to the Bloom filter. UsernameExists returns false on a Bloom negative without asking the store | create a user whose name is not in the filter, then ask UsernameExists: false | add the username to the filter after a successful insert | medium, not executed | `UserService.CreatedUsernameMissed` | `UserService.UserService.CreateUserIndexed` |

Two smaller observations follow from the same verified contracts:

- errors/error.go documents ErrInvalidPassword as a 400 error, but no case of `HttpStatusFromError` lists it, so it maps to 500.
- ErrValidationFailed is listed in the 400 case, so the 422 case after it is never taken.

`Login` counts failures under the name the client typed. Attempts made with the email and with the username are therefore counted separately.
