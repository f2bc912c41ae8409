# Menopause-journey tracker: accounts, gates and tracking log in Dafny

This project models the parts of the health-tracking application that make
decisions: the account controller of the backend (register, login, logout,
profile read and update, password change, account deletion), the
authentication middleware (the strict and optional token gates, the admin
gate and the per-address rate limiter), the login and register page of the
browser client (email pattern, register-form rules, field checks, password
strength, browser session expiry, the legacy in-memory account list) and the
main page's tracking log (symptom entries kept one per date, medication
list, goal counters and milestones, reminders, mood emoji, the cycle-change
summary).

Modules, one per concern:

- `Opt` (option.dfy): the `Option` type.
- `JsString` (js_string.dfy): the JavaScript `\s` class, `trim` and `startsWith`.
- `Seqs` (seqs.dfy): order-keeping filter and occurrence count.
- `Store` (store.dfy): the documents of the users, user_goals and user_sessions collections.
  It also holds the bcrypt and JWT stand-ins and the bulk session deactivation.
- `Gate` (gate.dfy): `verifyToken`, `optionalAuth` and `requireAdmin` as decisions over the tables.
- `RateLimit` (rate_limit.dfy): `authRateLimit`, as a class over the bucket map and a pure step function.
- `Accounts` (accounts.dfy): `registerValidation`, `loginValidation` and the seven handlers.
  The handlers are methods of a class `AuthService` that owns the three collections.
- `Routes` (routes.dfy): the router's composition order, plus end-to-end scenarios.
  Register and login run the rate limiter, then validation, then the handler.
  Every other route runs the strict gate, then the handler as the resolved user.
- `AuthForms` (auth_forms.dfy): frontend/auth-script.js.
- `Tracker` (tracker.dfy): frontend/script.js.

Foreign code is abstracted:

- bcrypt: a digest is `Hash(secret, salt)`. `Verifies(pw, h)` holds exactly when `pw` gives the same Blowfish key as the password `h` was made from. The key is what bcryptjs derives: the UTF-8 bytes of the password and a terminating zero byte, repeated to fill 72 bytes. Passwords that share their first 72 bytes therefore verify against each other's digest, at login (backend/controllers/authController.js:151), password change (:304) and account deletion (:350).
- `jwt.sign`: a function-valued field `sign` of the service.
- `jwt.verify`: a function `verify` from token to `JwtVerdict`, which is claims, `JsonWebTokenError`, `TokenExpiredError` or another error.
- express-validator's `isEmail` and `normalizeEmail`: function-valued fields of the service.
- `Date.now()`: a `now: nat` parameter in milliseconds.
- Random ids and salts: parameters or a counter.

Where the code and its description disagree, the model follows the code:

- The session document that register writes always expires 24 hours later. The JWT's own lifetime, and the `expiresIn` of the reply, follow `JWT_EXPIRES_IN` when it is set (backend/controllers/authController.js:83, 90, 110). The two can therefore disagree.
- The login reply's user is the document as read before `lastLogin` is updated, with the hash removed (backend/controllers/authController.js:147-179).
- changePassword checks the new password's length before looking the user up (backend/controllers/authController.js:288-302).
- An absent current password, or an absent delete password, makes `bcrypt.compare` throw. The model gives 500 in that case.
- updateProfile does not check `isActive`. The document store refuses to update a missing document, or to write an undefined field, so those cases give 500 (backend/controllers/authController.js:260-266).
- getProfile returns the whole user document, including its password hash, overlaid by the goals document (backend/controllers/authController.js:241).
- checkGoalAchievements compares each counter for equality with its milestone. It therefore awards a milestone again every time it runs while a counter sits on that value (frontend/script.js:775-786).
- The celebration and mood strings keep the code points the page file stores. Those are mis-decoded emoji: a private-use character followed by Latin-1 letters.

The source has wiring defects. The model does not reproduce them: it runs the gate and the handlers over one shared session table.

- The middleware imports `executeQuery` from the database module, which does not export it (backend/middleware/auth.js:2).
- The controller calls `executeQuery` without importing it (backend/controllers/authController.js:207). As written, every logout fails.
- The gate looks sessions up by `token_hash` in an SQL table. The controller writes a `token` field to a Firestore collection (backend/controllers/authController.js:87-92 against backend/middleware/auth.js:22-32). The model matches on the token string.
- The gate's `SELECT us.*, u.id` makes `id` ambiguous (backend/middleware/auth.js:23). The model takes `sessionId` to be the matched session's position in the table.
- `registerUser` and `authenticateUser` use a `users` array that frontend/auth-script.js never declares. It is a field of the class `LegacyDirectory`.
- `handleLogin` calls `validateLoginForm`, which frontend/auth-script.js does not define. The login page's own check is not part of this model.

## Model

| member | source | states |
|---|---|---|
| Store.HashPassword | backend/controllers/authController.js:53-54 | a new digest verifies its own password and keeps the call's salt |
| Store.Utf8 | backend/controllers/authController.js:54 | the encoding bcryptjs hashes has at least one byte per character |
| Store.Utf8NoZero | backend/controllers/authController.js:54 | a string without NUL characters encodes without zero bytes |
| Store.LongPasswordsCollide | backend/controllers/authController.js:151 | a password that shares the first 72 characters of the stored one is accepted, whatever follows |
| Store.ShortPasswordsExact | backend/controllers/authController.js:151 | for a stored password under 72 bytes without NUL characters, a NUL-free password is accepted exactly when its UTF-8 bytes are the stored password's |
| Store.DeactivateAll | backend/controllers/authController.js:316-320 | every session of the user is inactive afterwards; every other user's session is untouched; only `isActive` ever changes |
| Store.DeactivateAllIdempotent | backend/controllers/authController.js:316-320 | running the deactivation again changes nothing |
| Accounts.RegisterErrors | backend/controllers/authController.js:8-21 | no error exactly when both trimmed names have 2-50 characters, the email passes `isEmail`, age is an integer in 18..100, the password has at least 8 characters, the confirmation equals it, and the stage is absent or one of the five stages; at most one error per rule |
| Accounts.LoginErrors | backend/controllers/authController.js:23-26 | no error exactly when the email passes `isEmail` and the password is non-empty |
| Accounts.ActiveAccountUnique | backend/controllers/authController.js:139-147 | with unique emails, the login lookup finds exactly the one active account with the address |
| Accounts.RegisteredUser | backend/controllers/authController.js:57-68 | the new document is active and not admin, has the normalized email and a hash of the password, and defaults its stage to 'not-sure' and its newsletter flag to false |
| Accounts.SoftDeleteIsPermanent | backend/controllers/authController.js:357-358 | after a soft delete, no active account has the address (so login fails), yet the conflict check still sees it (so re-registration gives 409) |
| Accounts.RegisteredAccountFound | backend/controllers/authController.js:44-68 | adding an account whose email is not taken keeps emails unique, and login then finds exactly that account |
| Accounts.DeactivateBatch | backend/controllers/authController.js:317-320 | the batch loop deactivates exactly what `DeactivateAll` describes |
| Accounts.AuthService.Register | backend/controllers/authController.js:29-121 | validation failure gives 400 with the errors, and a taken email (active or soft-deleted) gives 409; both leave the tables unchanged. Otherwise it adds exactly one user, zeroed goals under the new id, and one active session expiring 24h later; the reply's user has no hash, and its token and `expiresIn` follow `JWT_EXPIRES_IN` |
| Accounts.AuthService.CreateAccount | backend/controllers/authController.js:52-112 | the success path of register: the new id is fresh, and each of the three collections grows by exactly its one new document |
| Accounts.AuthService.Login | backend/controllers/authController.js:124-198 | validation failure gives 400. An unknown or inactive email and a wrong password both give the same 401 'Invalid email or password' and change nothing. Success is the only other outcome |
| Accounts.AuthService.OpenSession | backend/controllers/authController.js:159-189 | adds one active session of 30 days with `expiresIn` '30d' when remembered, else 24h with '24h'; sets `lastLogin`; the reply carries the stored view without the hash |
| Accounts.AuthService.Logout | backend/controllers/authController.js:201-221 | deactivates exactly the session the gate resolved, changes nothing else, and replies 200 |
| Accounts.AuthService.GetProfile | backend/controllers/authController.js:224-251 | a missing or inactive user gives 404; otherwise 200 with the user document, the goals when they exist, and the id forced to the user id |
| Accounts.AuthService.UpdateProfile | backend/controllers/authController.js:254-279 | succeeds exactly when the document exists and all five fields are given. It then writes those five fields and nothing else (never email, hash or `isActive`); otherwise it gives 500 and changes nothing |
| Accounts.AuthService.DeactivateSessions | backend/controllers/authController.js:316-320 | the session table becomes `DeactivateAll` of the old one, and users and goals are untouched |
| Accounts.AuthService.ChangePassword | backend/controllers/authController.js:282-333 | a short or missing new password gives 400 before any lookup; a missing or inactive user gives 404; a wrong current password gives 401; none of these changes state. Success is exactly the remaining case: the hash is replaced and every session of that user, and only that user, is deactivated |
| Accounts.AuthService.DeleteAccount | backend/controllers/authController.js:336-376 | a missing or inactive user gives 404 and a wrong password gives 401, without change. Success (exactly the remaining case) sets `isActive` false and deactivates all of the user's sessions |
| Gate.BearerToken | backend/middleware/auth.js:9-16 | a token exists exactly when the header is present and starts with 'Bearer ', and the header is then 'Bearer ' followed by the token |
| Gate.BearerRoundTrip | backend/middleware/auth.js:9-16 | the token is recovered from the header a client builds from it |
| Gate.FindSessionFrom | backend/middleware/auth.js:22-32 | the lookup returns the first row that matches the token, has not expired, is active and belongs to an active user; it returns none only when no row matches |
| Gate.VerifyToken | backend/middleware/auth.js:5-70 | missing bearer gives 'Access token required'; a signature error gives 'Invalid token'; an expiry error gives 'Token expired'; another error gives 500; a verified token with no matching session gives 'Invalid or expired session'; admission names a matching session and its owner |
| Gate.OptionalAuthAgrees | backend/middleware/auth.js:73-114 | the optional gate resolves exactly the identities the strict gate admits and resolves none exactly when the strict gate rejects, so it never rejects |
| Gate.RequireAdmin | backend/middleware/auth.js:117-145 | no user gives 401; the request proceeds exactly when the user's document has `isAdmin`; anything else gives 403 |
| Gate.IssuedSessionAdmits | backend/middleware/auth.js:22-48 | a just-issued active, unexpired session of an active user admits its token as that user, when no earlier row carries the same token |
| Gate.DeactivatedUserNotAdmitted | backend/middleware/auth.js:26-29 | after all of a user's sessions are deactivated, no header is admitted as that user |
| Gate.RevokedTokenRejected | backend/middleware/auth.js:34-39 | a token issued only to that user is then refused as an invalid session |
| Gate.InactiveUserNotAdmitted | backend/middleware/auth.js:29 | a soft-deleted user is never admitted |
| RateLimit.Attempt | backend/middleware/auth.js:159-174 | a new address, or a window that has passed (strictly), starts the bucket at count 1 with reset now + 900000. Inside the window, a count of 5 or more is refused without change, and anything less is counted |
| RateLimit.RefusedOnlyWhenFull | backend/middleware/auth.js:166-171 | a refusal happens only when a stored bucket is full and its window is still open, and it leaves the bucket as it was |
| RateLimit.RunInsideWindow | backend/middleware/auth.js:166-173 | within one window, a bucket holding `count` attempts lets exactly the next 5 - `count` requests through |
| RateLimit.SixthAttemptRefused | backend/middleware/auth.js:159-174 | from a new address within 15 minutes, the first five requests proceed and the sixth and later ones are refused |
| RateLimit.AllowedAfterWindow | backend/middleware/auth.js:161-164 | after the window, the next request proceeds and opens a new window |
| RateLimit.RateLimiter.Check | backend/middleware/auth.js:148-177 | the verdict is `Attempt` on the caller's bucket. Only the caller's bucket is written, and only when the request is allowed; no bucket ever holds more than 5 |
| Routes.Server.PostRegister | backend/routes/auth.js:17 | a refused rate check gives 429 with no account change; otherwise the reply is 400 exactly on validation errors, 409 exactly on a taken email, and 201 with the new user and its session otherwise |
| Routes.Server.PostLogin | backend/routes/auth.js:18 | rate limit first, then 400 exactly on validation errors, then 401 exactly when no active account matches or the password is wrong; any non-200 leaves the accounts unchanged |
| Routes.Server.PostLogout | backend/routes/auth.js:21-23 | a gate rejection is the reply, with no change; an admitted caller's session is deactivated |
| Routes.Server.GetProfile | backend/routes/auth.js:21-24 | behind the gate the profile read always succeeds, and returns the caller's own document |
| Routes.Server.PutProfile | backend/routes/auth.js:21-25 | behind the gate, email, hash and `isActive` of the caller never change, and sessions are untouched |
| Routes.Server.PutChangePassword | backend/routes/auth.js:21-26 | behind the gate, 404 cannot happen. Success is exactly a long-enough new password plus the right current password, and it revokes every session of the caller |
| Routes.Server.DeleteAccount | backend/routes/auth.js:21-27 | behind the gate, 404 cannot happen. Success is exactly the right password, and it soft-deletes the caller and revokes all of the caller's sessions |
| Routes.ProfileWithRevokedToken | backend/middleware/auth.js:34-39 | a token whose only session was deactivated reads the profile no more (401) |
| Routes.LogoutScenario | backend/routes/auth.js:17-24 | register, read profile, log out, read profile give 201, 200, 200, 401 |
| Routes.ChangePasswordScenario | backend/routes/auth.js:17-26 | register, change password, read profile with the old token give 201, 200, 401 |
| Routes.LoginAfterDelete | backend/controllers/authController.js:139-145 | logging in to a soft-deleted account gives 401 and changes no user |
| Routes.RegisterAfterDelete | backend/controllers/authController.js:44-50 | registering the email of a soft-deleted account gives 409 |
| Routes.DeleteAccountScenario | backend/routes/auth.js:17-27 | register, delete account, log in, register again give 201, 200, 401, 409 |
| JsString.TrimIsInfix | backend/controllers/authController.js:9-10 | `trim` returns the infix between leading and trailing whitespace and loses no other character |
| JsString.TrimIdempotent | frontend/auth-script.js:385 | trimming twice is trimming once |
| Tracker.IndexOfDate | frontend/script.js:164 | `findIndex` returns the first entry with the date, and none exactly when no entry has it |
| Tracker.TrackingLog.FindDateIndex | frontend/script.js:164 | the scan loop returns what `IndexOfDate` describes |
| Tracker.UpsertContents | frontend/script.js:164-169 | after the upsert, the entry is the one found for its date; the list grew by one exactly when the date was new; entries of other dates stay where they were |
| Tracker.UpsertKeepsDatesUnique | frontend/script.js:164-169 | dates that were unique stay unique |
| Tracker.TrackingLog.UpsertEntry | frontend/script.js:163-169 | replaces the same-date entry in place or appends, reports which, and keeps dates unique |
| Tracker.TrackingLog.SubmitSymptoms | frontend/script.js:128-186 | no date, or an unrated mood or sleep, is rejected with its alert and no change. Otherwise the entry is upserted, `symptomsLogged` increases by 1, `daysTracked` increases by 1 only for a new date, the milestone check runs, and one tracked day per entry is kept |
| Tracker.Achievements | frontend/script.js:772-787 | each message is awarded exactly when its counter equals its milestone (7 or 30 days, 50 symptoms, 10 medications); at most three at once |
| Tracker.AwardedBounds | frontend/script.js:788-792 | `goalsAchieved` grows by the number of milestones hit, other counters are untouched, and hitting none changes nothing |
| Tracker.StreakAwardedAgain | frontend/script.js:775-777 | because the test is equality, taking a medication while the streak sits at 7 awards the streak a second time |
| Tracker.TrackingLog.CheckGoalAchievements | frontend/script.js:772-793 | the loop collects exactly `Achievements` of the counters and adds their number to `goalsAchieved` |
| Tracker.MoodEmoji | frontend/script.js:257-260 | ratings 1..5 pick the matching face; anything else gives the third face |
| Tracker.MoodEmojiFaces | frontend/script.js:257-260 | the five faces are distinct, and out-of-range ratings show the face of rating 3 |
| Tracker.Reminders | frontend/script.js:356-359 | the reminders are exactly the daily and twice-daily medications of the list |
| Tracker.RemindersAfterAdd | frontend/script.js:351-359 | adding a medication appends it to the reminders exactly when it is due, and the earlier reminders stay as they were |
| Tracker.Without | frontend/script.js:343 | removal keeps exactly the medications whose id differs |
| Tracker.WithoutAppend | frontend/script.js:343 | removal keeps the list's order: an appended medication is kept, at the end, exactly when its id differs |
| Tracker.WithoutMultiset | frontend/script.js:343 | every other medication is kept as many times as it was listed, and none with the id survives |
| Tracker.TrackingLog.AddMedication | frontend/script.js:263-294 | accepted exactly when name, dosage and time are non-empty; it then appends exactly one medication, and otherwise changes nothing |
| Tracker.TrackingLog.TakeMedication | frontend/script.js:332-338 | `medicationsTaken` increases by 1 whatever the id, then the milestone check runs |
| Tracker.TrackingLog.RemoveMedication | frontend/script.js:341-348 | after confirmation, the list becomes `Without` of it; otherwise nothing changes |
| Tracker.AllCycleChanges | frontend/script.js:540 | every change label of every entry occurs in the flattened list |
| Tracker.FirstOccurrences | frontend/script.js:541-546 | the object's keys are the distinct labels, each once |
| Tracker.TallyStep | frontend/script.js:542-544 | one more label adds itself to the key list when new, and raises only its own count |
| Tracker.TallyOne | frontend/script.js:543 | one pass of the tally loop keeps keys in order of first appearance and counts equal to occurrences |
| Tracker.TallyCycleChanges | frontend/script.js:540-546 | the tally pairs each distinct label, in first-appearance order, with its number of occurrences |
| Tracker.InsertByCount | frontend/script.js:547 | inserting keeps every element and adds exactly the new one |
| Tracker.InsertByCountSorted | frontend/script.js:547 | inserting into a list sorted by count, largest first, keeps it sorted |
| Tracker.SortByCount | frontend/script.js:547 | the sort is a permutation of the tally |
| Tracker.SortByCountSorted | frontend/script.js:547 | the sort's result is ordered by count, largest first |
| Tracker.Summary | frontend/script.js:546-548 | the summary has min(5, n) entries of an n-entry tally, each taken from the tally |
| Tracker.SummaryIsTop | frontend/script.js:546-548 | the summary is ordered by count, and no label left out has a larger count than any label shown |
| AuthForms.ValidEmailHasShape | frontend/auth-script.js:533-536 | every accepted address is a non-empty local part, '@', a domain label, '.' and a last label, none containing whitespace or '@' |
| AuthForms.ShapeIsValidEmail | frontend/auth-script.js:533-536 | every string of that shape is accepted |
| AuthForms.EmailPattern | frontend/auth-script.js:533-536 | acceptance and the pattern's shape coincide |
| AuthForms.ValidEmailIsTrimmed | frontend/auth-script.js:533-536 | an accepted address has no surrounding whitespace |
| AuthForms.AcceptableIffNothingBroken | frontend/auth-script.js:187-236 | the form meets all seven rules exactly when it breaks none |
| AuthForms.FailedUpToExact | frontend/auth-script.js:193-233 | after k checks, exactly the broken rules among the first k have been reported, in checking order |
| AuthForms.FailedRulesExact | frontend/auth-script.js:187-236 | every rule is evaluated: each broken rule is reported once, in order, and nothing is reported exactly when the form is acceptable |
| AuthForms.ValidateRegisterForm | frontend/auth-script.js:187-236 | the flag is true exactly when names have at least 2 characters, the email is valid, age is in 18..100, the password has at least 8 characters and is confirmed, and the terms are agreed; every failure is reported |
| AuthForms.ValidateField | frontend/auth-script.js:384-411 | the value is trimmed and an empty value passes; otherwise an email passes exactly when it matches the pattern, a password exactly when it has at least 8 characters, and fields other than email, password and age always pass |
| AuthForms.EmailFieldAgreesWithForm | frontend/auth-script.js:389-394 | an email the register rule accepts passes the field check |
| AuthForms.PasswordFieldImpliesForm | frontend/auth-script.js:395-400 | a non-blank password that passes the field check meets the register rule |
| AuthForms.CountOfFive | frontend/auth-script.js:349-353 | the score is the sum of the five criteria's indicators |
| AuthForms.Score | frontend/auth-script.js:346-353 | the score lies in 0..5 |
| AuthForms.CheckPasswordStrength | frontend/auth-script.js:337-369 | the accumulated strength is the number of criteria met, and the label is Weak up to 2, Medium at 3, Strong from 4 |
| AuthForms.CountTrueMonotone | frontend/auth-script.js:349-353 | more criteria met never lowers the count |
| AuthForms.FullScore | frontend/auth-script.js:349-353 | a score of 5 means all five criteria hold, and conversely |
| AuthForms.ScoreNeverDrops | frontend/auth-script.js:349-366 | appending characters never lowers the score, nor the label |
| AuthForms.CreateSession | frontend/auth-script.js:285-296 | the record copies the user's fields and expires 30 days later when remembered, else one day later |
| AuthForms.CheckExistingSession | frontend/auth-script.js:50-62 | a stored session redirects exactly when `expires` > now and is kept; otherwise it is removed |
| AuthForms.SessionLifetime | frontend/auth-script.js:291 | a session made at t is honoured exactly until t plus its lifetime, then cleared; a remembered one outlives a plain one |
| AuthForms.NewLocalUser | frontend/auth-script.js:252-273 | the new account has the form's email and password, empty symptoms and medications, and zero counters |
| AuthForms.FirstMatch | frontend/auth-script.js:239-242 | the found account is in the list with both credentials, and none is found exactly when no account has both |
| AuthForms.FirstMatchIsFirst | frontend/auth-script.js:239-242 | when the account at k is the first with both credentials, it is the one found |
| AuthForms.RegisteredLocalUserFound | frontend/auth-script.js:245-282 | after registering a fresh email, its credentials find exactly the new account |
| AuthForms.LegacyDirectory.FindByEmail | frontend/auth-script.js:247 | the scan finds the first account with the email, or none exactly when no account has it |
| AuthForms.LegacyDirectory.RegisterUser | frontend/auth-script.js:245-282 | a taken email gives false and no change; otherwise exactly one new account is appended, and emails stay distinct |
| AuthForms.LegacyDirectory.AuthenticateUser | frontend/auth-script.js:239-242 | the loop returns what `FirstMatch` describes |

## Left out

- I/O is not modelled: Firestore and MySQL access, `await` ordering, batch atomicity, HTTP and Express itself. Each handler is one atomic step over in-memory tables.
- The check-then-act race between the duplicate-email query and the insert in register is not modelled: the model is sequential.
- Store failures that the handlers turn into 500 are not modelled. Only the two store refusals of updateProfile are.
- jsonwebtoken, `isEmail` and `normalizeEmail` are abstract functions. Their behaviour is not modelled.
- Store.Verifies: bcrypt's key derivation (UTF-8, the zero terminator, the 72-byte cycle) is modelled. Blowfish itself, the cost factor and collisions between different keys are not: different keys are taken never to verify.
- Identifiers, salts and time stamps are parameters: Firestore document ids, `Date.now()` ids, ISO time stamps and `new Date()`.
- Accounts.AuthService.Logout: does not model the ReferenceError that the undefined `executeQuery` raises, as written, on every logout.
- Gate.VerifyToken: does not model the driver and table mismatch of the session query. It follows the stated WHERE clause over the table the controller writes.
- The DOM, modals, confetti, local storage (de)serialisation, `fetch` and PDF reports are left out.
- The averages and weight range of `updateCharts` are floating point and are left out. The parsed weight is an optional real, and `parseFloat` itself is not modelled.
- Tracker.Summary: the display text, with its `replace('-', ' ')`, is not modelled. JavaScript orders integer-like object keys numerically; the model keeps the insertion order for every label.
- Tracker.SortByCount: the order among labels of equal count is not proved stable.
- Strings are sequences of code points, not UTF-16 code units. Lengths therefore differ from JavaScript's for characters outside the Basic Multilingual Plane.
- AuthForms.ValidateField: the age branch is computed, with the string-to-number conversion as a parameter, but its contract states nothing about it.
- `validateLoginForm`, `handleLogin` and `handleRegister` are not modelled. They are form plumbing, and the first is not defined in the page file.
- `checkAuthentication`'s JWT payload decoding, `updateDashboard`, `updateActivityList` and the recipe pages are display-only or foreign parsing.
- backend/setup.js and backend/config/database.js are not part of this model: they are configuration plumbing.
