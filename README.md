# Signup, login and session handling: a Dafny model

This project models the decision-making of a small username/password
authentication service and of its signup form.

- On the server, `POST /api/signup` runs a fixed validation chain. The first rule that fails decides the reply. If every rule passes, the username must be new; then a bcrypt secret of the password is stored.
- `POST /api/login` checks that both fields are present, looks up the account, verifies the password and writes the account's id and username into the session.
- `GET /api/logout` destroys the session.
- `GET /api/user` reports the session's username, or 401.
- On the client, the signup form keeps a live error map (username too short, confirmation mismatch), shows a five-criterion password-strength meter, and only sends the form when no field is empty.

## Modules

- `Options` (`options.dfy`): the `Option` datatype.
- `CharClasses` (`char_classes.dfy`): the ASCII classes `[a-z]`, `[A-Z]`, `[0-9]` and `[!@#$%^&*(),.?":{}|<>]` that both sides' regular expressions test for.
- `Bcrypt` (`bcrypt.dfy`): a stand-in for `bcrypt.hash(password, 10)` and `bcrypt.compare`. A secret is `"$2b$10$"` followed by a 22-character salt and a digest. The salt is a parameter, because bcrypt draws it at random. The proved contract is:
  - a secret verifies against its own password and against no other;
  - a secret is never equal to the plaintext;
  - two salts give two different secrets, both of which verify.

  The rest of the model uses only properties this contract states.
- `CredentialPolicy` (`credential_policy.dfy`): the server's validation chain `ValidateSignup`. A JSON field that is missing and a field that is `""` are both falsy, so the handlers reject them the same way. The model therefore writes a missing field as `""`.
- `AuthService` (`auth_service.dfy`): the server's state is the account store (a map keyed by username), the counter that stands for MongoDB's generated `_id`, and the calling client's session (an optional record with an expiry time). Each handler is a pure function from request and state to reply and new state. The class `AuthServer` holds the same state in fields. Its methods perform the handlers step by step, and each method is proved equal to its function. Replies carry a `Notice`, and `Notice.Text()` gives the exact message string the source sends.
- `AuthProperties` (`auth_properties.dfy`): properties that span several requests: signup then login, a second signup for a taken username, the one-hour expiry, logout lasting until the next login, and the well-formedness invariant along any run of requests.
- `SignupForm` (`signup_form.dfy`): the form's live error-map effects, the strength meter (a method with a step-by-step counter, proved against the function `StrengthOf`), `validateForm` and the submit gate.
- `Agreement` (`agreement.dfy`): how the form's checks relate to the server's rules.

Time is a parameter `now`, in milliseconds. A login at time `t` writes a session that expires at `t + 3600000`, the cookie `maxAge`. A login by the account whose session is still live writes the same id and username again; express-session then sees the session as unmodified and, with `rolling` off, does not send a new cookie, so the model leaves the session and its expiry as they were. A later request treats the session as absent once `now >= expiresAt`.

## Model

| member | source | states |
|---|---|---|
| `Bcrypt.Hash` | backend/server.js:75 | the stored secret has bcrypt's cost-10 layout with the given salt, differs from the plaintext, and verifies against the password |
| `Bcrypt.Verify` | backend/server.js:99 | a match implies the secret is well formed; a malformed secret simply does not match |
| `Bcrypt.VerifyOnlyOriginal` | backend/server.js:99-102 | a secret verifies against a candidate exactly when the candidate is the hashed password |
| `Bcrypt.SaltedHashesDiffer` | backend/server.js:75 | hashing one password with two different salts gives two different secrets, and both verify |
| `CredentialPolicy.ValidateSignup` | backend/server.js:50-67 | accepts exactly when all rules hold together; names MissingField exactly when a field is empty, UsernameTooShort exactly when all fields are present and the username is shorter than 8, PasswordMismatch exactly when the earlier checks pass and the passwords differ, WeakPassword exactly when the earlier checks pass and a lowercase, uppercase or special character is missing |
| `CredentialPolicy.ShortUsernameAlwaysRefused` | backend/server.js:54-56 | with all fields present, a username under 8 characters is refused whatever the passwords are |
| `CredentialPolicy.DigitsNeverRequired` | backend/server.js:62-67 | a three-character password with no digit is accepted: neither digits nor a length are required |
| `AuthService.Signup` | backend/server.js:47-84 | the session is untouched; the reply is 201 exactly when validation passes and the username is new; then exactly one account is added, keyed by the username, with the next id and the hash (never the plaintext) as its password; otherwise the reply is 400 and the state is unchanged, the message being the first failed validation rule's, or "Username already exists" when validation passes and the username is stored |
| `AuthService.Login` | backend/server.js:86-112 | the reply is 200 exactly when both fields are present, the account exists and the password verifies; then the session holds the account's id and username and expires one hour later, unless that account's session was already live, in which case the state is unchanged and the first expiry stands; the reply carries the stored username; otherwise the reply is 400 and the state is unchanged, with "Both fields are required" for a missing field, "Username does not exist" for an unknown username and "Incorrect password" when the password does not verify |
| `AuthService.Logout` | backend/server.js:114-122 | always 200 "Logout successful"; the session is gone; the account store is unchanged |
| `AuthService.CurrentUser` | backend/server.js:124-130 | 200 with the session's username exactly when an unexpired session exists, otherwise 401 "Not authenticated" |
| `AuthService.InsertPreservesWellFormed` | backend/server.js:75-77 | inserting an account with the next id under an unused username of at least 8 characters keeps usernames unique, ids distinct and sessions pointing at accounts |
| `AuthService.SignupPreservesWellFormed` | backend/server.js:47-84 | signup keeps the store and session invariant |
| `AuthService.LoginPreservesWellFormed` | backend/server.js:104-105 | the session login writes refers to an existing account by its id and username |
| `AuthService.LogoutPreservesWellFormed` | backend/server.js:115 | logout keeps the invariant |
| `AuthService.AuthServer.constructor` | backend/server.js:41-45 | a new server has an empty account store and no session, and is well formed |
| `AuthService.AuthServer.PostSignup` | backend/server.js:47-84 | the checks, lookup and insert done in place produce exactly the reply and new state of `Signup`, and keep the invariant |
| `AuthService.AuthServer.PostLogin` | backend/server.js:86-112 | the in-place session write, skipped when the same account's session is still live, produces exactly the reply and new state of `Login` |
| `AuthService.AuthServer.GetLogout` | backend/server.js:114-122 | destroying the session in place produces exactly the reply and new state of `Logout` |
| `AuthService.AuthServer.GetUser` | backend/server.js:124-130 | the reply is that of `CurrentUser` on the current state, which is not changed |
| `AuthProperties.SignupThenLogin` | backend/server.js:75-107 | after a successful signup, login with the same credentials returns 200 with that username, writes a session for the new account, and /api/user then reports the username |
| `AuthProperties.SecondSignupTaken` | backend/server.js:70-73 | after a successful signup, any later valid signup for the same username gets "Username already exists" and changes nothing |
| `AuthProperties.WrongPasswordRefused` | backend/server.js:99-102 | after signup, login with any other non-empty password gets "Incorrect password" and changes nothing |
| `AuthProperties.LoginReportsRequestedUsername` | backend/server.js:104-107 | in a well-formed state the username in the login reply and in the session is the one asked for |
| `AuthProperties.SessionExpiresAfterOneHour` | backend/server.js:38 | after a login at time t that finds no live session of the same account, /api/user reports the username before t + 3600000 ms and answers 401 from then on |
| `AuthProperties.ReloginKeepsExpiry` | backend/server.js:33-39 | a second successful login while the first login's session is live returns 200 and changes nothing, so the session still expires one hour after the first login and /api/user answers 401 from then on |
| `AuthProperties.LogoutIdempotent` | backend/server.js:114-122 | logging out a second time gives the same reply and state as the first |
| `AuthProperties.NoSessionWithoutLogin` | backend/server.js:104-105 | only login writes a session: any run without a login leaves a client without a session without one |
| `AuthProperties.NotAuthenticatedAfterLogout` | backend/server.js:115-130 | after logout, /api/user answers 401 "Not authenticated" whatever requests follow, until the next login |
| `AuthProperties.StepPreservesWellFormed` | backend/server.js:47-130 | every handler keeps the invariant |
| `AuthProperties.RunPreservesWellFormed` | backend/server.js:47-130 | any sequence of requests keeps usernames unique, ids distinct, secrets well formed and sessions pointing at accounts |
| `AuthProperties.AccountsOnlyGrow` | backend/server.js:47-130 | no request removes or alters an account |
| `SignupForm.UsernameEffect` | frontend/src/components/Signup.js:16-26 | the username entry is present exactly when the username is non-empty and shorter than 8, and then holds the too-short message; other entries are unchanged |
| `SignupForm.ConfirmEffect` | frontend/src/components/Signup.js:51-61 | the confirmPassword entry is present exactly when the confirmation is non-empty and differs from the password, and then holds "Passwords do not match"; other entries are unchanged |
| `SignupForm.UsernameEffectIdempotent` | frontend/src/components/Signup.js:16-26 | re-running the username effect on its result changes nothing |
| `SignupForm.ConfirmEffectIdempotent` | frontend/src/components/Signup.js:51-61 | re-running the confirm effect on its result changes nothing |
| `SignupForm.EffectsCommute` | frontend/src/components/Signup.js:16-61 | the two live effects give the same map in either order |
| `SignupForm.CountTrue` | frontend/src/components/Signup.js:31-36 | a count of criteria is at most their number, equals it exactly when all hold, and is zero exactly when none holds |
| `SignupForm.CountFive` | frontend/src/components/Signup.js:31-36 | counting five criteria is adding one for each that holds |
| `SignupForm.Score` | frontend/src/components/Signup.js:31-36 | the score lies in 0..5 and is 5 exactly when length >= 8 and a lowercase, uppercase, digit and special character are all present |
| `SignupForm.StrengthOf` | frontend/src/components/Signup.js:29-48 | empty label exactly for the empty password; Weak exactly for score <= 2; Medium exactly for scores 3 and 4; Strong exactly when all five criteria hold |
| `SignupForm.MeasureStrength` | frontend/src/components/Signup.js:29-48 | the step-by-step counter and branch give the label `StrengthOf` specifies |
| `SignupForm.ValidateForm` | frontend/src/components/Signup.js:70-76 | an entry for each empty field, holding that field's "required" message, and none for a non-empty field |
| `SignupForm.Submit` | frontend/src/components/Signup.js:78-84 | the form is sent exactly when no field is empty (validateForm gives an empty map); if it is sent the errors are left as they were, otherwise they become validateForm's map |
| `SignupForm.LiveErrorsDoNotBlock` | frontend/src/components/Signup.js:80-84 | for every form and every live error map, the form is sent exactly when no field is empty, and the live entries make no difference to whether it is sent |
| `Agreement.SubmitGateMatchesServerPresence` | frontend/src/components/Signup.js:70-84 | the form sends a signup exactly when the server's "All fields are required" check will pass |
| `Agreement.LiveUsernameRuleMatchesServer` | frontend/src/components/Signup.js:17-18 | with all fields given, the username effect's result holds the too-short entry exactly when the server answers "too short" |
| `Agreement.ServerMismatchShownLive` | frontend/src/components/Signup.js:52-53 | whenever the server answers "Passwords do not match", the confirm effect's result holds the mismatch entry |
| `Agreement.MismatchEntryLostAfterFailedSubmit` | frontend/src/components/Signup.js:50-61 | a mismatch entry the confirm effect wrote is dropped by a submit with an empty username (Signup.js:80-83), is not restored when only the username is then typed, and the next submit is sent and refused by the server as "Passwords do not match" |
| `Agreement.StrongMeetsServerRule` | frontend/src/components/Signup.js:32-43 | a password rated Strong meets the server's lowercase/uppercase/special rule |
| `Agreement.AcceptedRatesAtLeastMedium` | backend/server.js:62-67 | every password the server accepts is rated Medium or Strong |
| `Agreement.MediumMayBeRefused` | frontend/src/components/Signup.js:38-41 | "abcdefgh1" is rated Medium yet the server refuses it as weak |

## Left out

- Agreement.LiveUsernameRuleMatchesServer: speaks of the username effect's result, not of the map the form shows. A failed submit replaces the whole map with validateForm's entries, and the effect runs again only when the username changes, so a too-short username can be sent and refused with no entry shown.
- Agreement.ServerMismatchShownLive: speaks of the confirm effect's result, not of the map the form shows. After a failed submit the mismatch entry is gone until a password field is edited again; Agreement.MismatchEntryLostAfterFailedSubmit exhibits such a run.
- Bcrypt.Hash: the stand-in's digest is the password itself. It is injective but not one-way, and it has no cost factor or constant-time comparison. A one-way function cannot be stated in Dafny. bcrypt's truncation of passwords after 72 bytes is not modelled.
- Bcrypt.VerifyOnlyOriginal: holds for the stand-in only. Real bcrypt ignores everything after the 72nd byte, so two passwords that share their first 72 bytes verify against each other's hash.
- AuthProperties.WrongPasswordRefused: rests on Bcrypt.VerifyOnlyOriginal, so against real bcrypt it holds only for passwords that differ within their first 72 bytes.
- Store and hashing failures are not modelled: the map store never fails. So the 500 replies ("Server error" at backend/server.js:80-83 and 108-111, "Logout failed" at 116-118) do not occur in the model.
- The race between `findOne` and `save` under concurrent signups is not modelled; requests are served one at a time. The unique index that would make a lost race fail inside `save` is part of the store failures above.
- Only one client is modelled. Its session is a single optional record; session identifiers and a store of many sessions are not modelled.
- express-session refreshes the stored session's expiry on each request. The model ends a session one hour after the login that first wrote it, when the browser drops the cookie; a later login by the same account while that cookie is live sends no new cookie and so does not extend it. The cookie header and `clearCookie` are transport details and are not modelled.
- MongoDB's generated `_id` is a counter in the store.
- The handlers assume string fields. A JSON body whose fields are not strings (numbers, objects) is not modelled.
- `length` counts UTF-16 code units in JavaScript. The model counts characters, and the character classes are ASCII.
- React rendering, the state hooks and the scheduling of effects, `handleChange`, `fetch`, `alert`, `setTimeout`, navigation and the general error banner are not modelled. `EffectsCommute` shows that the order in which the two live effects run does not matter.
- frontend/src/components/Login.js, frontend/src/components/Landing.js and frontend/src/App.js are not part of this model. They contain UI wiring, routing and fetch calls; Login.js only repeats the server's two presence checks.
- Database connection, CORS and session middleware setup (backend/server.js:10-39) are configuration and are not modelled, apart from the one-hour `maxAge` and the `rolling` option, which is left at its default of off (see `AuthProperties.ReloginKeepsExpiry`). The user schema (backend/server.js:41-45) is modelled: its unique username becomes the key of the account map.
