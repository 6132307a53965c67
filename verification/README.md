# Classroom booking: a Dafny model of the booking page, the reservation API and the credential checks

This project models the decision logic of a school classroom-booking application
(an Express server and a React front end) as pure functions over immutable
datatypes, and proves properties of those functions. It covers three parts.

- **The booking page** (`HomePage`, `SlotSelection`). The page is a reducer over
  `{classrooms, reservations, selectedClassroomId, currentDate, selectedSlots, isModalOpen}`.
  - Slot toggling is a de-duplicating add/remove on a sequence of `(dateMillis, label)` pairs.
  - Loading replaces both lists, and chooses the first classroom when none is chosen yet.
  - Submission sends one creation request per selected slot and waits for all of them.
    It merges all the created records or none of them.
- **The reservation routes** (`ReservationApi`, over `BookingData`).
  - `POST /api/reservations` checks five required fields before any write.
  - It then appends the record under a fresh identity. There is no check that the
    (classroom, date, time slot) cell is already booked.
  - The module also maps store failures to 500, and models the two list routes and
    `GET /api`.
- **Credentials and sessions** (`AuthRoutes`, `AuthGuard`, `GoogleVerify`,
  `AuthCallback`, over `Users` and `Tokens`).
  - Register and login outcomes.
  - The bearer-header gate: 401, 403 or pass.
  - Google sign-in's find-or-create, with a `GOOGLE_AUTH_` password marker.
  - The callback page's choice between storing the token and failing.

The modules stand in for the real collaborators as follows:
- The database is a list of records plus a `storeUp` flag. When the flag is false,
  every call to the store throws.
- Password hashing (`hash`), hash comparison (`compare`) and token verification
  (`verify`) are function parameters.
- A token is the record `{claims, lifetimeSeconds}`. The duration strings `"1h"` and
  `"1d"` are parsed to 3600 and 86400 seconds.
- `new Date(date)` on the server is the parameter `parseDate`, which returns nothing
  for a string that is not a date. `toISOString` on the page is the parameter `isoDate`.
- A page date is its `getTime()` instant in milliseconds.

The code behaves as follows in places a reader may not expect:
- Register has no missing-field check. The whole handler sits in one `try` block:
  - an absent email makes the unique lookup throw, so the answer is 500;
  - an absent password with a new email makes hashing throw, so the answer is 500;
  - a taken email answers 409 whatever the password, because the lookup runs first.
- The register token carries only `{userId}` and lasts one hour. Login and Google
  sign-in tokens carry `{userId, email}` and last one day.
- The gate never looks up the user table. A token for a deleted account passes as
  long as it verifies.
- `GET /api/auth/me` answers only a fixed message, not the user profile.
- An `Authorization` header that is present but empty does not count as missing.
  `authHeader && ...` evaluates to `""`, which is not `null`, so it goes to
  verification and ends in 403 rather than 401. The header `"Bearer "` carries the
  empty token and does the same. A non-empty header without a space has no second
  word and ends in 401.
- No reservation-cell uniqueness is enforced. Two posts of the same cell are both stored.

## Model

| member | source | states |
|---|---|---|
| BookingData.InitialClassroomsWellFormed | backend/src/data.ts:19-25 | the classroom fixture has exactly five rooms with the pairwise distinct ids c1..c5, every capacity is positive, and c1 is "電腦教室 (A)" |
| BookingData.InitialReservationsWellFormed | backend/src/data.ts:28-53 | the reservation fixture has three records; each names a fixture classroom; no two share a (classroom, date, slot) cell; every date has the YYYY-MM-DD shape |
| Ids.FreshId | backend/src/app.ts:56-65 | the identity given to a new record differs from every identity already in the table |
| ReservationApi.Welcome | backend/src/app.ts:22-24 | `GET /api` always answers 200 with the welcome message |
| ReservationApi.ListClassrooms | backend/src/app.ts:27-34 | 200 with the whole classroom table exactly when the store answers; otherwise 500 with "獲取教室資料失敗" |
| ReservationApi.ListReservations | backend/src/app.ts:37-44 | 200 with the whole reservation table exactly when the store answers; otherwise 500 with "獲取預約資料失敗" |
| ReservationApi.CreateReservation | backend/src/app.ts:47-71 | 400 "缺少必要的欄位" iff one of the five fields is absent or empty; 201 iff all are present, the store answers and the date parses; a 201 record is appended after the untouched table under a fresh id and carries the input fields and the parsed date; every other answer is 500 "建立預約失敗" and leaves the table unchanged |
| ReservationApi.NoCollisionCheck | backend/src/app.ts:47-71 | posting the same input twice is accepted twice, and the table then holds a double booking |
| ReservationApi.CreateAddsOneRecord | backend/src/app.ts:56-66 | a successful post grows the table by one record, keeps the old records as a prefix, and adds one record with the posted purpose |
| ReservationApi.PostThenListScenario | backend/src/api.test.ts:33-49 | posting the test's reservation answers 201 with the posted name, and the listing afterwards holds exactly one record with purpose "測試用" when the table held none |
| Tokens.DurationSeconds | backend/src/auth.routes.ts:39 | the model's duration grammar: a string is accepted only as a digit run followed by one of the unit letters s, m, h or d |
| Tokens.OneUnitDuration | backend/src/auth.routes.ts:91 | "1" followed by a unit letter lasts exactly one unit, so "1h" is 3600 s and "1d" is 86400 s |
| Tokens.Sign | backend/src/auth.routes.ts:85-92 | a minted token carries exactly the claims it was given and the lifetime its duration string denotes |
| Tokens.RegistrationToken | backend/src/auth.routes.ts:36-40 | the register token holds only the user id and lasts 3600 s |
| Tokens.SessionToken | backend/src/auth.routes.ts:85-92 | the login token holds the user id and email and lasts 86400 s |
| Users.FindByEmail | backend/src/auth.routes.ts:18 | the lookup finds a user iff some stored user has the email, and what it finds is a stored user with that email |
| Users.FindsTheStoredUser | backend/src/auth.routes.ts:73 | in a table with unique emails and ids, the lookup by a stored user's email returns that user |
| Users.CreateUser | backend/src/auth.routes.ts:27-33 | the new user is appended with the given email, hash and name under an unused id; when the email was free, the table keeps unique emails and ids |
| AuthRoutes.Register | backend/src/auth.routes.ts:12-61 | 409 "此 Email 已經被註冊" iff the email is taken, and nothing is created; 201 iff the store answers and the email is new and both email and password are present; a 201 appends one user storing `hash(password)` and answers its id, email and name with a one-hour `{userId}` token and no hash; 500 otherwise; the table invariant is kept |
| AuthRoutes.Login | backend/src/auth.routes.ts:64-109 | 400 iff the email or password is missing or empty, before any lookup; 500 iff the store fails after that; 200 iff the email is found and `compare` accepts, answering that user's token, id, email and name; every 401 is "Email 或密碼錯誤" |
| AuthRoutes.UnknownEmailLooksLikeWrongPassword | backend/src/auth.routes.ts:73-82 | an unknown email and a wrong password for a known email give the identical 401 response |
| AuthRoutes.EmptyPasswordAccountIsLockedOut | backend/src/auth.routes.ts:12-71 | registering a new email with the empty password succeeds with 201, yet every login with that empty password answers 400 |
| AuthRoutes.RegisterThenLogin | backend/src/auth.routes.ts:79-105 | when `compare(p, hash(p))` holds, register then login with the same password answers 200 with the registered id, email and name and a one-day token |
| AuthRoutes.Me | backend/src/auth.routes.ts:112-114 | 200 with the fixed message exactly when the gate passes the request; otherwise the gate's own 401 or 403 |
| AuthGuard.SplitOnSpace | backend/src/auth.middleware.ts:13 | splitting on single spaces gives at least one piece, no piece contains a space, and there is more than one piece iff the string has a space |
| AuthGuard.JoinSplit | backend/src/auth.middleware.ts:13 | joining the pieces with single spaces gives the split string back |
| AuthGuard.SplitJoin | backend/src/auth.middleware.ts:13 | splitting a join of space-free pieces gives those pieces back |
| AuthGuard.BearerToken | backend/src/auth.middleware.ts:12-13 | no token exactly when the header is absent, or is non-empty and contains no space; a token never contains a space |
| AuthGuard.BearerTokenOfWords | backend/src/auth.middleware.ts:13 | the token is the second space-separated word, whatever the scheme word is |
| AuthGuard.EmptyBearerIsPresent | backend/src/auth.middleware.ts:13-19 | the header "Bearer " yields the empty token, which is present and goes to verification |
| AuthGuard.Authenticate | backend/src/auth.middleware.ts:6-29 | 401 "未提供 Token" iff no token is extracted; 403 "Token 無效或已過期" iff a token is extracted and does not verify under the secret; `next` iff it verifies |
| AuthGuard.EmptyHeaderIsForbidden | backend/src/auth.middleware.ts:12-22 | unless the verifier accepts the empty token, the header "" and the header "Bearer " both answer 403, not 401 |
| AuthGuard.GateIsThreeWay | backend/src/auth.middleware.ts:12-28 | every request ends in exactly one of `next`, the 401 and the 403 |
| GoogleVerify.FirstEmail | backend/src/passport.setup.ts:37 | the profile email is the first listed address, and is absent when there is no list or the list is empty |
| GoogleVerify.Verify | backend/src/passport.setup.ts:36-86 | with no usable email, an error and nothing touched; if the store fails, an error and nothing touched; a usable email with a working store always succeeds; a stored email returns exactly the user the email lookup finds and creates nothing; a new email appends one user with that email, the display name and the "GOOGLE_AUTH_" marker; the token is `{userId, email}` for one day; the table invariant is kept |
| GoogleVerify.VerifyIsIdempotent | backend/src/passport.setup.ts:46-66 | a second sign-in with the same email creates nothing and returns the same user |
| GoogleVerify.CreatedAccountsAreMarked | backend/src/passport.setup.ts:57-65 | the password field of an account created by Google sign-in starts with "GOOGLE_AUTH_" |
| AuthCallback.QueryGet | frontend/src/pages/AuthCallbackPage.tsx:10-11 | the query value is absent iff no pair has the name; otherwise it is the value of the first pair with that name |
| AuthCallback.HandleCallback | frontend/src/pages/AuthCallbackPage.tsx:9-25 | navigation goes to "/" iff the token is non-empty, and then storage["authToken"] is the token; otherwise it goes to "/login?error=callback_failed" and storage is unchanged; no other key is touched |
| AuthCallback.EmptyTokenFails | frontend/src/pages/AuthCallbackPage.tsx:13 | an empty `?token=` takes the failure branch |
| SlotSelection.RemoveAll | frontend/src/pages/HomePage.tsx:73-76 | filtering keeps exactly the entries unequal to the pair, never grows the selection, and keeps it duplicate-free |
| SlotSelection.RemoveAllAppend | frontend/src/pages/HomePage.tsx:73-76 | filtering distributes over concatenation, so the kept entries stay in their order |
| SlotSelection.RemoveAbsent | frontend/src/pages/HomePage.tsx:73-76 | filtering out an absent pair changes nothing |
| SlotSelection.Toggle | frontend/src/pages/HomePage.tsx:67-81 | an absent pair is appended at the end; a present pair is filtered out (every occurrence removed, the rest kept in order) and the selection shrinks; the resulting set is the symmetric difference with the pair; no duplicates are introduced |
| SlotSelection.ToggleTwiceRestores | frontend/src/pages/HomePage.tsx:67-81 | toggling a pair twice from a selection without it gives back exactly the original sequence |
| SlotSelection.ToggleIsInvolutiveOnSets | frontend/src/pages/HomePage.tsx:67-81 | as a set, toggling a pair twice always gives back the original selection |
| SlotSelection.RemoveSingleOccurrence | frontend/src/pages/HomePage.tsx:69-76 | filtering out a pair that occurs exactly once drops that one occurrence and keeps everything else in order |
| SlotSelection.ToggleOffRemovesOnePosition | frontend/src/pages/HomePage.tsx:69-76 | in a duplicate-free selection, toggling off a selected pair removes exactly its one position |
| HomePage.FindClassroom | frontend/src/pages/HomePage.tsx:53-56 | the lookup is absent iff no classroom has the id; otherwise it is the first classroom with that id |
| HomePage.LoadData | frontend/src/pages/HomePage.tsx:25-46 | a failure changes nothing; a success replaces both lists, and sets the chosen id to the first classroom's only when none was chosen and the list is non-empty; date, selection and dialog flag are kept |
| HomePage.Open | frontend/src/pages/HomePage.tsx:87-91 | the dialog is open afterwards iff it was open or something is selected; nothing else changes |
| HomePage.Requests | frontend/src/pages/HomePage.tsx:101-115 | no request unless a classroom is chosen and the selection is non-empty; otherwise one request per selected slot, in order, each for the chosen classroom with the typed name and purpose and the slot's date and label |
| HomePage.CreatedRecords | frontend/src/pages/HomePage.tsx:136-138 | the joined results are the created records, one per request and in request order |
| HomePage.SubmitResults | frontend/src/pages/HomePage.tsx:135-146 | no change unless requests were sent and every one succeeded; then the created records are appended after the old list in slot order, the selection is emptied, the dialog is closed, and nothing else changes |
| HomePage.Step | frontend/src/pages/HomePage.tsx:58-95 | choosing a classroom sets the id and empties the selection and nothing else; a date change sets only the date; a toggle changes only the selection, by symmetric difference; clearing empties only the selection; closing shuts only the dialog; no transition introduces a duplicate slot |
| HomePage.OutcomeOf | frontend/src/pages/HomePage.tsx:124-131 | a creation settles as created iff the response is ok with a record body, and then it carries that record |
| HomePage.OneSlotBookingAccepted | frontend/src/pages/HomePage.tsx:97-146 | a one-slot booking the server accepts appends exactly the record the server stored, empties the selection and closes the dialog |
| HomePage.RequestAccepted | backend/src/app.ts:51-70 | a request the page builds with every field non-empty and a parseable date is stored by a working server as one record with the request's classroom, slot label and parsed date, which the page reads as created |
| HomePage.AllSlotsBookingAccepted | frontend/src/pages/HomePage.tsx:97-146 | when every request is complete, every date parses and the store is up, the page appends exactly the records the server stored, one per slot in selection order, each with the chosen classroom, the slot label and the parsed date; the selection is emptied and the dialog closed |
| HomePage.EmptyNameChangesNothing | frontend/src/pages/HomePage.tsx:135-146 | with an empty name the server refuses every slot, so the submission leaves the page unchanged |
| HomePage.RunKeepsInvariant | frontend/src/pages/HomePage.tsx:58-95 | every run of well-formed actions from a state whose selection has no duplicate (date, slot) pairs keeps it so |
| HomePage.RunFromInitialKeepsInvariant | frontend/src/pages/HomePage.tsx:12-17 | the page as mounted has a duplicate-free selection, and every well-formed run from it keeps it so |

## Left out

- React rendering, effects scheduling and routing are left out. `fetchData` runs on mount and again whenever the chosen id changes; the model has a `Load` action instead of that trigger.
- The `ClassroomList`, `ScheduleCalendar`, `BookingModal` and `Header` components are not modelled. The model keeps only the state they read and the events they raise.
- HTTP, CORS, JSON parsing, `fetch`, `alert` and console output are left out. A request is an input value and a response is a `(status, body)` value. JSON fields are modelled as strings that may be absent; non-string JSON values are not modelled.
- `Promise.all` is a given sequence of settled outcomes in request order. Completion order does not affect the result.
- No rollback happens when one request fails and others succeed. The records the server stored for the successful requests stay on the server; the model states only what the page does.
- A user's actions while a submission or a load is in flight are not modelled. Each transition is applied atomically.
- bcrypt and jsonwebtoken internals are left out. Hashing, comparison and verification are parameters, and a token has no signature or issue time.
- Environment variables are left out, and the model assumes the signing secret is set. Nothing on the server's start path checks that it is: `index.ts` loads only the app and its routes, and the startup check on the secret sits in `passport.setup.ts`, which that path does not import.
- AuthRoutes.Register: with the signing secret unset, the handler stores the user and then fails to sign, so it answers 500 with the new user already in the table. The contract's "the table changes only on 201" holds only with the secret set, as the model assumes.
- The `Date.now()` stamp in the Google password marker is an opaque string parameter.
- Calendar parsing is left out. `new Date(...)` and `toISOString` are parameters. A page date with an invalid instant (NaN never equals itself) is not modelled, because dates are integers.
- The Prisma schema is not part of this model: neither the column types, nor `createdAt`, nor any uniqueness constraint on reservations. Identities are any strings not yet taken.
- AuthRoutes.Register: the 201 body omits the other user columns (such as `createdAt`), because the table's column set is not modelled. The 500 body's `error` field holds the exception's text, which is not modelled.
- Emails are compared exactly; the database collation is not modelled.
- Tokens.DurationSeconds: only the digits-then-one-unit-letter form that the routes use is modelled. The signing library's wider duration grammar (decimals, long unit names, spaces, bare numbers) is not.
- URL decoding of the callback page's query string is left out. The query is given already split into (name, value) pairs.
- The Google redirect routes (`/api/auth/google`, `/api/auth/google/callback`) are not modelled. The model starts from the profile they hand to the verify callback and ends at the page that reads the token from the query.
- `backend/prisma/seed.ts` is left out. Its seed data equals the classroom fixture, which is modelled.
- Server startup (`index.ts`) and the jest configuration are left out.
- Test expectations that no longer match the handlers are not encoded: the profile fields expected from `/me`, and the record counts that assume the old in-memory store.
