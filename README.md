# User management Lambda, modelled in Dafny

This project models the AWS Lambda that manages users of the `projectf4c40734` Amplify
backend (`amplify/backend/function/projectf4c40734/src/index.js`). The Lambda has four parts:

- `add_user` validates a name and an email, refuses an email that is already taken,
  normalises the record and stores it with a put conditioned on `attribute_not_exists(id)`;
- `get_user` reads a record by id;
- `get_user_by_email` reads a record by its lower-cased, trimmed email;
- the handler answers a CORS pre-flight, rejects a missing or unknown action, dispatches
  the two actions and maps every outcome to a status code and a `{ success, data | error }` body.

Modules, in dependency order:

- `Wrappers` holds `Option` and `Result`.
- `JsString` holds JavaScript truthiness of a possibly absent string, `trim` and `toLowerCase`.
- `EmailFormat` decides the address regex `^[^\s@]+@[^\s@]+\.[^\s@]+$`. The decision is proved
  equal to the regex's language in both directions.
- `UserIds` builds `user_<Date.now()>_<8 hex digits>` ids, parses them back and proves the ids injective.
- `Users` holds the stored record, the request payload and the normalisation `add_user` applies.
- `UserStore` is the DynamoDB table: a class whose `items` map is keyed by id. It keeps a log of
  the get and put requests sent to it.
- `UserService` holds the operations. Each dispatched operation is a specification function
  (result, requests sent, items afterwards), with a method on the table proved to match it.
- `Handler` holds `exports.handler`.

The table, the clock and `crypto.randomBytes` are outside the model's reach, so they come in
as parameters. `Env` carries a millisecond clock reading, an ISO timestamp string and four
random bytes. It also says whether the table's get or put request fails in this invocation,
and with which message. An SDK error is modelled as that message.

Three behaviours of the code are easy to misread; the model follows the code:

- An error thrown by `add_user` or `get_user` (missing fields, bad email, duplicate email,
  missing id) is raised inside the handler's `try`, so the handler answers 500, not 400.
  Only a missing or unknown action gives 400 (`Handler.HandleSpec`, `Handler.ValidationErrorIsServerError`).
- A name made only of white space passes the presence check and is stored as the empty
  string (`Users.BlankNameIsStoredEmpty`).
- The duplicate check looks the normalised email up with `GetCommand` and
  `Key: { email }` on a table whose items are stored under `id`. The model gives that
  request the meaning the code evidently relies on: "some item has this email" (`UserStore.UserTable.GetByEmail`).

## Model

| member | source | states |
|---|---|---|
| JsString.TrimStartSpec | amplify/backend/function/projectf4c40734/src/index.js:32 | removing leading white space leaves a suffix that does not start with white space, and everything removed is white space |
| JsString.TrimEndSpec | amplify/backend/function/projectf4c40734/src/index.js:32 | removing trailing white space leaves a prefix that does not end with white space, and everything removed is white space |
| JsString.TrimSpec | amplify/backend/function/projectf4c40734/src/index.js:32-34 | `trim` gives a trimmed infix of the input whose two cut-off margins are all white space |
| JsString.TrimIdempotent | amplify/backend/function/projectf4c40734/src/index.js:32-34 | trimming twice equals trimming once |
| JsString.TrimEmptyIffAllWhitespace | amplify/backend/function/projectf4c40734/src/index.js:34 | `trim` gives the empty string exactly when the input is all white space |
| JsString.TrimLowerCommute | amplify/backend/function/projectf4c40734/src/index.js:33 | `toLowerCase` and `trim` commute, so the order in `email.toLowerCase().trim()` does not matter |
| JsString.ToLowerIdempotent | amplify/backend/function/projectf4c40734/src/index.js:33 | lower-casing twice equals lower-casing once |
| EmailFormat.IsEmailIffMatchesPattern | amplify/backend/function/projectf4c40734/src/index.js:20-21 | the email check accepts a string exactly when it is local part, `@`, host, `.` and top-level part, each a non-empty run without white space or `@` |
| EmailFormat.EmailHasNoWhitespace | amplify/backend/function/projectf4c40734/src/index.js:20-21 | an accepted email has no white space, so trimming it changes nothing |
| EmailFormat.RejectsAddressWithoutAt | amplify/backend/function/projectf4c40734/src/__tests__/userManagement.test.js:73-80 | `invalid-email-format` is refused |
| EmailFormat.ToLowerKeepsEmail | amplify/backend/function/projectf4c40734/src/index.js:20-21 | lower-casing an accepted email gives an accepted email |
| UserIds.DecimalString | amplify/backend/function/projectf4c40734/src/index.js:12 | the decimal rendering of `Date.now()` is a non-empty digit string without a leading zero |
| UserIds.DecimalRoundTrip | amplify/backend/function/projectf4c40734/src/index.js:12 | reading the decimal rendering back gives the number |
| UserIds.HexString | amplify/backend/function/projectf4c40734/src/index.js:12 | `toString('hex')` gives two lower-case hex digits per byte |
| UserIds.HexRoundTrip | amplify/backend/function/projectf4c40734/src/index.js:12 | decoding the hex rendering gives the bytes back |
| UserIds.GenerateUserId | amplify/backend/function/projectf4c40734/src/index.js:11-13 | every generated id matches `^user_\d+_[a-f0-9]{8}$` |
| UserIds.ParseGeneratedUserId | amplify/backend/function/projectf4c40734/src/index.js:11-13 | parsing a generated id recovers the clock reading and the four random bytes |
| UserIds.GenerateUserIdInjective | amplify/backend/function/projectf4c40734/src/index.js:11-13 | two invocations get the same id only with the same clock reading and the same random bytes |
| Users.NormalizePhoneSpec | amplify/backend/function/projectf4c40734/src/index.js:34 | the stored phone is `null` exactly when the input phone is absent or blank, and is otherwise the trimmed, non-empty input |
| Users.NormalizeEmailIdempotent | amplify/backend/function/projectf4c40734/src/index.js:33 | normalising a normalised email changes nothing |
| Users.NormalizeValidEmail | amplify/backend/function/projectf4c40734/src/index.js:20-33 | an accepted email normalises to its lower-case form, which is still accepted |
| Users.NewUserIsNormalized | amplify/backend/function/projectf4c40734/src/index.js:30-37 | a record built from accepted input has a generated-shape id, a trimmed name, an accepted normalised email, a trimmed non-empty phone or `null`, and `createdAt == updatedAt` (which holds because one instant is supplied for both `new Date()` calls) |
| Users.BlankNameIsStoredEmpty | amplify/backend/function/projectf4c40734/src/index.js:16-32 | every non-empty name made only of white space passes the presence check (with any non-empty email) and is stored as the empty string |
| UserStore.UserTable.constructor | amplify/backend/function/projectf4c40734/src/index.js:9 | a table named `UserTable` holding the given id-keyed items, with no requests sent yet; every request it logs carries that name |
| UserStore.UserTable.GetById | amplify/backend/function/projectf4c40734/src/index.js:54-59 | one get by id, under the table's name, is logged; the SDK error is returned, or else the item stored under the id, if any |
| UserStore.UserTable.GetByEmail | amplify/backend/function/projectf4c40734/src/index.js:73-79 | one get by email, under the table's name, is logged; the SDK error is returned, or else a record exactly when some item has that email, and then an item with that email |
| UserStore.UserTable.PutIfIdAbsent | amplify/backend/function/projectf4c40734/src/index.js:39-45 | one put, under the table's name, is logged; it fails with the SDK error, or with the condition error when the id is present, and otherwise inserts the item; the table stays keyed by id |
| UserService.AddUserSpec | amplify/backend/function/projectf4c40734/src/index.js:15-47 | a failed `add_user` leaves the items unchanged; a successful one adds exactly the returned record, under an id that was absent |
| UserService.AddUserRequiresNameAndEmail | amplify/backend/function/projectf4c40734/src/index.js:16-18 | a missing data object, name or email fails with `Name and email are required`, before any request |
| UserService.AddUserRejectsInvalidEmail | amplify/backend/function/projectf4c40734/src/index.js:20-23 | an email the pattern refuses fails with `Invalid email format`, before any request |
| UserService.AddUserValidatesBeforeAccess | amplify/backend/function/projectf4c40734/src/index.js:16-25 | no request is sent exactly when validation fails; otherwise the first request looks up the normalised email |
| UserService.AddUserPropagatesReadFailure | amplify/backend/function/projectf4c40734/src/index.js:25-28 | a failing email lookup fails `add_user` with that error, after that one request |
| UserService.AddUserRejectsTakenEmail | amplify/backend/function/projectf4c40734/src/index.js:25-28 | when an item already has the normalised email, `add_user` fails with `User with this email already exists`, after that one request |
| UserService.AddUserWritesOnce | amplify/backend/function/projectf4c40734/src/index.js:39-46 | past the duplicate check the lookup and exactly one conditional put, of the record built from the input under the generated id, are sent, both to the table `UserTable`; its SDK error or the condition error is the result |
| UserService.AddUserSucceedsIff | amplify/backend/function/projectf4c40734/src/index.js:15-47 | `add_user` succeeds exactly when validation passes, neither request fails, the email is free and the generated id is absent |
| UserService.AddUserStoresRecord | amplify/backend/function/projectf4c40734/src/index.js:39-46 | a success sends the lookup and one put of the returned record, and the table grows by one |
| UserService.AddUserRecord | amplify/backend/function/projectf4c40734/src/index.js:30-37 | the returned record has the generated id, the trimmed name, the lower-cased email, the normalised phone and both timestamps equal to the one instant the invocation is given for both `new Date()` calls |
| UserService.AddUserRecordIsNormalized | amplify/backend/function/projectf4c40734/src/index.js:30-37 | the returned record satisfies every normalisation invariant, the timestamp equality resting on the single supplied instant |
| UserService.AddUserSuccessIsNewUser | amplify/backend/function/projectf4c40734/src/index.js:30-37 | a success means the input passed validation and the record is the one built from it |
| UserService.AddUserKeepsInvariants | amplify/backend/function/projectf4c40734/src/index.js:25-45 | `add_user` keeps the items keyed by id and keeps emails unique |
| UserService.GetUserSpec | amplify/backend/function/projectf4c40734/src/index.js:49-66 | `get_user` never changes the items. A falsy id fails with `User ID is required` and sends nothing. Otherwise one get by id is sent to the table `UserTable` and its error propagates. A record is returned exactly when one is stored under the id, and it is that record |
| UserService.GetUserByEmail | amplify/backend/function/projectf4c40734/src/index.js:68-80 | a falsy email gives `null` without a request. Otherwise one get under the lower-cased, trimmed email is sent and its error propagates. A record is returned exactly when some item has the normalised email, and it is such an item |
| UserService.AddUser | amplify/backend/function/projectf4c40734/src/index.js:15-47 | the method's result, request log and new items are those `AddUserSpec` gives, and the table stays keyed by id |
| UserService.GetUser | amplify/backend/function/projectf4c40734/src/index.js:49-66 | the method's result and request log are those `GetUserSpec` gives |
| UserService.SecondAddWithSameEmailFails | amplify/backend/function/projectf4c40734/src/index.js:25-28 | after a successful `add_user`, a valid second one whose email normalises to the same key fails with `User with this email already exists` |
| UserService.CreatedUserIsFound | amplify/backend/function/projectf4c40734/src/index.js:45-65 | `get_user` with the id `add_user` returned gives back the created record |
| Handler.HandleSpec | amplify/backend/function/projectf4c40734/src/index.js:82-165 | the status is 200, 400 or 500. OPTIONS answers `CORS preflight` with no request. A falsy action gives 400 `Action is required`. Any other action except `add_user` and `get_user` gives 400 `Unknown action: <action>`. A dispatched call gives 200 with its value exactly when it succeeds, and otherwise 500 with its message, or `Internal server error` when that is empty. A 400 sends nothing, and a failure body never comes with changed items |
| Handler.Handle | amplify/backend/function/projectf4c40734/src/index.js:82-165 | the method's response, request log and new items are those `HandleSpec` gives, and the table stays keyed by id |
| Handler.ValidationErrorIsServerError | amplify/backend/function/projectf4c40734/src/index.js:126-163 | an `add_user` request without name or email is answered 500 `Name and email are required`, with no request sent |
| Handler.AddUserAnswersWithRecord | amplify/backend/function/projectf4c40734/src/index.js:126-148 | any non-preflight `add_user` request whose call succeeds, whatever its `httpMethod` and `userId`, is answered 200 with the new record |
| Handler.GetUserRequestAnswers | amplify/backend/function/projectf4c40734/src/index.js:128-148 | any non-preflight `get_user` request with a truthy `userId` and a working table, whatever its `httpMethod` and `data`, is answered 200 with the stored record or `null`, after one get by id and with the items unchanged |
| Handler.AddUserRequestSucceeds | amplify/backend/function/projectf4c40734/src/index.js:126-148 | every non-preflight `add_user` request whose data passes validation, whatever its `httpMethod` and `userId`, against a table that has neither the normalised email nor the new id and where neither request fails, is answered 200 with a record whose id has the generated shape and whose email is the normalised input |
| Handler.ExampleAddUserRequestSucceeds | amplify/backend/function/projectf4c40734/src/__tests__/userManagement.test.js:187-205 | the test's request `{ name: "Macron", email: "macron.macaron@brigitte.com" }` against a table without that email or the new id is answered 200 with a record whose id has the generated shape and whose email is the input |

## Left out

- The DynamoDB client, its region and the `STORAGE_USERTABLE_NAME` variable are not modelled. The table is in-memory and always carries the default name `UserTable`, which every logged request names.
- What a request to the table returns is decided by the model, and its failures come in through `Env`. Throttling, retries and partial failures are not modelled.
- Concurrency is not modelled. Two invocations racing between the email lookup and the put can store two records with the same email. The model runs one invocation at a time, so `EmailsUnique` holds only under that assumption.
- Reads are eventually consistent in DynamoDB but not in the model. The `GetCommand`s at index.js:54-57 and index.js:73-76 set no `ConsistentRead`, so a read may miss a put that has just finished, even when invocations run back to back. The in-memory `UserTable` makes every put visible to the next get. Three members hold only under that read-after-write assumption: `UserService.SecondAddWithSameEmailFails`, `UserService.CreatedUserIsFound` and the `EmailsUnique` half of `UserService.AddUserKeepsInvariants`. Against the real table, a second `add_user` could store a duplicate email, and `get_user` could return `null` for an id just created.
- `console.log` and `console.error` are not modelled: logging has no effect on results.
- The CORS headers of each response are left out. So is the JSON serialisation of the response body: `Response` holds the parsed body.
- Event parsing (`event.body` as a JSON string or an object, or the event itself) is left out, and so is the 500 a malformed JSON body would cause. `Request` holds the already parsed fields.
- `Date.now()`, `new Date().toISOString()` and `crypto.randomBytes(4)` are parameters. `add_user` calls `new Date()` twice; the model uses one instant for both `createdAt` and `updatedAt`.
- JavaScript strings are sequences of UTF-16 code units, while `string` here is a sequence of Unicode scalar values, so a lone surrogate cannot occur in the model. `trim` and `\s` are unaffected, since every white-space code point lies in the Basic Multilingual Plane.
- `JsString.ToLower` lower-cases ASCII letters only. JavaScript `toLowerCase` also lower-cases other Unicode letters, and some characters expand to two.
- Fields of the request are strings or absent, and `data` is a record or absent. A non-string `httpMethod`, `action`, `name`, `email`, `phone` or `userId` (a number, an object) is outside the model, and so are the type errors it would raise. So is a truthy non-object `data` such as `"x"`, which the code answers with `Name and email are required`, and a non-string `action` such as `5`, which it answers with 400 `Unknown action: 5`.
- `UserIds.DecimalString` writes every clock reading in plain decimal. JavaScript switches to exponent notation from 1e21 on, which `Date.now()` does not reach. The clock reading is a `nat`: a clock set before 1970 would give a negative `Date.now()` and an id `user_-…`, which does not match `\d+`. The id-shape property `UserIds.GenerateUserId` holds only for readings from 1970 on.
- `UserStore.UserTable.GetByEmail` treats `Key: { email }` as a lookup by an email attribute. On a table keyed by `id` alone, DynamoDB would reject that key. The model follows the behaviour the code and its tests rely on.
- `UserService.GetUserByEmail` states which items it may return, but not which one when several share an email. Under `EmailsUnique` there is at most one.
- The Amplify resource-attribute type map (`amplify/backend/types/amplify-dependent-resources-ref.d.ts`), which holds no logic, and the test set-up (`jest.setup.js`) are not part of this model.
