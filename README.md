# Account and story handlers of a Go blogging backend, modelled in Dafny

This project models the decision logic of a small Go HTTP backend for a
blogging and learning platform. The modelled parts are:

- **Validation and error formatting**, in module `AuthHelper` (`utils/auth_helper.go`).
  - `ValidateUserInput` accumulates one `UserValidationError` per empty required field.
  - `ErrorMessages` renders the errors as `field: message` items joined by `", "`.
- **The bearer-header gate**, in module `Authorization`. The same code appears in `GetUserProfile`, `AddStory` and `GetStory`.
  - An empty `Authorization` header is refused as a missing token.
  - A header that is empty after removing one leading, case-sensitive `"Bearer "` and trimming white space is refused as badly formatted.
  - Anything else goes to the token verifier, and the user id it returns is the caller's only identity.
- **The handlers**, in modules `AuthController` and `UserStoryController`: `CreateUser`, `LoginUser`, `GetUserProfile`, `AddStory` and `GetStory`.
  - Each is a chain of early returns that yields an HTTP status and a body.
  - The body is the JSON envelope `{status, message, data, token}`, the add-story acknowledgement, or a plain-text `http.Error`.
  - `GetStory` reads the story rows in a loop, skips NULL rows, and aborts on the first row that cannot be scanned or parsed.

Every library call a handler makes is a function-typed parameter that gives the call's result: bcrypt hashing and comparison, JWT signing and parsing, the SQL statements, file creation and copying, JSON decoding and encoding. The clock is a parameter too. This lets the contracts state *which* value reaches *which* call. Examples:

- the password is inserted only as its hash;
- the login token is issued for the id and email of the stored row;
- stories are stored and read under the verifier's user id.

Files: `wrappers.dfy` (Option, Result), `models.dfy` (records, response body, status codes), `auth_helper.dfy`, `authorization.dfy`, `auth_controller.dfy`, `user_story_controller.dfy`.

## Differences between the handlers

- Registration fails fast: it reports only the first missing field. Only login uses the accumulating validator.
- The three gate refusals carry three distinct messages.
- `GetUserProfile` sends the first two refusals as plain text. The story handlers send all three in the JSON envelope.

## Model

| member | source | states |
|---|---|---|
| `AuthHelper.ValidateUserInput` | utils/auth_helper.go:28-62 | The appended errors equal the declarative reference (one error per empty required field, in check order); any other input type yields exactly `[User: Invalid user type]`, whatever the flag |
| `AuthHelper.MissingFields` | utils/auth_helper.go:34-55 | At most one error per check; no error exactly when every checked value is non-empty |
| `AuthHelper.MissingFieldsAppend` | utils/auth_helper.go:34-47 | Checks made one after another report the first group's errors, then the second group's |
| `AuthHelper.RegisterChecks` | utils/auth_helper.go:32-47 | The register variant reports full_name, email, then password and profile_pic only when `isRegistration`, each only if empty |
| `AuthHelper.LoginValidation` | utils/auth_helper.go:48-55 | Login: no error iff email and password are both non-empty; both empty gives the email error before the password error; the flag has no effect; at most 2 errors |
| `AuthHelper.RegisterWithoutRegistration` | utils/auth_helper.go:34-40 | Register with `isRegistration == false`: only full_name and email are checked; an empty password or profile_pic changes nothing |
| `AuthHelper.RegisterDuringRegistration` | utils/auth_helper.go:34-47 | Register with `isRegistration == true`: each field's error is present iff that field is empty; at most 4 errors; the first error names the first empty field in the order full_name, email, password, profile_pic |
| `AuthHelper.ErrorMessages` | utils/auth_helper.go:71-77 | The result is the `field: message` renderings in input order joined by `", "`; no errors give `""`; one error gives its rendering alone |
| `AuthHelper.JoinLength` | utils/auth_helper.go:76 | n joined items have the items' total length plus n-1 separators |
| `AuthHelper.JoinLayout` | utils/auth_helper.go:73-76 | The k-th item sits at its offset in the joined string, with a separator right after every item but the last |
| `Authorization.TrimPrefix` | controllers/user_story_controller.go:26 | With the prefix present, prefix + result is the input; otherwise the input is unchanged (removal at most once) |
| `Authorization.TrimLeftSpace` | controllers/user_story_controller.go:26 | The result is a suffix of the input; everything dropped is white space; the result does not start with white space |
| `Authorization.TrimRightSpace` | controllers/user_story_controller.go:26 | The result is a prefix of the input; everything dropped is white space; the result does not end with white space |
| `Authorization.TrimSpaceWithin` | controllers/user_story_controller.go:26 | The trimmed string is the piece of the input that starts right after its leading white space, and everything after that piece is white space |
| `Authorization.TrimSpaceEmpty` | controllers/user_story_controller.go:26-27 | Trimming leaves nothing exactly when the string is all white space; a non-empty result has no white space at either end |
| `Authorization.ExtractToken` | controllers/user_story_controller.go:19-30 | Missing iff the header is empty; badly formatted iff non-empty and all white space after one `"Bearer "` is removed. Otherwise the token is exactly the text after that prefix with its surrounding white space cut off: it sits right after the leading white space, only white space follows it, and it neither starts nor ends with white space |
| `Authorization.Authorize` | controllers/user_story_controller.go:19-37 | The three refusals in gate order, each with its exact condition; on success the user id is exactly what the verifier returned for the extracted token |
| `Authorization.OrdinaryBearerHeader` | controllers/user_story_controller.go:79-86 | `"Bearer " + jwt` hands exactly `jwt` to the verifier, for every `jwt` that is non-empty and has no white space at either end |
| `Authorization.PrefixStrippedOnce` | controllers/user_story_controller.go:79 | `"Bearer Bearer x"` hands `"Bearer x"` to the verifier |
| `Authorization.PrefixCaseSensitive` | controllers/user_story_controller.go:79-83 | A header without the exact `"Bearer "` prefix that is not all white space is only trimmed and passed on, never refused as badly formatted |
| `Authorization.LowerCaseSchemeKept` | controllers/user_story_controller.go:79 | `"bearer abc"` is passed on whole |
| `Authorization.SchemeWithoutSpaceKept` | controllers/user_story_controller.go:79 | `"Bearer"` with no space is itself passed on as the token |
| `Authorization.PrefixAloneMalformed` | controllers/user_story_controller.go:79-83 | `"Bearer "` and `"Bearer  \t "` are refused as badly formatted |
| `AuthController.RespondWithError` | controllers/auth_controller.go:254-261 | Always an envelope with status false, the given code and message, empty data and no token |
| `AuthController.DigitsRoundTrip` | controllers/auth_controller.go:59 | The decimal rendering of a natural number reads back as that number |
| `AuthController.DecimalRoundTrip` | controllers/auth_controller.go:59 | The `%d` rendering of any integer, sign included, is non-empty and reads back as that integer |
| `AuthController.UploadPath` | controllers/auth_controller.go:59 | The saved file's path starts with `uploads/` and ends with `-` and the client's file name; the Unix time between them reads back as the clock value |
| `AuthController.CreateUser` | controllers/auth_controller.go:28-119 | Every response is an envelope whose status is true iff the code is 200; the codes are 200, 400, 409 and 500 only. Each early return has its own clause, giving its condition and its exact response: the four 400s, then the 500s for file creation, copying, hashing, the missing insert id and token issuance. When every step succeeds the response is 200. On 200: message `User registration successful`; data echoes the submitted full_name and email, the saved path and the id of the inserted row; the row holds the password's hash; the token was issued for that id and the submitted email |
| `AuthController.RegistrationReportsFirstMissingField` | controllers/auth_controller.go:38-55 | Fail-fast: a 400 is sent iff the accumulating validator would report an error, and it carries that validator's first message only |
| `AuthController.InsertFailureIsConflict` | controllers/auth_controller.go:84-89 | A 409 `Email ID already exists` is sent exactly when every earlier step succeeded and the INSERT failed, whatever the cause |
| `AuthController.LoginUser` | controllers/auth_controller.go:129-185 | Undecodable body: 400 `Invalid request payload`. Validation errors: 400 with exactly `ErrorMessages(errors)`. Unknown email or wrong password: 401 `Invalid email or password`, and nothing else is 401. Valid credentials give 200 when a token is issued, else 500 `Failed to generate token, please try again`. On 200: data comes from the stored row, with profile_pic `"/uploads/" +` the stored value, and the token was issued for the row's id and email |
| `AuthController.NoUserEnumeration` | controllers/auth_controller.go:145-157 | No account and wrong password give identical responses |
| `AuthController.InvalidLoginSkipsStore` | controllers/auth_controller.go:137-141 | A login missing email or password gets a 400 that no store, hash check or token issuer can influence |
| `AuthController.GetUserProfile` | controllers/auth_controller.go:190-236 | Empty header and bad format give plain-text 401s; verifier failure gives the JSON 401 `Invalid or expired token`; 404 `User not found` iff the lookup under the verified id fails; a found profile gives 200, carrying the profile of that id and no token |
| `AuthController.ProfileUsesVerifiedIdOnly` | controllers/auth_controller.go:208-226 | Two stores that agree on the verified id give the same response: only that id is looked up |
| `UserStoryController.AddStory` | controllers/user_story_controller.go:14-66 | A gate refusal gives its 401 envelope; an undecodable body after the gate gives 400; an encoding failure gives 500 `Failed to encode story`; a failed INSERT gives 500 `Failed to store story`; 200 iff the gate, decode and encode succeed and the INSERT under the verified id succeeds, and then the body is `{true, "Story added successfully"}`; every other response is an error envelope |
| `UserStoryController.AddStoryGateBeforeBody` | controllers/user_story_controller.go:19-44 | With the gate refusing, the response is a 401 that does not depend on the body, even a malformed one |
| `UserStoryController.AddStoryUsesVerifiedIdOnly` | controllers/user_story_controller.go:33-58 | Two stores that behave alike for the verified id give the same response: the story goes under that id only |
| `UserStoryController.ProtectedHandlersShareGate` | controllers/auth_controller.go:195-216 | The profile handler and AddStory refuse with 401 and the same messages. GetUserProfile differs only in writing the first two as plain text. Gate at user_story_controller.go:19-37 |
| `UserStoryController.CollectOkIff` | controllers/user_story_controller.go:101-117 | Reading all rows succeeds exactly when every row can be scanned and, unless NULL, parsed |
| `UserStoryController.CollectedList` | controllers/user_story_controller.go:108-116 | A successful read holds one story per non-NULL row, the parse of that row's text, in row order |
| `UserStoryController.CollectedStories` | controllers/user_story_controller.go:100-117 | Reading succeeds iff every row is readable; then the list is the non-NULL rows' parsed JSON in row order, NULL rows skipped |
| `UserStoryController.FirstFailureDecides` | controllers/user_story_controller.go:101-114 | A failed read is decided by the first unreadable row: all rows before it are readable, and its message is reported |
| `UserStoryController.FailureIsFinal` | controllers/user_story_controller.go:101-114 | Once a prefix of the rows fails, later rows do not change the outcome |
| `UserStoryController.ReadStories` | controllers/user_story_controller.go:100-117 | The row loop's result equals the reference: the parsed non-NULL rows, or the message of the first row that cannot be read (`Failed to read story` or `Failed to parse story data`) |
| `UserStoryController.GetStory` | controllers/user_story_controller.go:69-127 | Gate refusals give their 401 envelopes. A failed query gives 500 `Failed to retrieve stories`. Otherwise the loop's result equals the reference: 200 with the collected list, or 500 with the first failure's message and no partial list |

## Left out

- Password hashing, password comparison, token signing and token parsing are parameters.
  - Salt randomness is not modelled: the hash is a function of the password, and each request hashes once.
  - The HMAC-SHA256 signature, the algorithm check and the `exp` check are not modelled.
  - The 72-hour expiry claim is not modelled.
  - The `float64` conversion of `user_id` in ParseToken (utils/helper_methods.go:64) is not modelled.
- File upload is reduced to parameters.
  - `os.Create` is a parameter over the path and `io.Copy` is a boolean.
  - The 10 MB multipart limit and the ignored `ParseMultipartForm` error are not modelled.
  - A picture saved before a later failure stays on disk in the source; this is not modelled.
- JSON decoding and encoding are parameters.
  - Response rendering is not modelled: an empty story list is written as `null`, an empty token is omitted, and Content-Type headers are set.
  - `http.Error` also appends a newline and sets a text/plain type; neither is modelled.
- The database is a set of parameters.
  - Email uniqueness is the store's concern; the model only maps every INSERT failure to 409.
  - `Initialize` and the package-level `db` handle are not modelled.
  - `rows.Err()` is never checked after the loop in the source; the model takes the rows as the sequence `rows.Next` yields.
  - Go's `int(userId)` conversion from int64 is not modelled (integers are unbounded).
- Headers are strings of Unicode code points.
  - An absent header and an empty one are the same, as `Header.Get` makes them.
  - Invalid UTF-8 and the HTTP parser's own trimming are not modelled.
- GetUserProfile's else branch at controllers/auth_controller.go:213-216 is not modelled. It is unreachable: `ExtractToken`'s contract shows the token is never empty there.
- main.go, controllers/init_db_controller.go and routers/router.go are not part of this model: server start-up, CORS, the database connection and routing. The router registers only `/register` and `/status`, and `StatusHandler` is not part of this model.
- The AddStoryRequest and UserStoryAddSuccessModel records: their definitions are not modelled; their shapes come from their use (a `Story` field; `Status` and `Message` fields).
- NoUserEnumeration: covers the response only. An unknown email returns before the bcrypt comparison, so it is answered faster than a wrong password; response timing is not modelled.
- Concurrency across requests: the code has none of its own.
