# evntix core in Dafny

A model of the request-handling core of **evntix**, an event-ticketing
backend built on Express and TypeORM. It covers:

- event creation with its ticket prices;
- payment initialisation against the payment gateway;
- the account handlers: sign-up, sign-in, forgot / reset / update password;
- the bearer-token guard;
- the Google find-or-create service;
- the CRUD controller for tasks;
- the error classes and the global error handler;
- the request validators and the field rules of the user entity and the reset-password body.

Each database table is a `seq` of rows held in a class. Each handler is a
method that changes those fields. Its `ensures` state the new table and the
reply, either outright or through a specification function. The pure parts
are functions with lemmas: status classification, header parsing, the
password policy, the payment reference and the validators.

Modules, one per source file, plus shared helpers:

| module | file | models |
|---|---|---|
| `Wrappers` | wrappers.dfy | `Option`, `Result` |
| `Strings` | strings.dfy | `split`/`join` on one character, `startsWith`, decimal text and its parse |
| `Tables` | tables.dfy | `findOne` as the first matching row, deletion of one row |
| `Response` | response.dfy | src/utils/response.ts |
| `ErrorHandling` | error_handling.dfy | src/middleware/errorHandling.ts |
| `Validation` | validation.dfy | src/middleware/validation.ts |
| `UserEntity` | user_entity.dfy | src/user/user.entity.ts |
| `ResetPasswordDto` | reset_password_dto.dfy | src/user/dto/resetPassword.dto.ts |
| `Password` | password.dfy | src/utils/password.ts |
| `Guards` | guards.dfy | src/auth/guards.ts |
| `UserService` | user_service.dfy | src/user/user.service.ts |
| `Tasks` | tasks.dfy | src/controller/tasks.controller.ts |
| `EventService` | event_service.dfy | src/events/event.service.ts |
| `PaymentService` | payment_service.dfy | src/payments/payment.service.ts |
| `AuthController` | auth_controller.dfy | src/auth/auth.controller.ts |

Foreign code is taken as parameters or uninterpreted functions:

- bcrypt hash/compare and the SHA-256 hex digest are fields of a `Crypto` value;
- `jwt.verify` is a function returning the payload or nothing;
- the gateway call is a function from the payload to its outcome;
- `validateEntity` is the error it throws, if any;
- the mail call is the error it throws, if any;
- `Date.now()`, `Math.random()` and `crypto.randomBytes(32)` are inputs;
- `isEmail` and `isISO8601` are predicates.

Behaviour of the code that the model keeps, and that a reader may not expect:

- Event creation is not atomic. The event row is saved before the ticket
  loop runs. When the loop stops on a bad entry, the event and the tickets
  saved before it stay in their tables. The model keeps this partial write;
  it does not model an all-or-nothing save.
- Ticket entries are checked and saved only when more than one is supplied.
  A single entry is ignored, whatever its price.
- The saved event's status is always AVAILABLE.
- A capacity of 0 is falsy, so it is accepted. An unparsable date compares
  false with "now", so it is accepted too.
- The guard tests `startsWith('Bearer')`, not `'Bearer '`. The token is the
  second piece of a split on single spaces, so "Bearerish abc" yields "abc"
  and "Bearer  abc" yields nothing. An `iat` of 0 is falsy and is rejected
  as missing.
- `signupValidator` checks the body keys `firstName`/`secondName`, while
  `signUp` stores `first_name`/`second_name`. The two are modelled as
  written and are unrelated. `signUp` does not run the entity validation.
- Neither `resetPassword` nor `updatePassword` sets `passwordChangedAt`, so
  tokens issued before the change are still accepted by the guard
  (`AuthController.PasswordChangeKeepsTokens`).
- `forgotPassword` calls `notification.sendMail`. The notification service
  (src/notifications/notification.service.ts) defines only `sendEmail`, so
  as written that call throws and the reset fields are never saved. The
  model takes the mail outcome as a parameter. With an error it states
  exactly that: no row changes and the error is passed on.
- The tasks controller and the guard import `AppError` from
  src/shared/utils/response.ts, which is not part of this model. It is
  taken to be the `AppError` of src/utils/response.ts.
- express-validator runs every validator of a chain and reports each
  failure; there is no bail. `trim()` turns the value into a string, so
  'Title must be a string' is never reported.
- The password pattern's `.` does not match line terminators, so a
  password containing a line break fails the pattern.
- `AppError.status` is decided by the first character of the code's
  decimal text. So 4, 40–49, 400–499 and 4000–4999 are all 'failed'
  (`Response.AppErrorFailedRange`).

## Model

| member | source | states |
|---|---|---|
| Response.NewAppError | src/utils/response.ts:59-68 | keeps message and code, is operational; status is 'failed' exactly when the code is non-negative and its leading decimal digit is 4, else 'error' |
| Response.AppErrorFailedRange | src/utils/response.ts:63 | 'failed' holds exactly for codes in some range [4·10^k, 5·10^k) |
| Response.AppErrorStatusClasses | src/utils/response.ts:63 | every 4xx code gives 'failed'; every 5xx code and every negative code gives 'error' |
| Response.NewValidationError | src/utils/response.ts:70-75 | code 400, status 'fail', message kept |
| Response.NewDatabaseError | src/utils/response.ts:77-82 | code 500, status 'error', message kept |
| Response.SubclassesOverwriteStatus | src/utils/response.ts:70-82 | ValidationError overwrites 400's 'failed' with 'fail'; DatabaseError equals a plain 500 AppError |
| Response.Success | src/utils/response.ts:4-21 | status 'success'; defaults 200, 'Request successful', data null; given values win |
| Response.ErrorFieldOf | src/utils/response.ts:34 | null exactly for a falsy error; the error's `message` when that is a non-empty string; otherwise the error itself |
| Response.Error | src/utils/response.ts:23-36 | status 'error'; defaults 500 and 'An error occurred'; error field as ErrorFieldOf |
| Response.ValidationErrorBody | src/utils/response.ts:38-51 | status 'error'; defaults 400, 'Validation errors occurred', no errors |
| ErrorHandling.GlobalErrorHandler | src/middleware/errorHandling.ts:12-24 | an AppError keeps code, status and message; anything else becomes 500/'error'/generic message; HTTP status equals body code; stack present exactly in development |
| ErrorHandling.ForeignMessageNeverExposed | src/middleware/errorHandling.ts:12-15 | the reply to a non-AppError does not depend on its message |
| ErrorHandling.StackLinesRoundTrip | src/middleware/errorHandling.ts:21-23 | in development the stack lines joined by newlines give back the stack |
| Validation.ValidationResultEmpty | src/middleware/validation.ts:11-12 | no violations exactly when every chain of the rule set has none |
| Validation.ValidateRequest | src/middleware/validation.ts:6-20 | 400 'Validation failed' with all violations exactly when there is one; otherwise next |
| Validation.TaskTitleAccepted | src/middleware/validation.ts:23-29 | the title passes exactly when its text is non-empty; only 'Title is required' can be reported |
| Validation.TaskEnumsAccepted | src/middleware/validation.ts:42-55 | priority and status pass exactly when non-empty and in their enum values |
| Validation.LoginPasswordAccepted | src/middleware/validation.ts:65-70 | the login password passes exactly when it has at least 8 characters, with no upper bound |
| Validation.SignupPasswordAccepted | src/middleware/validation.ts:81-88 | the signup password passes exactly when it is a string of at least 8 characters; no character classes |
| Validation.SignupNameAccepted | src/middleware/validation.ts:90-110 | each signup name passes exactly when it is a string of 2 to 50 characters |
| Validation.MissingNameViolations | src/middleware/validation.ts:90-99 | a missing first name gives exactly the required, not-a-string and too-short violations, in order |
| UserEntity.NewUser | src/user/user.entity.ts:63-80 | a new row defaults to REGULAR_USER, active, no Google id and no reset or change timestamps |
| UserEntity.PasswordPatternMeaning | src/user/user.entity.ts:57-60 | the pattern holds exactly for one-line text with an uppercase letter, a listed special character and a digit |
| UserEntity.PasswordValidMeaning | src/user/user.entity.ts:52-61 | a valid password is present, 8 to 50 characters, one line, with the three classes |
| UserEntity.MultiLinePasswordRejected | src/user/user.entity.ts:57 | any text containing a line break fails the pattern |
| UserEntity.PasswordAcceptedExample | src/user/user.entity.ts:52-61 | "Passw0rd!" satisfies every password constraint |
| UserEntity.NoUppercaseRejected | src/user/user.entity.ts:57-60 | a password without A–Z is invalid |
| ResetPasswordDto.PasswordAcceptedMeaning | src/user/dto/resetPassword.dto.ts:10-17 | accepted exactly when non-empty, 8 to 50 characters, one line, with an uppercase letter, a digit and a listed special character |
| ResetPasswordDto.SameRuleAsEntity | src/user/dto/resetPassword.dto.ts:10-17 | the body accepts exactly the passwords the user entity accepts |
| ResetPasswordDto.NoLowercaseNeeded | src/user/dto/resetPassword.dto.ts:14-17 | "ABCDEF1!" is accepted: lowercase letters are not required |
| ResetPasswordDto.LengthBounds | src/user/dto/resetPassword.dto.ts:12-13 | fewer than 8 or more than 50 characters is rejected |
| Password.ChangedPasswordAfter | src/utils/password.ts:19-29 | false without a change time; otherwise true exactly when iat < changedAt/1000 over the reals |
| Password.ChangedPasswordAfterMonotone | src/utils/password.ts:26 | false for iat t implies false for every later iat |
| Password.IssuedAtChangeSecond | src/utils/password.ts:25-26 | an iat equal to the change second is not rejected; one second earlier is |
| Password.Hex | src/utils/password.ts:34 | two lowercase hex digits per byte |
| Password.UnhexHex | src/utils/password.ts:34 | decoding the hex text gives back the bytes |
| Password.PasswordResetToken | src/utils/password.ts:31-43 | returns 64 hex characters that decode to the random bytes; stores only their SHA-256 digest; expiry is now + 600 000 ms; no other field changes |
| Guards.BearerToken | src/auth/guards.ts:20-22 | a token only for a header starting with "Bearer"; it is non-empty and has no space |
| Guards.BearerTokenExtracted | src/auth/guards.ts:20-22 | scheme starting with "Bearer", one space, a token: that token, whatever follows the next space |
| Guards.StandardHeader | src/auth/guards.ts:20-22 | "Bearer abc" yields "abc" |
| Guards.NoSpaceNoToken | src/auth/guards.ts:20-26 | a header without a space yields no token |
| Guards.DoubleSpaceNoToken | src/auth/guards.ts:20-26 | "Bearer  abc" yields no token |
| Guards.OtherSchemeNoToken | src/auth/guards.ts:20-26 | a header not starting with "Bearer" yields no token |
| Guards.FindUser | src/auth/guards.ts:32 | the found user is in the table with the id; none exactly when no row has it |
| Guards.Authenticate | src/auth/guards.ts:19-57 | every rejection is a 401; the request is admitted with the found user exactly when the token verifies, a user with that id exists, the iat is present and non-zero and the password was not changed after it |
| Guards.GuardCheckOrder | src/auth/guards.ts:24-51 | the first failing check decides the error: no token gives not-logged-in, a failed verify invalid-token, a missing user user-gone, an absent or zero iat the missing-iat error, a later password change the password-changed error |
| Guards.OlderTokenRejected | src/auth/guards.ts:44-51 | a verified token issued before its user's password change is rejected with the password-changed error |
| Guards.JwtAuthGuard | src/auth/guards.ts:14-58 | next gets the error exactly when the decision rejects, leaving req.user; otherwise req.user is the admitted user |
| UserService.Merged | src/user/user.service.ts:18-21 | the created row takes each supplied detail, and the queried Google id unless the details carry one |
| UserService.FindOrCreateSpec | src/user/user.service.ts:12-25 | an existing Google id returns its row with the table unchanged; otherwise exactly one merged row is appended and returned |
| UserService.FindOrCreateIdempotent | src/user/user.service.ts:12-25 | a second call with the same Google id changes nothing and returns the same row; an absent id ends up on exactly one row |
| UserService.OverriddenGoogleIdNotIdempotent | src/user/user.service.ts:18-21 | when the details carry another Google id, two identical calls add two rows |
| UserService.UserService.FindOrCreate | src/user/user.service.ts:12-26 | table, next id and result are those of FindOrCreateSpec; ids stay distinct |
| UserService.UserService.FindById | src/user/user.service.ts:28-30 | the row with the id, or none exactly when no row has it |
| Tasks.Patched | src/controller/tasks.controller.ts:74-77 | each column the body sets takes the new value; the others are kept |
| Tasks.SortByDate | src/controller/tasks.controller.ts:17-19 | sorted by date ascending and a permutation of the table |
| Tasks.UpdateCanRepeatTitle | src/controller/tasks.controller.ts:74-81 | an update can give two rows the same title |
| Tasks.RemoveKeepsTitlesUnique | src/controller/tasks.controller.ts:105 | deleting a row keeps titles unique |
| Tasks.TasksController.GetAllTasks | src/controller/tasks.controller.ts:17-21 | status 200 with every task, sorted by date ascending |
| Tasks.TasksController.CreateTask | src/controller/tasks.controller.ts:37-60 | an existing title gives 400 and no change; otherwise one row with the given fields and a 201; title uniqueness is preserved |
| Tasks.TasksController.UpdateTask | src/controller/tasks.controller.ts:74-91 | an empty body throws the update-values error; an unknown id gives 400 and no change; otherwise only that row is patched and returned with 200 |
| Tasks.TasksController.DeleteTask | src/controller/tasks.controller.ts:105-115 | an unknown id gives 400; otherwise exactly that row is removed and the reply's task is null |
| Tasks.TasksController.GetTaskById | src/controller/tasks.controller.ts:130-137 | 200 with the row exactly when the id exists; 400, not 404, otherwise |
| EventService.WrapError | src/events/event.service.ts:101-109 | an AppError passes through; anything else becomes the generic 500 |
| EventService.PreSaveRejection | src/events/event.service.ts:24-63 | the first failing pre-save check decides the error, in the order title, date, capacity, image, entity validation (wrapped by the catch); none fires exactly when all pass |
| EventService.CapacityRule | src/events/event.service.ts:40-42 | capacity absent or 0 passes; a capacity is rejected exactly when negative |
| EventService.ImageSizeBoundary | src/events/event.service.ts:45-50 | 3 MiB passes, one byte more is rejected |
| EventService.SavedEvent | src/events/event.service.ts:53-60 | the saved event has status AVAILABLE and the caller's other fields; the capacity, which has no column, is not stored |
| EventService.FirstRejected | src/events/event.service.ts:72-88 | the first entry, in list order, with a negative price or a type occurring more than once |
| EventService.TicketRowsMeaning | src/events/event.service.ts:90-96 | each saved ticket row carries its entry's fields, the saved event's id and the next id of the table (entries carry no `id` key) |
| EventService.SavedEntriesAreClean | src/events/event.service.ts:72-88 | every saved entry has a non-negative or absent price and a type that occurs exactly once |
| EventService.RepeatedTypeStopsEarly | src/events/event.service.ts:79-88 | a repeated type stops the loop at or before its first occurrence |
| EventService.CleanListSavedWhole | src/events/event.service.ts:72-97 | distinct types and no negative price: every entry is saved |
| EventService.EventService.SaveTickets | src/events/event.service.ts:72-97 | appends the rows of the entries before the first rejected one (entries without an `id` key), linked to the event, and returns that entry's error; every ticket still references an event |
| EventService.EventService.CreateEvent | src/events/event.service.ts:16-110 | a pre-save rejection changes nothing; otherwise the event is appended; with more than one entry the loop's rows are appended and its error returned, else tickets are unchanged |
| PaymentService.GatewayError | src/payments/payment.service.ts:104-109 | a 502 with the gateway's message when non-empty, else 'Paystack API Error' |
| PaymentService.Amount | src/payments/payment.service.ts:55 | a multiple of 100; zero exactly when the price is absent or zero |
| PaymentService.AmountRoundTrip | src/payments/payment.service.ts:55 | the amount divided by 100 is the price |
| PaymentService.RandomSuffix | src/payments/payment.service.ts:57 | the floor of draw × 1000, below 1000 |
| PaymentService.ReferenceRoundTrip | src/payments/payment.service.ts:57 | the reference parses back to its time and number |
| PaymentService.ReferenceInjective | src/payments/payment.service.ts:57 | different (time, number) pairs give different references |
| PaymentService.Payload | src/payments/payment.service.ts:59-70 | the user's email, the amount, NGN, the reference and the three ids |
| PaymentService.PendingPayment | src/payments/payment.service.ts:87-99 | status and webhook status PENDING, 0 retries, NGN, payer email; amount and reference as sent; the returned URL |
| PaymentService.AfterGateway | src/payments/payment.service.ts:83-113 | saved exactly on a successful reply with a URL, and the saved URL is the reply's; an HTTP error gives the 502 built from its message; otherwise the generic 500; only a falsy status passes the initialisation error to next |
| PaymentService.SavedOnlyOnSuccess | src/payments/payment.service.ts:83-100 | no outcome but a successful reply lets a row be saved |
| PaymentService.PaymentService.InitializePayment | src/payments/payment.service.ts:25-115 | 404s in the order user, event, ticket with no gateway call and no row; otherwise the payload is sent, and one PENDING row is appended only on success |
| AuthController.TokenReply | src/auth/jwt.strategy.ts:39-48 | the reply carries the status, the message and the user without its password |
| AuthController.ResetUrl | src/auth/auth.controller.ts:128 | the mailed link ends with the raw token |
| AuthController.ResetExpiryCounterexample | src/auth/auth.controller.ts:158-163 | a token presented 1 ms after minting fails the lookup as written and passes the intended one |
| AuthController.AsWrittenAcceptsOnlyAtExpiry | src/auth/auth.controller.ts:158-163 | as written, a minted token matches only at the instant it expires |
| AuthController.MintedTokenRedeemable | src/auth/auth.controller.ts:158-163 | with the intended lookup, the mailed token matches exactly during the ten minutes after minting |
| AuthController.PasswordChangeKeepsTokens | src/auth/auth.controller.ts:171-174 | replacing a user's password and reset fields leaves the guard's verdict on every token unchanged |
| AuthController.AuthController.SignUp | src/auth/auth.controller.ts:30-52 | a taken email gives 400 and no change; otherwise one row with the bcrypt hash and a 201; emails stay unique |
| AuthController.AuthController.SignIn | src/auth/auth.controller.ts:71-97 | 404, then 400 for a missing email, 400 for a missing hash, 400 for a wrong password, else 200; success exactly when the first row with the email has a matching hash |
| AuthController.AuthController.ForgotPassword | src/auth/auth.controller.ts:114-140 | 400 for a missing email, 404 for an unknown one; the mailed link carries the minted token; the reset fields are saved only when the mail call returns |
| AuthController.ResetRowAsWritten | src/auth/auth.controller.ts:171-174 | as written, the stored row changes only in its password hash; the reset digest and expiry stay |
| AuthController.ResetTokenReusableAsWritten | src/auth/auth.controller.ts:171-174 | as written, a row a token has just reset still matches that token |
| AuthController.ResetRow | src/auth/auth.controller.ts:171-174 | the intended stored row: the new hash, both reset fields cleared, nothing else changed |
| AuthController.ResetTokenSpent | src/auth/auth.controller.ts:171-174 | no token matches a row whose reset fields were cleared, under either lookup |
| AuthController.AuthController.ResetPassword | src/auth/auth.controller.ts:153-180 | no row with the token's digest and an unexpired expiry gives 400 and no change; otherwise that row becomes `ResetRow` of it with the new hash, and a 201 |
| AuthController.AuthController.UpdatePassword | src/auth/auth.controller.ts:197-232 | 400 unknown id, 400 no current password, 400 no stored hash, 401 wrong password, each with no change; otherwise only the password hash changes |

## Findings

| source | as written | input that shows it | evidently intended | confidence | as-written member | corrected member |
|---|---|---|---|---|---|---|
| src/auth/auth.controller.ts:158-163 | the reset lookup requires `passwordResetExpires` to equal `new Date()` | a token minted at t and presented at t + 1 ms, inside its ten-minute window, finds no row | the stored expiry is later than now | high; not executed | AuthController.ResetExpiryCounterexample | AuthController.AuthController.ResetPassword |
| src/auth/auth.controller.ts:171-174 | the reset fields are set to `undefined` before `save`, and TypeORM's `save` skips undefined properties, so the stored digest and expiry stay | a reset with token T succeeds; the same T, presented again before expiry, matches the row again | the reset fields are cleared in the table, so a token resets the password once | medium; not executed | AuthController.ResetTokenReusableAsWritten | AuthController.ResetTokenSpent |

As written, a token opens the reset only at the millisecond it expires
(`AuthController.AsWrittenAcceptsOnlyAtExpiry`, over
`AuthController.ResetMatchesAsWritten`). `ResetPassword` uses the intended
lookup `AuthController.ResetMatches`, under which the mailed token works
exactly for ten minutes (`AuthController.MintedTokenRedeemable`).

As written, `resetPassword` stores only the new hash
(`AuthController.ResetRowAsWritten`), so the row still matches the token it
was just reset with (`AuthController.ResetTokenReusableAsWritten`).
`ResetPassword` stores `AuthController.ResetRow`, which clears both fields,
so no token matches that row any more (`AuthController.ResetTokenSpent`).
The reply is the same either way: the in-memory user has both fields unset.

## Left out

- Database failures: a `find`, `save`, `update` or `delete` that throws is not modelled. Every repository call succeeds.
- TypeORM's handling of `where` with an undefined value, which matches any row: ids, emails and titles are always given.
- Generated uuids are modelled as a per-table counter of natural numbers. Timestamps (`created_At`, `updated_At`) are not modelled.
- Entity objects loaded and then changed in place are modelled as updated values written back to the table; aliasing between them is not modelled.
- Cookies, JWT signing and response I/O of `createToken` are not modelled; only the reply body it sends is (`AuthController.TokenReply`).
- `console.log` / `console.error` calls are not modelled.
- bcrypt's random salt: `Crypto.bcryptHash` is a deterministic function.
- Handler bodies with a missing or non-string field that makes bcrypt throw are not modelled: the password arguments are strings.
- Request bodies holding arrays or nested objects: a body value is missing, a string, or other text.
- PaymentService.Amount: ticket prices are integers, so `price * 100` is exact; floating-point rounding and the decimal(5,2) column are not modelled.
- PaymentService.PaymentService.InitializePayment: the request headers, the secret key and the callback URL's configuration are not modelled; the callback URL is a parameter. A gateway reply without an authorization URL is modelled as the generic 500, standing for the failed save of a NOT NULL column.
- EventService.EventService.CreateEvent: `validateEntity` and class-transformer are not modelled; their outcome is an input. The event status values come from src/enums/enum.ts, which is not part of this model.
- EventService.EventService.SaveTickets: a ticket entry is its type, price and day. An `id` key in an entry, which `create({...price, ...})` would copy so that `save` updates that existing ticket row (possibly another event's) instead of appending one, is not modelled; nor are other column keys in an entry.
- Tasks: dates are day numbers. ISO 8601 parsing is not modelled, and neither are request-body keys that are not task columns, nor an `id` key in the body, which `create` and `update` would write.
- Validation: `isEmail`, `isISO8601` and the `Priority`/`Status` enum values are parameters.
- AuthController.AuthController.ForgotPassword: the mail call is the error it throws, if any. The missing `sendMail` method is one such error. The mail's subject and text are not modelled beyond the link.
- Guards.JwtAuthGuard: `jwt.verify` is a parameter, and its payload id is a natural number.
- Guards.Authenticate: the guard imports `changedPasswordAfter` from src/shared/utils/password.ts, which exports only `hashPassword` and `comparePassword`. As written the import resolves to nothing; run anyway, the call throws and the catch turns every request that reaches it into the invalid-token 401, so nothing is admitted. The model uses the `changedPasswordAfter` of src/utils/password.ts (`Password.ChangedPasswordAfter`) instead.
- Concurrency between requests: each handler is one sequential call.
