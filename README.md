# Student records API: persistence mapping, bearer gate and handlers

A Dafny model of the core of a small Go service that stores "student"
records in a SQL table and serves them over HTTP. Three pieces are modelled:

- **Persistence** (`internal/database/student.go`, module `Database`): the
  nullable row shape `StudentRow`, whose `sql.NullString`/`sql.NullTime`
  wrappers are `(payload, valid)` pairs; `convertStudentRowToStudent`, which
  reads every payload and ignores `Valid`; the row literals that
  `CreateStudent` and `UpdateStudent` build inline (`CreateRow`, `UpdateRow`),
  with their null policy; and the five store operations as methods of a
  class `Database` whose table is a `map<string, StudentRow>` keyed by the
  primary key. `Stored` says what a column keeps: the driver writes NULL for
  a wrapper that is not `Valid`, and `Scan` reads NULL back as the zero
  payload. The class invariant `Valid()` (every row under its own id, every
  row as a column keeps it) is preserved by every method.
- **Bearer gate** (`JWTAuth` in `internal/transport/middleware.go`, module
  `Middleware`): Go's `strings.Split` on a one-character separator, with its
  partner `Join` and a uniqueness lemma; ASCII lower-casing; and the gate as
  a pure function from the `Authorization` header values, the request
  context and a token validator to an outcome: `Reject401`, `Call(ctx)` (the
  wrapped handler runs once with `UserIDKey` bound to the claims' user id),
  or `IndexPanic` (a non-nil but empty list of values, which the Go code
  indexes at 0).
- **Handlers** (`internal/transport/student.go`, module `Transport`): the two
  request-to-student conversions, and each of the five handlers as a pure
  function returning the service call it makes (if any) and the sequence of
  writes to the `ResponseWriter` (set a header, write a status, write a
  body). net/http's commit rules are stated once (`WireStatus`,
  `SentHeader`, `Bodies`): the first status written wins, a body written
  first or nothing written at all means 200, and headers set after the
  commit are lost. Handler contracts are stated in those terms.

Module `Student` holds the domain record and a model of `time.Time` in which
an instant is an opaque count from Go's zero time, so that `IsZero` is Go's
`Time.IsZero`. Module `Common` holds `Option` and `Result`.

Nondeterminism and I/O are parameters: `uuid.NewV4()` is `newId`, each
of the two calls of `time.Now()` on a write path is its own parameter
(`createdAt`, `updatedAt`), backend failures are booleans (`execFails`,
`lastIdFails`, `queryFails`), the rows returned by the `SELECT` of
`GetStudents` are a parameter, and `authentication.ValidateJWT` is a
function parameter. For the handlers, the decoded body (`None` when
decoding fails), the validator's verdict, the path id and the service's
answer are inputs.

The code behaves in several places otherwise than a caller of the API
would expect; the model follows the code:
- `UpdateStudent` overwrites `CreatedOn` with a fresh clock reading
  (`UpdateRowNullPolicy`); it is not kept from creation.
- `UpdateStudent` makes no rows-affected check, so an absent id succeeds and
  changes nothing; `DeleteStudent` likewise succeeds on an absent id.
- `CreateStudent` returns the input with the new id, not the stored row, so
  its `CreatedOn`/`UpdatedOn` are the client's values; a read afterwards
  gives the first clock reading and zero (`CreateRoundTrip`).
- The row conversions keep every payload, so `FromRow(ToRow(s))` loses
  nothing for empty strings or a zero birth date either: a zero birth date
  is stored as NULL and read back as zero.
- Several failure paths write nothing, so the client gets 200 with an empty
  body rather than a 4xx/5xx (`SilentFailuresAnswer200`).
- `JWTAuth` splits on every space, not only the first: a token containing a
  space, or a double space after the scheme, is rejected.

## Model

| member | source | states |
|---|---|---|
| `Database.ConvertIgnoresValid` | internal/database/student.go:27-41 | two rows convert to the same student exactly when they agree on the id and every payload, whatever their `Valid` flags |
| `Database.ConvertNullIsZero` | internal/database/student.go:27-41 | after a store round trip every null column holds its zero payload, so a null string field converts to "" and a null time to the zero time |
| `Database.CreateRowNullPolicy` | internal/database/student.go:46-59 | on the create path every string field is present (even empty), the birth date is present iff not zero, `CreatedOn` is present with the first clock reading, `UpdatedOn` is null (carrying the second) |
| `Database.UpdateRowNullPolicy` | internal/database/student.go:143-156 | on the update path the row id is the path id, strings are present, the birth date is present iff not zero, and both stamps are present, each with its own clock reading |
| `Database.CreateRoundTrip` | internal/database/student.go:44-59 | reading back a created row gives the input with the generated id, `CreatedOn` the first clock reading and `UpdatedOn` zero; empty strings and a zero birth date survive |
| `Database.UpdateRoundTrip` | internal/database/student.go:142-187 | the student `UpdateStudent` returns is the input with the path id, `CreatedOn` the first and `UpdatedOn` the second clock reading, and equals what a later read of the stored row gives |
| `Database.Database.CreateStudent` | internal/database/student.go:44-78 | inserts the create row under the new id unless the insert fails or the id is taken; an error from `LastInsertId` comes after the write; any error returns the zero student; success returns the input with the new id; the invariant is kept |
| `Database.Database.GetStudent` | internal/database/student.go:81-97 | succeeds iff the query works and the id is present, then returns the converted stored row, which carries the requested id; otherwise the zero student and an error |
| `Database.Database.GetStudents` | internal/database/student.go:99-126 | a failed select gives an empty list and an error; otherwise a list of the same length and order whose element i is the conversion of row i, and of the stored row under its id when the rows come from the table |
| `Database.Database.DeleteStudent` | internal/database/student.go:129-139 | removes the id (a no-op when absent) and returns no error unless the statement fails, in which case nothing changes |
| `Database.Database.UpdateStudent` | internal/database/student.go:142-187 | replaces the row of a present id with the stored update row and leaves the table unchanged for an absent id; an absent id still succeeds; any error returns the zero student; success returns the input with the path id and the two clock readings as stamps |
| `Middleware.Split` | internal/transport/middleware.go:55 | `strings.Split` on one character: one more part than separators, no part contains the separator, and joining the parts gives the input back |
| `Middleware.SplitUnique` | internal/transport/middleware.go:55 | any separator-free parts whose join is `s` are exactly `Split(s)`: with `Split`'s contract, an if-and-only-if characterisation |
| `Middleware.SplitNoSep` | internal/transport/middleware.go:55 | a string without a separator splits into itself alone |
| `Middleware.SplitAppend` | internal/transport/middleware.go:55 | splitting at the first separator peels off the piece before it |
| `Middleware.ToLower` | internal/transport/middleware.go:56 | ASCII lower-casing keeps the length and lowers each character |
| `Middleware.SchemeIsBearerIff` | internal/transport/middleware.go:56 | the scheme passes iff it spells b-e-a-r-e-r with each letter in either case |
| `Middleware.JwtAuth` | internal/transport/middleware.go:46-81 | no header rejects; an empty non-nil value list panics; a first value that is not two parts rejects; a call binds `UserIDKey` and leaves every other context key as it was |
| `Middleware.BearerFormReachesValidator` | internal/transport/middleware.go:55-77 | for a first value `scheme + " " + token` with no other space and a bearer scheme, the outcome is decided by the validator on exactly `token`: error gives 401, claims give one call with the user id bound |
| `Middleware.CallOnlyForBearerForm` | internal/transport/middleware.go:55-77 | the wrapped handler runs only when the first value is in bearer form and its token validates, with the claims' user id in the context |
| `Middleware.OnlyFirstValueRead` | internal/transport/middleware.go:55 | values after the first `Authorization` value do not change the outcome |
| `Middleware.SinglePartRejected` | internal/transport/middleware.go:55-59 | a header without a space (such as "Bearer" alone) is rejected with 401 |
| `Middleware.ThreePartsRejected` | internal/transport/middleware.go:55-59 | a header with two spaces ("Bearer a b", or "Bearer  tok" with an empty middle part) is rejected with 401 |
| `Middleware.SchemeCaseAndEmptyToken` | internal/transport/middleware.go:55-66 | "bearer", "BEARER" and "BeArEr" all reach the validator, and "Bearer " hands it the empty token |
| `Transport.StudentFromPostRequest` | internal/transport/student.go:39-52 | the converted student's id is empty whatever the request carried |
| `Transport.PostConversionRoundTrip` | internal/transport/student.go:39-52 | the create conversion and its inverse lose only the id, in both directions |
| `Transport.PostConversionIgnoresOnlyId` | internal/transport/student.go:39-52 | two create requests give the same student iff they differ at most in the id |
| `Transport.StudentFromUpdateRequest` | internal/transport/student.go:168-181 | the converted student's id is empty |
| `Transport.UpdateConversionRoundTrip` | internal/transport/student.go:168-181 | the update conversion copies all ten mutable fields unchanged: it is a bijection onto students with an empty id |
| `Transport.HttpErrorWrites` | internal/transport/student.go:71 | `http.Error` answers with its code, a plain-text content type and the message as body |
| `Transport.HeaderAfterCommitIsLost` | internal/transport/student.go:75-76 | a header set after the status is written changes neither the sent headers nor the status, which is why the content type precedes 201 |
| `Transport.CreateStudentHandler` | internal/transport/student.go:53-82 | decode failure writes nothing and calls nothing; invalid input gives 400 without a call; otherwise one call with the converted request; a service error gives 500; success gives 201 with JSON content type and the returned student as the only body |
| `Transport.GetStudentHandler` | internal/transport/student.go:85-105 | an empty id gives 400 without a call; a `ErrFetchingStudent` error gives 404, any other error 500, both without body; success gives 200 with the student |
| `Transport.DeleteStudentHandler` | internal/transport/student.go:108-125 | an empty id gives 400 without a call; a service error writes nothing; success writes the "Successfully Deleted" message with 200 |
| `Transport.GetStudentsHandler` | internal/transport/student.go:128-150 | always calls the service; `ErrFetchingStudent` gives 404, other errors 500; success gives 200 with JSON content type and the list as body |
| `Transport.UpdateStudentHandler` | internal/transport/student.go:184-211 | no empty-id guard: the path id goes to the service with the converted request; decode failure writes nothing, invalid input gives 400 without a call, a service error writes nothing, success writes the student |
| `Transport.UncalledServiceIsIrrelevant` | internal/transport/student.go:56-65 | when a handler does not call the service, its response is the same whatever the service would have answered |
| `Transport.SilentFailuresAnswer200` | internal/transport/student.go:117-119 | an undecodable create or update body, and a failing delete or update, answer 200 with an empty body |

## Left out

- JSON decoding and encoding: the decoded request is an input and encoding
  always succeeds, so the `http.Error` after a failed encode in
  `CreateStudent` and `GetStudents` and the `panic` after one in the other
  handlers are not modelled; neither are the malformed struct tags.
- The validator library and `mux.Vars`: the verdict and the path id are inputs.
- `authentication.ValidateJWT` is not part of this model; it is a function
  parameter returning claims or an error message.
- `Middleware.ToLower`: models `strings.ToLower` on ASCII letters only; other
  characters are left unchanged, where Go applies Unicode case mapping.
- SQL text, the sqlx calls, `LastInsertId`'s value and the `fmt.Printf`
  calls: the store is a map and backend failures are boolean parameters.
- The `LIMIT 10` of `GetStudents` lives in the SQL text; the selected rows
  are a parameter, with no bound on their number.
- `Database.Stored` keeps a time exactly as written; a SQL datetime column
  may round or truncate it, which the model does not capture.
- `uuid.NewV4()` and `time.Now()` are parameters; UUID format, uniqueness
  and clock arithmetic are not modelled (a generated id that is already
  taken fails the insert, as the primary key would make it).
- `JSONMiddleware`, `TimeoutMiddleware`, `LoggingMiddleware`, logging,
  `main.go` and the service layer of package `student` (not part of this
  model): the handlers see the service only through its answer.
- The request-context values are strings; Go's context holds arbitrary
  values.
