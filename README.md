# todolist business rules in Dafny

A model of the rules behind the HTTP layer of the todolist REST API
(`br.com.pablotzeliks.todolist`): users register with a unique username and a
hashed password; requests to `/tasks/` pass an authentication filter that
checks Basic credentials; tasks are created, listed and partially updated by
their owner only, with the rule that a task starts strictly before it ends;
and a global exception handler turns every exception into an HTTP status and
a JSON error body.

Modules, one per source component:

| file | module | source |
|---|---|---|
| common.dfy | `Common` | nullable references, results, UUID and LocalDateTime |
| errors.dfy | `AppErrors` | the exception classes |
| error_handler.dfy | `ErrorTranslation` | `exception/GlobalExceptionHandler.java`, the error DTOs |
| task_mapper.dfy | `TaskMapping` | `task/mapper/TaskMapper.java`, the task entity and DTOs |
| task_service.dfy | `TaskRules` | `task/service/TaskService.java` (class `TaskService`) |
| user_mapper.dfy | `UserMapping` | `user/mapper/UserMapper.java`, the user entity and DTOs |
| user_service.dfy | `UserRules` | `user/service/UserService.java` (class `UserService`) |
| auth_filter.dfy | `AuthGate` | `security/FilterTaskAuth.java` |
| scenarios.dfy | `Scenarios` | properties across components |

Modelling choices:

- `LocalDateTime` is an `int`: `isAfter` is `>`, `isEqual` is `==`. A `UUID`
  is a `nat`. The clock (`LocalDateTime.now()`, `@CreationTimestamp`) is a
  `now` parameter.
- Entities keep Java's nullability: every field of `Task` and `User` is an
  `Option`. `Task.java` declares no `updatedAt` field, yet `TaskService.update` sets
  one and `TaskMapper.toResponse` reads one. The model adds the field to
  `Task` so that those two operations can be stated.
- The repositories are fields of the service classes. Tasks live in a map from
  id to entity. A sequence `order` gives the order in which `findByUserId`
  returns rows; the model uses insertion order. Users live in a map keyed by
  username. The UUID generator is a counter `nextId`; the model relies only on
  the ids it hands out being fresh.
- `TaskService.update` loads the entity, changes it one setter at a time and
  saves it. `TaskRules.TaskService.Update` does the same on a local value.
  The pure function `TaskRules.UpdateTask` specifies the whole update.
- BCrypt hashing, BCrypt verification and `java.util.Base64` decoding are
  function parameters: `hash`, `verify(raw, hash)` and `decode`. `decode`
  answers `None` where the JDK decoder throws. `hash` answers `None` where
  BCrypt's default strict policy throws `IllegalArgumentException`: for a
  password longer than 71 UTF-8 bytes, which nothing rejects earlier because
  the `@Size(max = 20)` annotation is never triggered.
- An exception that no service declares is `AppErrors.Unexpected`, and the
  handler answers it with 500. This covers a `NullPointerException`, a
  `StringIndexOutOfBoundsException` from `substring`, an
  `ArrayIndexOutOfBoundsException` from `credentials[1]`, and an
  `IllegalArgumentException` from the decoder. A null start or end date in a
  creation request is therefore not a precondition of `Create`. It is the
  `NullPointerException` that `isAfter` throws at TaskService.java:141.
- Where the code departs from its own documentation or from the Basic scheme, the model follows the code:
  - A creation request is not checked for a present or future start. Only
    start < end is checked.
  - A malformed Authorization header ends in a 500 response, not a 401. This
    covers a header shorter than five characters, a token that is not valid
    base64, and a decoded value with fewer than two pieces, such as `bob:`.
  - The credentials are split on every colon, not at the first one as in
    RFC 7617 section 2. A password that contains a colon is cut at that
    colon (`AuthGate.PasswordTruncatedAtColon`).
  - The five characters before the token are never compared with `Basic`
    (`AuthGate.SchemeNotChecked`).

## Model

| member | source | states |
|---|---|---|
| `ErrorTranslation.Handle` | src/main/java/br/com/pablotzeliks/todolist/exception/GlobalExceptionHandler.java:57-145 | Each error kind gets its status: 409 exactly for ResourceAlreadyExists, 404 exactly for ResourceNotFound, 401 exactly for AuthenticationException and its subclass UserNotAuthorized, 400 exactly for business-rule, unreadable-message and field-validation failures, and 500 exactly for anything else. statusError is the reason phrase of the status. The exception's message is passed through, except that an unclassified error always gets the fixed support text. The `errors` list is present exactly for a validation failure, with one {field, message} entry per field error, in order. |
| `ErrorTranslation.ToValidationErrors` | src/main/java/br/com/pablotzeliks/todolist/exception/GlobalExceptionHandler.java:120-123 | The list has one entry per field error, in the same order, holding that error's field and default message. |
| `ErrorTranslation.UnexpectedCauseNeverLeaks` | src/main/java/br/com/pablotzeliks/todolist/exception/GlobalExceptionHandler.java:135-145 | Two unclassified exceptions get identical responses, whatever their causes. |
| `ErrorTranslation.StatusIsAnError` | src/main/java/br/com/pablotzeliks/todolist/exception/GlobalExceptionHandler.java:57-145 | Every translated exception gets a 4xx or 5xx status. |
| `TaskMapping.Respond` | src/main/java/br/com/pablotzeliks/todolist/task/mapper/TaskMapper.java:46-56 | A response carries the task's nine fields unchanged. |
| `TaskMapping.ToResponse` | src/main/java/br/com/pablotzeliks/todolist/task/mapper/TaskMapper.java:42-57 | toResponse is null exactly for a null task. Otherwise it is the task's full response. |
| `TaskMapping.ToEntity` | src/main/java/br/com/pablotzeliks/todolist/task/mapper/TaskMapper.java:70-82 | toEntity is null exactly for a null request. Otherwise it copies title, description, startAt, endAt and priority, and leaves id, userId, createdAt and updatedAt null. |
| `TaskMapping.RequestRoundTrip` | src/main/java/br/com/pablotzeliks/todolist/task/mapper/TaskMapper.java:42-82 | toResponse(toEntity(d)) agrees with d on the five request fields. Its id, owner and timestamps are null. |
| `TaskMapping.RespondInjective` | src/main/java/br/com/pablotzeliks/todolist/task/mapper/TaskMapper.java:46-56 | Two tasks with the same response are the same task, so no field is lost. |
| `TaskRules.CheckDates` | src/main/java/br/com/pablotzeliks/todolist/task/service/TaskService.java:139-166 | A date pair passes exactly when both dates are present and start < end. A later start gives "Data inicial não pode ser posterior a final.". An equal start gives "Data inicial não pode igual a final.". A null date gives a NullPointerException. |
| `TaskRules.ValidatesDate` | src/main/java/br/com/pablotzeliks/todolist/task/service/TaskService.java:139-150 | A creation request passes exactly when both dates are present and start < end. A rejection is a business-rule error or a null-pointer error. |
| `TaskRules.ValidatesDateForUpdate` | src/main/java/br/com/pablotzeliks/todolist/task/service/TaskService.java:152-166 | An update passes exactly when the effective start is before the effective end. An effective date is the supplied value if present, else the stored one. A rejection is a business-rule error: an effective start after the effective end gets "Data inicial não pode ser posterior a final.", an equal one gets "Data inicial não pode igual a final.". |
| `TaskRules.Overlay` | src/main/java/br/com/pablotzeliks/todolist/task/service/TaskService.java:124-128 | A supplied non-null value wins; otherwise the stored value is kept. |
| `TaskRules.UpdateTask` | src/main/java/br/com/pablotzeliks/todolist/task/service/TaskService.java:113-137 | An unknown id fails with "Tarefa não encontrada.". A caller who does not own the task fails with UserNotAuthorized whatever the dates, because the owner check comes first. Otherwise the update fails exactly when the merged dates fail: a merged start after the merged end gets "Data inicial não pode ser posterior a final.", an equal one gets "Data inicial não pode igual a final.". On success the row still satisfies the table invariant. It keeps id, owner and createdAt, takes each supplied non-null field among title, description, startAt, endAt and priority, and keeps the rest. Its updatedAt is now. |
| `TaskRules.FindByUserId` | src/main/java/br/com/pablotzeliks/todolist/task/service/TaskService.java:89 | The query returns only rows of the given owner, and every such row. |
| `TaskRules.FindByUserIdOrdered` | src/main/java/br/com/pablotzeliks/todolist/task/service/TaskService.java:89 | The query keeps repository order: of two returned rows, the earlier one comes from an earlier position of the repository order. |
| `TaskRules.FindByUserIdDistinct` | src/main/java/br/com/pablotzeliks/todolist/task/service/TaskService.java:89 | The query never returns the same row twice: the ids it returns are pairwise distinct. |
| `TaskRules.Responses` | src/main/java/br/com/pablotzeliks/todolist/task/service/TaskService.java:91-93 | The stream maps each row, in order, to its response. |
| `TaskRules.FindByUserIdInsert` | src/main/java/br/com/pablotzeliks/todolist/task/service/TaskService.java:72 | Saving a new row appends it to its owner's query result. Every other owner's result is unchanged. |
| `TaskRules.ListSound` | src/main/java/br/com/pablotzeliks/todolist/task/service/TaskService.java:87-94 | On a valid table, the listed responses are exactly the responses of the stored rows of that owner, each once. |
| `TaskRules.ListOrdered` | src/main/java/br/com/pablotzeliks/todolist/task/service/TaskService.java:87-94 | The mapped responses keep the repository order of the rows they come from. |
| `TaskRules.TaskService.List` | src/main/java/br/com/pablotzeliks/todolist/task/service/TaskService.java:87-94 | Every listed response belongs to the caller. Every task of the caller is listed. Every listed response is the response of a stored task. No task is listed twice. Of two listed responses, the earlier one is the response of a row at an earlier position of the repository order. Listing reads the table and never changes it. |
| `TaskRules.TaskService.constructor` | src/main/java/br/com/pablotzeliks/todolist/task/service/TaskService.java:44-45 | A new service starts with an empty task table. |
| `TaskRules.TaskService.Insert` | src/main/java/br/com/pablotzeliks/todolist/task/service/TaskService.java:72 | Saving a new entity gives it a fresh id and the creation time. It adds exactly that row at the end of the repository order, and the table invariant is kept. |
| `TaskRules.TaskService.Create` | src/main/java/br/com/pablotzeliks/todolist/task/service/TaskService.java:62-76 | A request whose dates fail validation gets that error, and the table, order and generator are unchanged. Otherwise exactly one task is added. It has a fresh id, the caller as owner, the request's five fields, createdAt = now and no updatedAt, and its response is returned. The new task is appended to the caller's list, and no other owner's list changes. |
| `TaskRules.TaskService.Update` | src/main/java/br/com/pablotzeliks/todolist/task/service/TaskService.java:113-137 | The table becomes UpdateTask's row on success and stays the same on any failure. The response or error is UpdateTask's. The table invariant is kept. |
| `TaskRules.UpdateKeepsTableInvariant` | src/main/java/br/com/pablotzeliks/todolist/task/service/TaskService.java:115-134 | After any update, accepted or rejected, every stored task still starts before it ends. No row is added or removed, and no owner or creation time changes. |
| `TaskRules.RejectedUpdateChangesNothing` | src/main/java/br/com/pablotzeliks/todolist/task/service/TaskService.java:115-122 | A rejected update leaves the table exactly as it was. |
| `TaskRules.EmptyUpdateOnlyStamps` | src/main/java/br/com/pablotzeliks/todolist/task/service/TaskService.java:124-132 | An owner's update that supplies no field changes only updatedAt. |
| `TaskRules.UpdateIdempotent` | src/main/java/br/com/pablotzeliks/todolist/task/service/TaskService.java:122-134 | Repeating an accepted update later gives the same row, except for updatedAt. |
| `UserMapping.ToResponse` | src/main/java/br/com/pablotzeliks/todolist/user/mapper/UserMapper.java:43-53 | toResponse is null exactly for a null user. Otherwise it copies id, name, username and createdAt. The response type has no password field. |
| `UserMapping.ToEntity` | src/main/java/br/com/pablotzeliks/todolist/user/mapper/UserMapper.java:66-75 | toEntity is null exactly for a null request. Otherwise it sets name and username, and leaves id, password and createdAt null. |
| `UserMapping.ResponseHidesPassword` | src/main/java/br/com/pablotzeliks/todolist/user/mapper/UserMapper.java:47-52 | The response does not depend on the stored password. |
| `UserRules.Register` | src/main/java/br/com/pablotzeliks/todolist/user/service/UserService.java:57-81 | A taken username fails, and only then, with ResourceAlreadyExists "Username <username> já está em uso.". A free username with a null password fails with a NullPointerException, raised before hashing. A password the hashing refuses fails with an IllegalArgumentException. Registration succeeds exactly for a free username with a non-null password that the hashing accepts. The saved user has the new id, the request's name and username, the password hash(raw) and createdAt = now. |
| `UserRules.UserService.constructor` | src/main/java/br/com/pablotzeliks/todolist/user/service/UserService.java:39-40 | A new service starts with an empty user table. |
| `UserRules.UserService.Create` | src/main/java/br/com/pablotzeliks/todolist/user/service/UserService.java:57-81 | On failure, the error is Register's and the table and id generator are unchanged, so nothing is mapped or saved. On success, exactly Register's user is stored under its username, and the result is its password-free response. The table invariant is kept. |
| `UserRules.SecondRegistrationFails` | src/main/java/br/com/pablotzeliks/todolist/user/service/UserService.java:60-65 | After a successful registration, a second registration of the same username fails with the conflict. |
| `UserRules.RegisterKeepsUsernamesUnique` | src/main/java/br/com/pablotzeliks/todolist/user/service/UserService.java:60-77 | A successful registration adds exactly one user and never replaces one. Every user stays keyed by its own username, so no two users share a username. |
| `AuthGate.TrimStart` | src/main/java/br/com/pablotzeliks/todolist/security/FilterTaskAuth.java:99 | The result is the suffix that remains once the leading characters at or below U+0020 are dropped. |
| `AuthGate.TrimEnd` | src/main/java/br/com/pablotzeliks/todolist/security/FilterTaskAuth.java:99 | The result is the prefix that remains once the trailing characters at or below U+0020 are dropped. |
| `AuthGate.Trim` | src/main/java/br/com/pablotzeliks/todolist/security/FilterTaskAuth.java:99 | The result is `s` with exactly its leading and trailing characters at or below U+0020 removed: a window of `s` with only such characters outside it, and empty or starting and ending with a character above U+0020. |
| `AuthGate.Pieces` | src/main/java/br/com/pablotzeliks/todolist/security/FilterTaskAuth.java:101 | Splitting at every colon gives at least one piece, and no piece contains a colon. |
| `AuthGate.JoinPieces` | src/main/java/br/com/pablotzeliks/todolist/security/FilterTaskAuth.java:101 | Joining the pieces back with colons gives the original string. |
| `AuthGate.DropTrailingEmpty` | src/main/java/br/com/pablotzeliks/todolist/security/FilterTaskAuth.java:101 | The result is the longest prefix that does not end in an empty piece. Only empty pieces are dropped. |
| `AuthGate.Split` | src/main/java/br/com/pablotzeliks/todolist/security/FilterTaskAuth.java:101 | split(":") gives the whole string when it has no colon. Otherwise it gives a prefix of the colon pieces whose last element is non-empty, and only empty pieces are dropped. |
| `AuthGate.PiecesAfterFirstColon` | src/main/java/br/com/pablotzeliks/todolist/security/FilterTaskAuth.java:101 | A colon-free prefix before the first colon is the first piece. |
| `AuthGate.PiecesOfColonFree` | src/main/java/br/com/pablotzeliks/todolist/security/FilterTaskAuth.java:101 | A colon-free string is a single piece. |
| `AuthGate.SplitUserPassword` | src/main/java/br/com/pablotzeliks/todolist/security/FilterTaskAuth.java:101-104 | "user:password" with both parts colon-free and a non-empty password splits into exactly [user, password]. |
| `AuthGate.TrimOfTrimmed` | src/main/java/br/com/pablotzeliks/todolist/security/FilterTaskAuth.java:99 | Trim leaves a string without blank ends unchanged, and strips the blank after "Basic". |
| `AuthGate.ParseCredentials` | src/main/java/br/com/pablotzeliks/todolist/security/FilterTaskAuth.java:99-104 | A header shorter than five characters throws StringIndexOutOfBounds. Every failure is an unclassified exception. Parsing succeeds exactly when the header has at least five characters, the decoder accepts the trimmed rest, and split(":") of the decoded text has at least two pieces. On success, the username and password are pieces 0 and 1 of split(":") of the decoded, trimmed text after the first five characters, and neither contains a colon. |
| `AuthGate.ValidateAuth` | src/main/java/br/com/pablotzeliks/todolist/security/FilterTaskAuth.java:91-120 | A missing header fails with "Token de autenticação não fornecido.". Parse failures are passed on. An unknown username and a wrong password both fail with the same "Usuário ou senha inválidos.". Authentication succeeds exactly when the named user is stored and verify(password, stored hash) holds, and then it yields that user's id. |
| `AuthGate.DoFilter` | src/main/java/br/com/pablotzeliks/todolist/security/FilterTaskAuth.java:69-89 | The request passes untouched exactly when the path does not start with "/tasks/". On a task path the result is Authenticated(id) when validation succeeds and Rejected(error) otherwise, so the chain is not invoked. A missing header is rejected. Every rejection is UserNotAuthorized or unclassified. |
| `AuthGate.BasicHeaderParses` | src/main/java/br/com/pablotzeliks/todolist/security/FilterTaskAuth.java:99-104 | Take "Basic " + token, where the token decodes to user:password with a colon-free user and a non-empty colon-free password. It parses to exactly (user, password). |
| `AuthGate.SchemeNotChecked` | src/main/java/br/com/pablotzeliks/todolist/security/FilterTaskAuth.java:99 | Any five leading characters are read the same way as "Basic". |
| `AuthGate.PasswordTruncatedAtColon` | src/main/java/br/com/pablotzeliks/todolist/security/FilterTaskAuth.java:101-104 | For user:p1:p2 with a colon-free user and a non-empty colon-free p1, the password read is p1, not p1:p2 as RFC 7617 section 2 would read it. |
| `AuthGate.EmptyPasswordIsUnexpected` | src/main/java/br/com/pablotzeliks/todolist/security/FilterTaskAuth.java:101-104 | "user:" splits into fewer than two pieces. Reading piece 1 then throws, which is an unclassified error. |
| `Scenarios.CreateWithBadDatesIsBadRequest` | src/main/java/br/com/pablotzeliks/todolist/task/service/TaskService.java:139-150 | A creation request with start >= end is answered 400 without field errors. An equal start gets the "igual" message and a later start gets the "posterior" message. |
| `Scenarios.ForeignUpdateIsUnauthorized` | src/main/java/br/com/pablotzeliks/todolist/task/service/TaskService.java:117-120 | Updating another user's task is answered 401 with the ownership message, whatever the dates. |
| `Scenarios.MissingTaskIsNotFound` | src/main/java/br/com/pablotzeliks/todolist/task/service/TaskService.java:115 | Updating an unknown id is answered 404 with "Tarefa não encontrada.". |
| `Scenarios.DuplicateRegistrationIsConflict` | src/main/java/br/com/pablotzeliks/todolist/user/service/UserService.java:60-65 | Registering a taken username is answered 409 with a message that names the username. |
| `Scenarios.GateRejectionsAreUnauthorized` | src/main/java/br/com/pablotzeliks/todolist/security/FilterTaskAuth.java:93-117 | On a task path, an unknown user and a wrong password get the same 401 answer. A missing header gets 401 with the missing-token message. |
| `Scenarios.MalformedHeaderIsServerError` | src/main/java/br/com/pablotzeliks/todolist/security/FilterTaskAuth.java:79-88 | A header that cannot be parsed is rejected without invoking the chain, and is answered 500. |
| `Scenarios.RegisteredUserAuthenticates` | src/main/java/br/com/pablotzeliks/todolist/security/FilterTaskAuth.java:91-120 | Register a user with password p, where the hashing accepts p and verify(p, hash(p)) holds. A task request with "Basic " + base64(username:p) is then let through as that user's id. |

## Left out

- HTTP controllers, routing, Swagger configuration and application bootstrap are not modelled. The list and update endpoints are commented out in the controller, and no controller validates its body.
- The Bean Validation annotations on the DTOs (size limits, non-blank fields, future dates) are never triggered: no endpoint marks its `@RequestBody` with `@Valid` or `@Validated` (UserController.java:46, TaskController.java:50). The services therefore receive unchecked values, and the model accepts blank or null names and passwords and past dates just as the code does. The handler's field-validation case takes field errors as input.
- The `@Column(length = 50)` limit on `Task.title` (Task.java:24) is a database schema constraint. The map-based task table does not model it, so an over-long title is stored rather than rejected by the database.
- BCrypt hashing and verification, and Base64 decoding, are parameters and are not modelled. The model does not show that a BCrypt hash differs from the raw password, since that is a property of BCrypt.
- UserRules.UserService.Create: does not prove that the stored password differs from the raw one. It proves that the stored value is hash(raw) and that the raw password is stored nowhere else.
- The time zone set at start-up and the clock are not modelled. Times are integers, and "now" is a parameter.
- Concurrency is not modelled. Nor is last-write-wins between requests updating the same task. The model is sequential.
- The order of `findByUserId` is modelled as insertion order. The real database gives no guaranteed order.
- Exceptions thrown downstream of the filter chain are not modelled, even though they are inside the same try block in `doFilterInternal`. Only `validateAuth`'s outcomes are.
- A null username in a registration request is not modelled, since the user table is keyed by username. A null name and a null password are modelled.
- The `request.setAttribute` call and the `HandlerExceptionResolver` are modelled by the returned `Decision` value. No servlet objects are modelled.
- The legacy `filter/FilterTaskAuth.java`, `errors/ExceptionHandlerController.java` and both `Utils` classes are not part of this model.
