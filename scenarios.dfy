/** Properties that cross components: what a client sees once a service
    failure has gone through the global exception handler, and registration
    followed by authentication. */
module Scenarios {
  import opened Common
  import opened AppErrors
  import opened ErrorTranslation
  import opened TaskMapping
  import opened TaskRules
  import opened UserMapping
  import opened UserRules
  import opened AuthGate

  /** A creation request whose start equals its end is answered 400 with the
      "equal dates" message; one whose start is later gets the other message. */
  lemma CreateWithBadDatesIsBadRequest(dto: TaskRequest)
    requires dto.startAt.Some? && dto.endAt.Some? && dto.startAt.value >= dto.endAt.value
    ensures ValidatesDate(dto).Some?
    ensures var resp := Handle(ValidatesDate(dto).value);
            && resp.status == BadRequest
            && resp.errors.None?
            && resp.message == (if dto.startAt.value == dto.endAt.value then StartEqualsEndMessage
                                else StartAfterEndMessage)
  {
  }

  /** An update of another user's task is answered 401, whatever dates it carries. */
  lemma ForeignUpdateIsUnauthorized(tasks: map<Uuid, Task>, id: Uuid, dto: TaskUpdate, userId: Uuid, now: Time)
    requires TableInvariant(tasks)
    requires id in tasks && tasks[id].userId != Some(userId)
    ensures UpdateTask(tasks, id, dto, userId, now).Failure?
    ensures Handle(UpdateTask(tasks, id, dto, userId, now).error)
            == ErrorResponse(NotOwnerMessage, Unauthorized, "Unauthorized", None)
  {
  }

  /** An update of an unknown id is answered 404. */
  lemma MissingTaskIsNotFound(tasks: map<Uuid, Task>, id: Uuid, dto: TaskUpdate, userId: Uuid, now: Time)
    requires TableInvariant(tasks) && id !in tasks
    ensures UpdateTask(tasks, id, dto, userId, now).Failure?
    ensures Handle(UpdateTask(tasks, id, dto, userId, now).error)
            == ErrorResponse(TaskNotFoundMessage, NotFound, "Not Found", None)
  {
  }

  /** A second registration of a username is answered 409, and the message
      names the username. */
  lemma DuplicateRegistrationIsConflict(users: map<string, User>, dto: UserRequest, hash: string -> Option<string>, newId: Uuid, now: Time)
    requires dto.username in users
    ensures Register(users, dto, hash, newId, now).Failure?
    ensures var resp := Handle(Register(users, dto, hash, newId, now).error);
            && resp.status == Conflict
            && resp.message == "Username " + dto.username + " já está em uso."
  {
  }

  /** A missing header on a task endpoint is answered 401; an unknown user and
      a wrong password get the same 401 answer. */
  lemma GateRejectionsAreUnauthorized(path: string, header: Option<string>, users: map<string, User>,
                                      decode: string -> Option<string>, verify: (string, string) -> bool)
    requires TasksPrefix <= path && header.Some?
    requires ParseCredentials(header.value, decode).Success?
    requires var (username, password) := ParseCredentials(header.value, decode).value;
             username !in users ||
             (users[username].password.Some? && !verify(password, users[username].password.value))
    ensures DoFilter(path, header, users, decode, verify).Rejected?
    ensures Handle(DoFilter(path, header, users, decode, verify).error)
            == ErrorResponse(InvalidCredentialsMessage, Unauthorized, "Unauthorized", None)
    ensures Handle(DoFilter(path, None, users, decode, verify).error)
            == ErrorResponse(MissingTokenMessage, Unauthorized, "Unauthorized", None)
  {
  }

  /** A header shorter than the scheme, a token the decoder refuses, or a
      decoded value with fewer than two pieces ends in a 500, not a 401. */
  lemma MalformedHeaderIsServerError(path: string, auth: string, users: map<string, User>,
                                     decode: string -> Option<string>, verify: (string, string) -> bool)
    requires TasksPrefix <= path
    requires ParseCredentials(auth, decode).Failure?
    ensures DoFilter(path, Some(auth), users, decode, verify).Rejected?
    ensures Handle(DoFilter(path, Some(auth), users, decode, verify).error).status == InternalServerError
  {
  }

  /** A user registered with password p, presenting "Basic " + token where the
      token decodes to username:p, is let through as that user, provided the
      hashing accepts p and its verifier agrees (`verify(p, hash(p))`). */
  lemma RegisteredUserAuthenticates(users: map<string, User>, dto: UserRequest, hash: string -> Option<string>,
                                    verify: (string, string) -> bool, newId: Uuid, now: Time,
                                    path: string, token: string, decode: string -> Option<string>)
    requires Register(users, dto, hash, newId, now).Success?
    requires dto.password.Some? && hash(dto.password.value).Some?
    requires verify(dto.password.value, hash(dto.password.value).value)
    requires ':' !in dto.username && ':' !in dto.password.value && dto.password.value != ""
    requires token == [] || (token[0] > ' ' && token[|token| - 1] > ' ')
    requires decode(token) == Some(dto.username + ":" + dto.password.value)
    requires TasksPrefix <= path
    ensures var after := users[dto.username := Register(users, dto, hash, newId, now).value];
            DoFilter(path, Some("Basic " + token), after, decode, verify) == Authenticated(Some(newId))
  {
    BasicHeaderParses(token, decode, dto.username, dto.password.value);
  }
}
