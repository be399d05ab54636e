/** User registration: a username may be registered once, and the stored
    password is the hash of the one supplied. The repository is the map
    `users` keyed by username; `nextId` stands for the UUID generator. */
module UserRules {
  import opened Common
  import opened AppErrors
  import opened UserMapping

  /** The message of the conflict raised for a taken username. */
  function UsernameTakenMessage(username: string): string {
    "Username " + username + " já está em uso."
  }

  /** What every stored user satisfies: keyed by its username, with an id, a
      password hash and a creation time. */
  ghost predicate Registered(username: string, u: User) {
    u.username == Some(username) && u.id.Some? && u.password.Some? && u.createdAt.Some?
  }

  /** The registration as one function of the table; `hash` is the BCrypt
      hashing (cost 12, random salt), which yields None where it throws (a
      password longer than the BCrypt limit), `newId` the generated id. */
  function Register(users: map<string, User>, dto: UserRequest, hash: string -> Option<string>, newId: Uuid, now: Time)
    : (r: Result<User, AppError>)
    ensures dto.username in users <==> r == Failure(ResourceAlreadyExists(UsernameTakenMessage(dto.username)))
    // a null password is dereferenced before hashing
    ensures dto.username !in users && dto.password.None? ==> r == Failure(Unexpected(NullPointer))
    ensures dto.username !in users && dto.password.Some? && hash(dto.password.value).None? ==>
              r == Failure(Unexpected(IllegalArgument))
    ensures r.Success? <==> dto.username !in users && dto.password.Some? && hash(dto.password.value).Some?
    ensures r.Success? ==>
              && Registered(dto.username, r.value)
              && r.value == User(Some(newId), dto.name, Some(dto.username), hash(dto.password.value), Some(now))
  {
    if dto.username in users then Failure(ResourceAlreadyExists(UsernameTakenMessage(dto.username)))
    else if dto.password.None? then Failure(Unexpected(NullPointer))
    else match hash(dto.password.value)
      case None => Failure(Unexpected(IllegalArgument))
      case Some(h) => Success(User(Some(newId), dto.name, Some(dto.username), Some(h), Some(now)))
  }

  class UserService {
    var users: map<string, User>
    var nextId: Uuid

    ghost predicate Valid()
      reads this
    {
      && (forall name :: name in users ==> Registered(name, users[name]))
      && (forall name :: name in users ==> users[name].id.value < nextId)
    }

    constructor ()
      ensures Valid() && users == map[]
    {
      users, nextId := map[], 0;
    }

    /** `create`: reject a taken username before mapping or saving anything;
        otherwise map the request, hash the password and save. */
    method Create(dto: UserRequest, hash: string -> Option<string>, now: Time) returns (r: Result<UserResponse, AppError>)
      requires Valid()
      modifies this
      ensures Valid()
      ensures match Register(old(users), dto, hash, old(nextId), now)
              case Failure(e) => r == Failure(e) && users == old(users) && nextId == old(nextId)
              case Success(u) => users == old(users)[dto.username := u] && r == Success(ToResponse(Some(u)).value)
    {
      var existing := if dto.username in users then Some(users[dto.username]) else None;
      if existing.Some? {
        return Failure(ResourceAlreadyExists(UsernameTakenMessage(dto.username)));
      }
      var user := ToEntity(Some(dto)).value;
      if dto.password.None? {
        return Failure(Unexpected(NullPointer));
      }
      var passwordHashed := hash(dto.password.value);
      if passwordHashed.None? {
        return Failure(Unexpected(IllegalArgument));
      }
      user := user.(password := passwordHashed);
      // repository.save of a new entity: generated id and creation timestamp
      user := user.(id := Some(nextId), createdAt := Some(now));
      users := users[dto.username := user];
      nextId := nextId + 1;
      r := Success(ToResponse(Some(user)).value);
    }
  }

  /** Registering the same username twice in a row: the second call fails with
      the conflict and leaves the table as the first call left it. */
  lemma SecondRegistrationFails(users: map<string, User>, first: UserRequest, second: UserRequest,
                                hash: string -> Option<string>, id1: Uuid, id2: Uuid, now1: Time, now2: Time)
    requires Register(users, first, hash, id1, now1).Success?
    requires second.username == first.username
    ensures var after := users[first.username := Register(users, first, hash, id1, now1).value];
            Register(after, second, hash, id2, now2)
              == Failure(ResourceAlreadyExists(UsernameTakenMessage(first.username)))
  {
  }

  /** Successful registrations keep every stored user keyed by its own
      username, so no two stored users share one, and never replace a user. */
  lemma RegisterKeepsUsernamesUnique(users: map<string, User>, dto: UserRequest, hash: string -> Option<string>, newId: Uuid, now: Time)
    requires forall name :: name in users ==> Registered(name, users[name])
    requires Register(users, dto, hash, newId, now).Success?
    ensures var after := users[dto.username := Register(users, dto, hash, newId, now).value];
            && (forall name :: name in after ==> Registered(name, after[name]))
            && (forall a, b :: a in after && b in after && after[a].username == after[b].username ==> a == b)
            && (forall name :: name in users ==> name in after && after[name] == users[name])
            && |after| == |users| + 1
  {
  }
}
