/** The user entity, its request/response records, and the mapper between them. */
module UserMapping {
  import opened Common

  /** The `tb_user` entity; `password` holds the BCrypt hash once saved. */
  datatype User = User(
    id: Option<Uuid>,
    name: Option<string>,
    username: Option<string>,
    password: Option<string>,
    createdAt: Option<Time>)

  /** UserRequestDTO. The username is the table key, so it is never null here;
      name and password may be. */
  datatype UserRequest = UserRequest(name: Option<string>, username: string, password: Option<string>)

  /** UserResponseDTO: no password field at all. */
  datatype UserResponse = UserResponse(
    id: Option<Uuid>,
    name: Option<string>,
    username: Option<string>,
    createdAt: Option<Time>)

  /** UserMapper.toResponse: null for null, otherwise the four public fields. */
  function ToResponse(user: Option<User>): (r: Option<UserResponse>)
    ensures r.None? <==> user.None?
    ensures user.Some? ==>
              r.value.id == user.value.id && r.value.name == user.value.name &&
              r.value.username == user.value.username && r.value.createdAt == user.value.createdAt
  {
    match user
    case None => None
    case Some(u) => Some(UserResponse(u.id, u.name, u.username, u.createdAt))
  }

  /** UserMapper.toEntity: null for null, otherwise name and username only;
      the id, the password and the creation time stay unset. */
  function ToEntity(dto: Option<UserRequest>): (r: Option<User>)
    ensures r.None? <==> dto.None?
    ensures dto.Some? ==>
              r.value.name == dto.value.name && r.value.username == Some(dto.value.username) &&
              r.value.id.None? && r.value.password.None? && r.value.createdAt.None?
  {
    match dto
    case None => None
    case Some(d) => Some(User(None, d.name, Some(d.username), None, None))
  }

  /** The response does not depend on the password: two users that differ only
      in their password hash answer alike. */
  lemma ResponseHidesPassword(u: User, hash: string)
    ensures ToResponse(Some(u.(password := Some(hash)))) == ToResponse(Some(u))
  {
  }
}
