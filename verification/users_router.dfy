/** The `/users` endpoints. Registration checks for a duplicate e-mail
    first; reading a user checks existence before ownership (404, then 403);
    updating and deleting check ownership before existence (403, then 404).
    `caller` is the user the bearer token resolved to. */
module UserRouter {
  import opened Wrappers
  import opened Text
  import opened Http
  import opened Models
  import opened Schemas
  import opened Security
  import UserRepo

  const EmailAlreadyRegistered := ApiError(BadRequest, "Email already registered")
  const UserNotFound := ApiError(NotFound, "User not found")
  const ReadForbidden := ApiError(Forbidden, "Not Authorised to access this user")
  const UpdateForbidden := ApiError(Forbidden, "Not authorised to update this user")
  const DeleteForbidden := ApiError(Forbidden, "Not Authorised to delete this user")

  /** `POST /users/`. The duplicate check compares the address exactly as
      sent, while the store keeps it lower-cased; a case variant of a stored
      address passes the check and is then refused by the unique index (500). */
  function CreateUser(s: State, h: Hasher, uc: UserCreate, now: int): (r: (Result<User, ApiError>, State))
    requires Valid(s)
    ensures UserRepo.EmailTaken(s.users, uc.email) ==> r == (Err(EmailAlreadyRegistered), s)
    ensures !UserRepo.EmailTaken(s.users, uc.email) && UserRepo.EmailTaken(s.users, Lower(uc.email)) ==>
              r == (Err(ServerError), s)
    ensures r.0.Ok? <==> !UserRepo.EmailTaken(s.users, uc.email) && !UserRepo.EmailTaken(s.users, Lower(uc.email))
    ensures r.0.Ok? ==> r.0.value.id !in s.users
                        && r.1.users == s.users[r.0.value.id := r.0.value] && r.1.expenses == s.expenses
                        && r.0.value.email == Lower(uc.email)
                        && r.0.value.name == Strip(uc.name)
                        && r.0.value.createdAt == now
                        && r.0.value.password == HashPassword(h, uc.password)
    ensures r.0.Err? ==> r.1 == s
    ensures Valid(r.1)
  {
    if UserRepo.GetUserByEmail(s, uc.email).Some? then (Err(EmailAlreadyRegistered), s)
    else
      var (stored, s') := UserRepo.CreateUser(s, h, uc, now);
      match stored
      case Err(_) => (Err(ServerError), s)
      case Ok(u) => (Ok(u), s')
  }

  /** `GET /users/{id}`: 404 for an unknown id, before any ownership check;
      403 for someone else's id; otherwise the stored user. */
  function ReadUser(s: State, caller: User, userId: int): (r: Result<User, ApiError>)
    requires UsersKeyed(s)
    ensures userId !in s.users ==> r == Err(UserNotFound)
    ensures userId in s.users && userId != caller.id ==> r == Err(ReadForbidden)
    ensures r.Ok? <==> userId in s.users && userId == caller.id
    ensures r.Ok? ==> r.value == s.users[userId]
  {
    match UserRepo.GetUserById(s, userId)
    case None => Err(UserNotFound)
    case Some(u) => if u.id != caller.id then Err(ReadForbidden) else Ok(u)
  }

  /** `PUT /users/{id}`: 403 for anyone but the owner, whether or not the
      id exists, with the store untouched; then 404 for a missing record;
      otherwise the patched user (500 if the new e-mail is taken). */
  function UpdateUser(s: State, h: Hasher, caller: User, userId: int, p: UserUpdate): (r: (Result<User, ApiError>, State))
    requires Valid(s)
    ensures userId != caller.id ==> r == (Err(UpdateForbidden), s)
    ensures userId == caller.id && userId !in s.users ==> r == (Err(UserNotFound), s)
    ensures r.0.Err? ==> r.1 == s
    ensures r.0.Ok? ==> userId == caller.id && userId in s.users
                        && r.0.value == UserRepo.ApplyUserUpdate(h, s.users[userId], p)
                        && r.1 == s.(users := s.users[userId := r.0.value])
    ensures userId == caller.id && userId in s.users
            && UserRepo.EmailTakenByOther(s.users, userId, UserRepo.ApplyUserUpdate(h, s.users[userId], p).email) ==>
              r == (Err(ServerError), s)
    ensures userId == caller.id && userId in s.users ==>
              (r.0.Ok? <==> !UserRepo.EmailTakenByOther(s.users, userId, UserRepo.ApplyUserUpdate(h, s.users[userId], p).email))
    ensures Valid(r.1)
  {
    if userId != caller.id then (Err(UpdateForbidden), s)
    else
      var (updated, s') := UserRepo.UpdateUser(s, h, userId, p);
      match updated
      case Err(_) => (Err(ServerError), s)
      case Ok(None) => (Err(UserNotFound), s)
      case Ok(Some(u)) => (Ok(u), s')
  }

  /** `DELETE /users/{id}`: 403 for anyone but the owner with no change;
      404 if the owner's record is gone; otherwise 204, and the user and all
      their expenses are removed. */
  function DeleteUser(s: State, caller: User, userId: int): (r: (Result<(), ApiError>, State))
    requires Valid(s)
    ensures userId != caller.id ==> r == (Err(DeleteForbidden), s)
    ensures userId == caller.id && userId !in s.users ==> r == (Err(UserNotFound), s)
    ensures r.0.Ok? <==> userId == caller.id && userId in s.users
    ensures r.0.Ok? ==> r.1.users == s.users - {userId}
                        && r.1.expenses == UserRepo.ExpensesWithoutOwner(s.expenses, userId)
    ensures Valid(r.1)
  {
    if userId != caller.id then (Err(DeleteForbidden), s)
    else
      var (deleted, s') := UserRepo.DeleteUser(s, userId);
      if !deleted then (Err(UserNotFound), s) else (Ok(()), s')
  }
}
