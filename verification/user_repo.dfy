/** The user store: lookups by id and by exact e-mail, create (normalising
    e-mail and name, hashing the password), partial update, and delete,
    which takes the user's expenses with it. */
module UserRepo {
  import opened Wrappers
  import opened Text
  import opened Models
  import opened Schemas
  import opened Security

  /** The row whose `id` column equals `id`, if there is one. */
  function GetUserById(s: State, id: int): (r: Option<User>)
    requires UsersKeyed(s)
    ensures r.Some? ==> r.value in s.users.Values && r.value.id == id
    ensures r.None? ==> forall k | k in s.users :: s.users[k].id != id
  {
    if id in s.users then Some(s.users[id]) else None
  }

  /** Some user holds exactly the address `email`. */
  predicate EmailTaken(users: map<int, User>, email: string) {
    exists k | k in users :: users[k].email == email
  }

  /** The user whose stored e-mail is exactly `email`: no case folding, no
      trimming. */
  function GetUserByEmail(s: State, email: string): (r: Option<User>)
    requires EmailsUnique(s.users)
    ensures r.Some? <==> EmailTaken(s.users, email)
    ensures r.Some? ==> r.value in s.users.Values && r.value.email == email
    ensures forall k | k in s.users && s.users[k].email == email :: r == Some(s.users[k])
  {
    if EmailTaken(s.users, email) then
      var k :| k in s.users && s.users[k].email == email;
      Some(s.users[k])
    else None
  }

  /** Inserts a user with the e-mail lower-cased, the name stripped and the
      password hashed. There is no duplicate check here: when the
      lower-cased address is already stored, the unique index rejects the
      insert and nothing changes. */
  function CreateUser(s: State, h: Hasher, uc: UserCreate, now: int): (r: (Result<User, DbError>, State))
    requires UsersKeyed(s)
    ensures r.0.Err? <==> EmailTaken(s.users, Lower(uc.email))
    ensures r.0.Err? ==> r.1 == s
    ensures r.0.Ok? ==>
              var u := r.0.value;
              && u.email == Lower(uc.email)
              && u.name == Strip(uc.name)
              && u.password == HashPassword(h, uc.password)
              && u.createdAt == now
              && u.refreshToken.None? && u.refreshTokenExpiresAt.None?
              && u.id !in s.users
              && r.1 == s.(users := s.users[u.id := u], nextUserId := r.1.nextUserId)
    ensures UsersKeyed(r.1)
  {
    var email := Lower(uc.email);
    if EmailTaken(s.users, email) then (Err(IntegrityError), s)
    else
      var u := User(s.nextUserId, Strip(uc.name), email, HashPassword(h, uc.password), now, None, None);
      (Ok(u), s.(users := s.users[u.id := u], nextUserId := s.nextUserId + 1))
  }

  /** Applies the fields sent: a new password is stored hashed, a new
      e-mail is stored exactly as sent (not lower-cased), a new name as sent
      (not stripped). */
  function ApplyUserUpdate(h: Hasher, u: User, p: UserUpdate): (r: User)
    ensures r.id == u.id && r.createdAt == u.createdAt
    ensures r.refreshToken == u.refreshToken && r.refreshTokenExpiresAt == u.refreshTokenExpiresAt
    ensures r.name == (if p.name.Put? then p.name.value else u.name)
    ensures r.email == (if p.email.Put? then p.email.value else u.email)
    ensures r.password == (if p.password.Put? then HashPassword(h, p.password.value) else u.password)
  {
    u.(name := Merge(u.name, p.name),
       email := Merge(u.email, p.email),
       password := if p.password.Put? then HashPassword(h, p.password.value) else u.password)
  }

  /** Another user than `id` holds exactly `email`. */
  predicate EmailTakenByOther(users: map<int, User>, id: int, email: string) {
    exists k | k in users && k != id :: users[k].email == email
  }

  /** `Ok(None)` and no change for a missing id; otherwise the patched user,
      unless the new e-mail belongs to someone else, which the unique index
      rejects. No other row changes. */
  function UpdateUser(s: State, h: Hasher, id: int, p: UserUpdate): (r: (Result<Option<User>, DbError>, State))
    ensures id !in s.users ==> r == (Ok(None), s)
    ensures r.0.Err? ==> r.1 == s
    ensures id in s.users ==>
              (r.0.Err? <==> EmailTakenByOther(s.users, id, ApplyUserUpdate(h, s.users[id], p).email))
    ensures r.0.Ok? && r.0.value.Some? ==>
              id in s.users
              && r.0.value.value == ApplyUserUpdate(h, s.users[id], p)
              && r.1 == s.(users := s.users[id := r.0.value.value])
    ensures id in s.users ==> r.0 != Ok(None)
  {
    if id !in s.users then (Ok(None), s)
    else
      var u := ApplyUserUpdate(h, s.users[id], p);
      if EmailTakenByOther(s.users, id, u.email) then (Err(IntegrityError), s)
      else (Ok(Some(u)), s.(users := s.users[id := u]))
  }

  /** The expenses that survive the removal of user `id`. */
  function ExpensesWithoutOwner(expenses: map<int, Expense>, id: int): (m: map<int, Expense>)
    ensures forall k | k in m :: k in expenses && m[k] == expenses[k] && m[k].userId != id
    ensures forall k | k in expenses && expenses[k].userId != id :: k in m
  {
    map k | k in expenses && expenses[k].userId != id :: expenses[k]
  }

  /** `false` and no change for a missing id; otherwise the user and, by the
      cascade, every expense of theirs are removed, and nothing else. */
  function DeleteUser(s: State, id: int): (r: (bool, State))
    ensures r.0 <==> id in s.users
    ensures !r.0 ==> r.1 == s
    ensures r.0 ==> r.1.users == s.users - {id}
    ensures r.0 ==> forall k | k in r.1.expenses :: r.1.expenses[k].userId != id
    ensures r.0 ==> forall k | k in s.expenses :: (k in r.1.expenses <==> s.expenses[k].userId != id)
    ensures forall k | k in r.1.expenses :: k in s.expenses && r.1.expenses[k] == s.expenses[k]
  {
    if id !in s.users then (false, s)
    else (true, s.(users := s.users - {id}, expenses := ExpensesWithoutOwner(s.expenses, id)))
  }
}
