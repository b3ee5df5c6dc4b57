/** Properties that span several endpoints: a login followed by authenticated
    requests, refresh, registration followed by login, account deletion
    followed by a request with an old token, and the worked examples of the
    monthly summary. */
module Scenarios {
  import opened Wrappers
  import opened Text
  import opened Dates
  import opened Http
  import opened Config
  import opened Models
  import opened Schemas
  import opened Security
  import opened Totals
  import UserRepo
  import ExpenseRepo
  import AuthService
  import UserRouter
  import AuthRouter

  /** With the right password, login succeeds, and until the access token
      expires it resolves to exactly the user who logged in. */
  lemma LoginThenResolve(s: State, cfg: Settings, h: Hasher, k: int, password: string, now: int, later: int)
    requires Valid(s) && SoundHasher(h)
    requires k in s.users && s.users[k].password == HashPassword(h, password)
    requires later < now + AccessTtl(cfg)
    ensures var r := AuthRouter.Login(s, cfg, h, AuthRouter.LoginForm(s.users[k].email, password), now);
            && r.Ok?
            && AuthService.GetCurrentUser(s, cfg, Some(r.value.accessToken), later) == Ok(s.users[k])
  {
    HashThenVerify(h, password);
  }

  /** The refresh token from a login, presented before it expires while the
      user still exists, yields a fresh access token for the same user and
      comes back unchanged. */
  lemma LoginThenRefresh(s: State, cfg: Settings, h: Hasher, k: int, password: string, now: int, later: int)
    requires Valid(s) && SoundHasher(h)
    requires k in s.users && s.users[k].password == HashPassword(h, password)
    requires later < now + RefreshTtl(cfg)
    ensures var login := AuthRouter.Login(s, cfg, h, AuthRouter.LoginForm(s.users[k].email, password), now);
            && login.Ok?
            && var r := AuthRouter.RefreshAccessToken(s, cfg, login.value.refreshToken, later);
            && r.Ok?
            && r.value.refreshToken == login.value.refreshToken
            && r.value.accessToken == CreateAccessToken(cfg, Claims(Some(s.users[k].email), None, None), later)
  {
    HashThenVerify(h, password);
  }

  /** After a successful registration with an address that is not already
      in lower case, the address as typed is held by no user: the new user
      holds its lower-case form and nobody held it before. */
  lemma TypedAddressNotStored(s: State, h: Hasher, uc: UserCreate, created: int)
    requires Valid(s)
    requires UserRouter.CreateUser(s, h, uc, created).0.Ok?
    requires uc.email != Lower(uc.email)
    ensures !UserRepo.EmailTaken(UserRouter.CreateUser(s, h, uc, created).1.users, uc.email)
  {
    var (r, s') := UserRouter.CreateUser(s, h, uc, created);
    var u := r.value;
    forall k | k in s'.users ensures s'.users[k].email != uc.email {
      if k != u.id {
        assert k in s.users && s'.users[k] == s.users[k];
      }
    }
  }

  /** After registering, the user can log in with the lower-cased address,
      but not with the address as typed when that differs from its
      lower-case form. */
  lemma RegisterThenLogin(s: State, cfg: Settings, h: Hasher, uc: UserCreate, created: int, now: int)
    requires Valid(s) && SoundHasher(h)
    requires UserRouter.CreateUser(s, h, uc, created).0.Ok?
    ensures var s' := UserRouter.CreateUser(s, h, uc, created).1;
            AuthRouter.Login(s', cfg, h, AuthRouter.LoginForm(Lower(uc.email), uc.password), now).Ok?
    ensures var s' := UserRouter.CreateUser(s, h, uc, created).1;
            uc.email != Lower(uc.email) ==>
              AuthRouter.Login(s', cfg, h, AuthRouter.LoginForm(uc.email, uc.password), now)
              == Err(AuthRouter.IncorrectCredentials)
  {
    var (r, s') := UserRouter.CreateUser(s, h, uc, created);
    var u := r.value;
    HashThenVerify(h, uc.password);
    assert s'.users[u.id].email == Lower(uc.email);
    if uc.email != Lower(uc.email) {
      TypedAddressNotStored(s, h, uc, created);
    }
  }

  /** Once an account is deleted, a still-unexpired access token issued for
      it is refused: tokens are not revoked, the subject just no longer
      resolves. */
  lemma DeletedAccountTokenRefused(s: State, cfg: Settings, caller: User, issued: int, now: int)
    requires Valid(s)
    requires caller.id in s.users && s.users[caller.id] == caller
    requires now < issued + AccessTtl(cfg)
    ensures var (r, s') := UserRouter.DeleteUser(s, caller, caller.id);
            && r.Ok?
            && AuthService.GetCurrentUser(s', cfg,
                 Some(CreateAccessToken(cfg, Claims(Some(caller.email), None, None), issued)), now)
               == Err(AuthService.CouldNotValidate)
  {
    var (r, s') := UserRouter.DeleteUser(s, caller, caller.id);
    assert !UserRepo.EmailTaken(s'.users, caller.email) by {
      forall k | k in s'.users ensures s'.users[k].email != caller.email {
        assert k in s.users && k != caller.id;
      }
    }
  }

  /** Registering the same payload twice: the second attempt is the 400
      "Email already registered" when the address was sent in lower case,
      and a 500 otherwise, since the stored address is then not the one the
      duplicate check looks for. Neither attempt changes the store. */
  lemma RegisterTwice(s: State, h: Hasher, uc: UserCreate, first: int, second: int)
    requires Valid(s)
    requires UserRouter.CreateUser(s, h, uc, first).0.Ok?
    ensures var s1 := UserRouter.CreateUser(s, h, uc, first).1;
            UserRouter.CreateUser(s1, h, uc, second)
            == if uc.email == Lower(uc.email) then (Err(UserRouter.EmailAlreadyRegistered), s1)
               else (Err(ServerError), s1)
  {
    var (r, s1) := UserRouter.CreateUser(s, h, uc, first);
    var u := r.value;
    assert s1.users[u.id].email == Lower(uc.email);
    assert UserRepo.EmailTaken(s1.users, Lower(uc.email));
    if uc.email != Lower(uc.email) {
      TypedAddressNotStored(s, h, uc, first);
    }
  }

  /** The duplicate check does not fold case: registering "A@x.com" after
      "a@x.com" passes the check and is refused by the unique index, a 500
      rather than the 400 "Email already registered". */
  lemma CaseVariantDuplicateIsServerError(h: Hasher)
    ensures var (r1, s1) := UserRouter.CreateUser(EmptyState, h, UserCreate("A", "a@x.com", "pw"), 0);
            && r1.Ok?
            && UserRouter.CreateUser(s1, h, UserCreate("B", "A@x.com", "pw"), 1) == (Err(ServerError), s1)
  {
    EmptyStateValid();
    assert Lower("a@x.com") == "a@x.com";
    assert Lower("A@x.com") == "a@x.com";
    var (r1, s1) := UserRouter.CreateUser(EmptyState, h, UserCreate("A", "a@x.com", "pw"), 0);
    assert s1.users[1].email == "a@x.com";
    assert !UserRepo.EmailTaken(s1.users, "A@x.com") by {
      forall k | k in s1.users ensures s1.users[k].email != "A@x.com" {
        assert k == 1;
        assert s1.users[k].email[0] != "A@x.com"[0];
      }
    }
    assert UserRepo.EmailTaken(s1.users, "a@x.com");
  }
}
