# Expense tracker: authorisation and record keeping

A Dafny model of the core of a small expense-tracker web service (FastAPI,
SQLAlchemy, bcrypt, PyJWT). Users register, log in for a pair of signed
tokens, and keep a list of dated, categorised expenses, with a per-month,
per-category summary. The model covers:

- the two tables (`users`, `expenses`) and the constraints on them;
- the two repositories;
- the token service and the authentication gateway;
- the three routers (`/users`, `/expenses`, `/auth`), including the order
  of their checks and the exact error each one raises.

The database is an immutable `State`: two maps keyed by id, plus two
counters that stand for the autoincrement keys. Every operation is a pure
function (or, where the source leaves an order open, a method). Operations
that write return the new state alongside their answer. An exception the
handler raises is an `Err(ApiError(status, detail))`. A database
constraint violation at commit time is an `IntegrityError`. When one
escapes a handler the client sees a 500, `ServerError`.

These outside pieces are parameters:

- The password hash is a `Hasher`, any pair of functions. Its one property
  the service relies on, `verify(p, hash(p))`, is the hypothesis
  `SoundHasher`.
- A token is `Signed(key, algorithm, claims)` or `Malformed(text)`.
  Decoding checks, in this order: that the token parses, the key and
  algorithm, and then expiry.
- The clock is a parameter: `now` is seconds for token expiry and `today`
  is the default date of a new expense.

Modules, one per source component:

| module | models |
|---|---|
| `Wrappers`, `Http`, `Text`, `Dates`, `Config` | option/result, error responses, `str.lower`/`str.strip`, date order, token lifetimes |
| `Models`, `Schemas` | the ORM tables and their invariant `Valid`; request bodies and validation |
| `Totals` | sums of amounts over sets of expenses, grouping by stored category |
| `ExpenseRepo`, `UserRepo` | the two repositories |
| `Security`, `AuthService` | hashing, token issue and verification, the current-user gateway |
| `UserRouter`, `ExpenseRouter`, `AuthRouter` | the HTTP handlers |
| `Scenarios`, `SummaryFacts` | properties across several calls, and worked summary examples |

Behaviour the model keeps as the code has it:

- **Registration and e-mail case.** The registration handler checks for a
  duplicate with an exact lookup of the address as sent, but the store
  keeps it lower-cased. So a case variant of a registered address passes
  the check, the unique index refuses it, and the answer is a 500, not the
  400 "Email already registered". The handler's own documentation
  (app/routers/users.py:25) promises a 400 whenever the address is already
  registered, and its test (tests/test_users.py:20-33) uses only a
  lower-case address. The model follows the code; see
  `Scenarios.CaseVariantDuplicateIsServerError` and
  `Scenarios.RegisterTwice`.
- **Login uses the address verbatim.** Login looks the address up exactly
  as typed. After registering with upper-case letters, the address as typed
  no longer logs in (`Scenarios.RegisterThenLogin`).
- **Updates are not normalised.** A user update stores a new e-mail as
  sent: not lower-cased, and a new name is not stripped. An expense update
  may send an explicit `null`. For amount, description or date, that is a
  NOT NULL violation, so a 500.
- **Unreachable refresh message.** The refresh handler's "Invalid or
  expired refresh token" branch and the gateway's first "Could not validate
  credentials" branch cannot be reached. Verification either fails with its
  own 401 or returns a subject. The model has no counterpart for them. The
  "User not found" and second "Could not validate credentials" branches are
  modelled.
- **The expense 400 branches never fire.** The expense handlers' 400
  "Failed to update/delete expense" branches are modelled, and proved never
  to fire.
- **NULL and "" categories.** A NULL category and an empty one are
  distinct groups of the `GROUP BY`, and both are labelled
  "Uncategorized", so a summary can hold two entries with that label
  (`SummaryFacts.TwoUncategorizedEntries`).

## Model

| member | source | states |
|---|---|---|
| Text.Lower | app/repository/user_repo.py:33 | same length, no upper-case letter left, other characters kept, each upper-case letter mapped to its lower-case form |
| Text.LowerIdempotent | app/repository/user_repo.py:33 | lower-casing a stored (already lower-cased) address again changes nothing |
| Text.LowerFixedPoint | app/repository/user_repo.py:33 | an address is stored unchanged exactly when it has no upper-case letter |
| Text.Strip | app/repository/user_repo.py:32 | the result is the infix left after dropping all leading and trailing whitespace; it neither starts nor ends with whitespace; it is empty iff the name is all whitespace |
| Text.StripIdempotent | app/repository/user_repo.py:32 | stripping a stored name again changes nothing |
| Dates.OnOrBeforeTotal | app/repository/expense_repo.py:27 | any two expense dates are comparable, so the listing order is defined |
| Dates.OnOrBeforeTransitive | app/repository/expense_repo.py:27 | the date order is transitive |
| Dates.OnOrBeforeAntisymmetric | app/repository/expense_repo.py:27 | two dates each on or before the other are the same date (ties are only between equal dates) |
| Config.DefaultLifetimes | app/core/config.py:20-23 | with the default settings an access token lives 3600 s and a refresh token 604800 s |
| Security.HashThenVerify | app/utils/security.py:16-27 | for a sound hasher a password verifies against its own hash |
| Security.Decode | app/utils/security.py:57 | the library accepts exactly a token signed with the configured key and algorithm whose `exp` has not passed, and returns its claims; it reports expiry only for a correctly signed token |
| Security.VerifyScoped | app/utils/security.py:56-79 | success iff authentic, unexpired, matching scope and a subject, returning the subject; every failure is 401, "expired" only for a signed expired token |
| Security.VerifyAccessToken | app/utils/security.py:51-79 | accepts exactly authentic unexpired access-scope tokens with a subject and returns that subject; otherwise 401 "Access token has expired" for a signed expired token and "Invalid access token" for everything else |
| Security.VerifyRefreshToken | app/utils/security.py:93-121 | the same for refresh-scope tokens with "Refresh token has expired" / "Invalid refresh token" |
| Security.CreateAccessToken | app/utils/security.py:40-48 | a token signed with the configured key and algorithm that keeps the caller's subject and always carries `exp = now + 60·minutes` and scope "access_token", overriding whatever `exp`/`scope` the caller passed |
| Security.CreateRefreshToken | app/utils/security.py:82-90 | the same with `exp = now + 86400·days` and scope "refresh_token" |
| Security.AccessTokenLifetime | app/utils/security.py:40-79 | verifying a freshly issued access token yields its subject exactly until `issued + 60·minutes`, and from then on answers "Access token has expired" |
| Security.RefreshTokenLifetime | app/utils/security.py:82-121 | verifying a freshly issued refresh token yields its subject exactly until `issued + 86400·days`, then "Refresh token has expired" |
| Security.ScopeSeparation | app/utils/security.py:51-121 | a refresh token is never accepted as an access token, nor an access token as a refresh token; while unexpired each is reported invalid |
| Security.ExpiryReportedBeforeScope | app/utils/security.py:56-73 | an expired refresh token presented as an access token gets "Access token has expired", since expiry is checked before scope |
| Security.MalformedIsInvalid | app/utils/security.py:74-79 | a string that is not a token is "Invalid access token" / "Invalid refresh token", never "expired" |
| Security.ForeignKeyIsInvalid | app/utils/security.py:56-79 | a token signed with another key or algorithm is invalid even after its expiry |
| Totals.SumAmountsUnion | app/repository/expense_repo.py:75 | the sum over two disjoint sets of expenses is the sum of their sums |
| Totals.SumAmountsPositive | app/repository/expense_repo.py:75 | a sum of positive amounts over a non-empty set is positive |
| ExpenseRepo.GetExpenseById | app/repository/expense_repo.py:18-20 | returns a stored expense with exactly that id, and none only when no stored expense has it |
| ExpenseRepo.InsertNewestFirst | app/repository/expense_repo.py:27 | inserting into a newest-first list keeps it newest first and adds exactly that expense |
| ExpenseRepo.GetExpensesByUserId | app/repository/expense_repo.py:22-29 | every expense of the user exactly once and nothing else, dates non-increasing, ties in any order |
| ExpenseRepo.CreateExpense | app/repository/expense_repo.py:31-43 | one new expense under a fresh id, owned by the given user, with the sent fields and the date defaulting to today; all other expenses and all users unchanged |
| ExpenseRepo.ApplyExpenseUpdate | app/repository/expense_repo.py:51-55 | fails iff a NOT NULL field is sent as null; otherwise id and owner kept, each sent field takes the sent value and each unsent field keeps its old one |
| ExpenseRepo.UpdateExpense | app/repository/expense_repo.py:45-57 | a missing id gives None with no change; a failed commit changes nothing; otherwise only that row changes, to the patched expense |
| ExpenseRepo.DeleteExpense | app/repository/expense_repo.py:59-66 | true iff the id was stored; exactly that expense is removed and nothing else changes |
| ExpenseRepo.Labelled | app/repository/expense_repo.py:86-92 | one entry per grouped row, and the entries' totals add up to the groups' totals |
| ExpenseRepo.LabelledAt | app/repository/expense_repo.py:86-92 | entry i carries the label of row i's category ("Uncategorized" for NULL or empty) and row i's sum |
| ExpenseRepo.SumByCategory | app/repository/expense_repo.py:74-82 | a map from each stored category present to the sum of that category's amounts, and no other key |
| ExpenseRepo.EmitGroups | app/repository/expense_repo.py:72-84 | the map's entries as rows: one per category, no duplicates, each the group's sum; the rows add up to the total of all amounts |
| ExpenseRepo.GroupByCategory | app/repository/expense_repo.py:72-84 | a GROUP BY category with SUM(amount) of the given set, empty iff the set is |
| ExpenseRepo.GetMonthlyExpensesByCategory | app/repository/expense_repo.py:70-92 | the labelled grouping of exactly the user's expenses of that year and month; empty iff there are none; totals add up to their spending |
| UserRepo.GetUserById | app/repository/user_repo.py:17-19 | a stored user with exactly that id, or none when no stored user has it |
| UserRepo.GetUserByEmail | app/repository/user_repo.py:21-23 | found iff some user's stored address is exactly the one asked for (no case folding), and then it is that user |
| UserRepo.CreateUser | app/repository/user_repo.py:27-40 | refused iff the lower-cased address is already stored (unique index); otherwise a new user under a fresh id with the address lower-cased, the name stripped, the password hashed and no refresh token; only that user is added |
| UserRepo.ApplyUserUpdate | app/repository/user_repo.py:50-55 | sent fields replace the old ones (a password as its hash, an address and a name exactly as sent), unsent fields and the id are kept |
| UserRepo.UpdateUser | app/repository/user_repo.py:44-59 | missing id gives None with no change; refused iff the new address belongs to another user; otherwise only that user changes, to the patched one |
| UserRepo.ExpensesWithoutOwner | app/db/models.py:33-37 | exactly the expenses not owned by the removed user survive, unchanged |
| UserRepo.DeleteUser | app/repository/user_repo.py:63-70 | true iff the id was stored; then that user and every expense of theirs are removed and nothing else; otherwise no change |
| AuthService.AuthenticateUser | app/services/auth_service.py:13-21 | a user iff some stored address equals the given one exactly and the password verifies against that user's hash, and then it is that user |
| AuthService.GetCurrentUser | app/services/auth_service.py:28-51 | no header gives "Not authenticated"; a failing token gives the verifier's 401; a valid token whose subject is no stored address gives 401 "Could not validate credentials"; success iff the token verifies and its subject is a stored address exactly, returning that user; every failure is 401 |
| UserRouter.CreateUser | app/routers/users.py:22-35 | an address stored exactly as sent gives 400 with no change; a case variant of a stored one gives 500 with no change; otherwise exactly one user is added, with the address lower-cased, the name stripped and the password hashed, and every other row is unchanged, and `created_at` is the current time; the store stays valid |
| UserRouter.ReadUser | app/routers/users.py:44-64 | an unknown id gives 404 before any ownership check; someone else's id gives 403; otherwise the stored user |
| UserRouter.UpdateUser | app/routers/users.py:73-96 | anyone but the owner gets 403 with no change, whether or not the id exists; then a missing record is 404; otherwise the patched user, or 500 if the new address is taken; the store stays valid |
| UserRouter.DeleteUser | app/routers/users.py:105-124 | anyone but the owner gets 403 with no change; a missing record is 404; otherwise success: the user and exactly their expenses are gone, and every other user and expense is unchanged; the store stays valid |
| ExpenseRouter.CreateExpense | app/routers/expense.py:22-32 | always succeeds with a new expense owned by the caller, carrying the sent amount, description and category and the sent date or else today; nothing else changes; a valid body keeps the store valid |
| ExpenseRouter.ReadExpense | app/routers/expense.py:41-57 | the stored expense iff the caller owns it; absent and foreign ids both give 404 "Expense not found" |
| ExpenseRouter.ReadExpensesByUser | app/routers/expense.py:66-74 | every stored expense of the caller exactly once, only the caller's, newest first |
| ExpenseRouter.UpdateExpense | app/routers/expense.py:83-108 | absent or foreign gives 404 with no change; the 400 never occurs; otherwise the patched expense or 500 for an explicit null; no other user's expense changes; a valid patch keeps the store valid |
| ExpenseRouter.DeleteExpense | app/routers/expense.py:117-142 | absent or foreign gives 404 with no change; otherwise exactly that expense is removed; the 400 never occurs; no other user's expense is touched |
| ExpenseRouter.GetMonthlyExpensesSummary | app/routers/expense.py:150-166 | echoes the requested year and month, with the monthly summary of the caller's own expenses |
| ExpenseRouter.DeleteThenReadIsNotFound | app/routers/expense.py:135-142 | after a successful delete, reading the same id gives 404 |
| ExpenseRouter.ForeignLooksAbsent | app/routers/expense.py:51-56 | for read, update and delete, a foreign id gives exactly the answer and state of an absent one |
| AuthRouter.Login | app/routers/auth.py:24-45 | success iff some user's address equals the form's username exactly and the password verifies; both tokens then carry that address as subject, type "bearer"; every failure is the same 401 "Incorrect email or password" |
| AuthRouter.RefreshAccessToken | app/routers/auth.py:50-80 | a token failing refresh verification gets the verifier's 401; an unknown subject gets 401 "User not found"; otherwise a new access token for the subject and the refresh token back unchanged |
| Scenarios.LoginThenResolve | app/services/auth_service.py:28-51 | after logging in with the right password, the access token resolves to exactly that user until it expires |
| Scenarios.LoginThenRefresh | app/routers/auth.py:50-80 | the refresh token from a login, presented before expiry, yields a fresh access token for the same user and comes back unchanged |
| Scenarios.TypedAddressNotStored | app/repository/user_repo.py:33 | after a successful registration with upper-case letters in the address, no user holds the address as typed |
| Scenarios.RegisterThenLogin | app/routers/auth.py:33 | a new user can log in with the lower-cased address, but not with the address as typed when that has upper-case letters |
| Scenarios.RegisterTwice | tests/test_users.py:20-33 | registering the same payload twice gives 400 the second time when the address is lower-case, and 500 otherwise |
| Scenarios.DeletedAccountTokenRefused | app/services/auth_service.py:41-49 | after an account is deleted, an unexpired access token for it gets 401 "Could not validate credentials" |
| Scenarios.CaseVariantDuplicateIsServerError | app/routers/users.py:29-35 | registering "A@x.com" after "a@x.com" gives 500, not 400, and changes nothing |
| SummaryFacts.SummarySize | app/repository/expense_repo.py:72-92 | a summary has one entry per distinct stored category of the month, so none for an empty month |
| SummaryFacts.SummaryTotalsPositive | app/repository/expense_repo.py:75 | in a well-formed store every summary entry has a positive total |
| SummaryFacts.TwoCategorySummary | app/repository/expense_repo.py:70-92 | a month with exactly two stored categories gives two entries, one per category with its sum |
| SummaryFacts.OctoberSummary | tests/test_expenses.py:110-114 | for the listing test's three October expenses, plus another month and another user, the summary is Food 45 and Housing 100 |
| SummaryFacts.TwoUncategorizedEntries | app/repository/expense_repo.py:88 | a NULL and an empty category give two separate entries, both labelled "Uncategorized" |

## Left out

- bcrypt: the salted, non-deterministic hash is not modelled. A hash is any function, and only `verify(p, hash(p))` is assumed, as the hypothesis `SoundHasher`.
- PyJWT: encoding, the signature algorithm and the claim format are not modelled. A token is a datatype that records its key and algorithm. Expiry follows the library's rule without leeway: a token is expired once `exp <= now`.
- Clocks: `datetime.now()` and `date.today()` are parameters. Token times are whole seconds, and `created_at` is the clock value passed in.
- Floating point: amounts are `real`, so the `float(...)` of the summary and any rounding in sums are not modelled.
- Text.Lower and Text.Strip: only ASCII case mapping and ASCII whitespace are modelled, not Python's full Unicode tables.
- SQLAlchemy: sessions, commit/refresh and lazy loading are not modelled. The autoincrement keys are modelled as counters that only grow. On the default SQLite database the `id INTEGER PRIMARY KEY` columns have no AUTOINCREMENT, so after the row with the highest id is deleted SQLite hands that id out again; the model never reuses an id. The contracts rely only on a new id being unused at the time of the insert, which holds either way.
- Response projection: the user endpoints answer through a response schema that leaves out the password hash. The model returns the stored `User`, hash included; which fields reach the client is not modelled.
- Startup and wiring: routing, dependency injection, environment loading, CORS and the database URL are not modelled. `Settings` is a parameter with the documented defaults.
- The `OAuth2PasswordBearer` header parsing is not modelled. A missing header is `bearer == None`, and a header that is present is a token.
- The user request schemas and the password-strength validator: `app/schemas/user.py` is not part of this model. `UserCreate`/`UserUpdate` carry plain strings, so the model does not say how those schemas treat an explicit null. Whatever normalisation the schema's e-mail type applies before the handler runs (for instance a lower-cased domain part) is not modelled either: the e-mail case behaviour above is stated for the address the handler receives.
- UserRepo.CreateUser: does not enforce the 50- and 100-character column sizes of name and e-mail. The default SQLite database does not enforce `String(n)` either.
- The race between the duplicate pre-check and the insert of two concurrent registrations is not modelled (it is concurrency).
- ExpenseRepo.GetMonthlyExpensesByCategory: the order of the summary entries is left open, as the query has no ORDER BY. The contract fixes the entries only up to order.
- ExpenseRouter.CreateExpense: keeps `Valid` only for a body that passes validation and a caller that is a stored user. The router gets both from the framework, and the model takes them as hypotheses.
- ExpenseRouter.UpdateExpense: keeps `Valid` only for a patch that passes validation.
