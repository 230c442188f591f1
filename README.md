# fastAlchemy expense tracker — a Dafny model

fastAlchemy is a small expense tracker. A FastAPI backend keeps users and their
expenses in a SQL database through SQLAlchemy and authenticates requests with
bcrypt-hashed passwords and signed JWT bearer tokens. A React frontend keeps the
login state in `localStorage`, lists a user's expenses, lets the user add one,
and draws a pie chart of the totals per category.

This project models that core and proves properties of the model:

- `wrappers.dfy`: `Option` and `Result`.
- `py_text.dfy`: Python's `str()` of an integer, and a proof that distinct
  integers print differently.
- `utils.dfy` (`fast_backend/app/utils/utils.py`):
  - password hashing and verification;
  - token creation (claims copied, `exp` and a string `sub` added);
  - token decoding as PyJWT does it: the key and algorithm must match, an
    an `exp` must be an integer that lies in the future, and a missing or non-string `sub` is
    refused. Every failure becomes `401 "Invalid token"`.
- `user_model.dfy` (`fast_backend/app/models/user_model.py`):
  - the `User` and `Expense` rows with their timestamps;
  - the `Database` class holding both tables, the clock and the autoincrement
    counters;
  - the store invariant: unique ids, usernames and emails, the foreign key
    from expense to user, and timestamps no later than the clock;
  - the cascade that deletes a user's expenses with the user.
- `expense_route.py` and `auth_route.py` (in `expense_route.dfy` and
  `auth_route.dfy`): the route handlers, as methods that take the database the
  way the handlers take their `Session`.
- `user_context.dfy` (`frontend/src/context/UserContext.tsx`): the
  `AuthProvider` state machine over `user`, `token`, `loading` and
  `localStorage`.
- `create_expense.dfy` (`frontend/src/components/CreateExpense.tsx`): the
  de-duplicated category list, the submission check and the form fields.
- `expense_pie_chart.dfy` (`frontend/src/components/ExpensePieChart.tsx`): the
  group-by-category `reduce` and the slice colours.

Hashing and signing are symbolic. A hash is the term `Bcrypt(salt, password)`,
and a token is the term `Jws(claims, key, algorithm)`, so a hash verifies only
its own password and a token decodes only under its own key and algorithm. No
bcrypt or HMAC bytes are modelled. The clock, the salt, the secret key and
algorithm, `Date.now()`, `jwtDecode` and `JSON.parse` are parameters.

SQLAlchemy's `onupdate` refreshes `updated_at` only when the flush changes some
column value. A commit that changes nothing emits no `UPDATE`. The model follows
this ORM behaviour: repeating an identical update leaves every field unchanged,
the timestamps included. A looser reading of the design says that the update
timestamp changes on every update; the code does not behave that way.

## Model

| member | source | states |
|---|---|---|
| PyText.IntStr | fast_backend/app/utils/utils.py:35 | `str()` of an integer is non-empty and starts with `-` exactly when the integer is negative |
| PyText.IntStrInjective | fast_backend/app/utils/utils.py:35 | two integers with the same `str()` are equal, so the string subject names one user id |
| Utils.HashPassword | fast_backend/app/utils/utils.py:21-27 | the hash of a password verifies that password and no other; bcrypt's 72-byte truncation and passlib's refusal of NUL are not modelled (see "## Left out") |
| Utils.VerifyPassword | fast_backend/app/utils/utils.py:26-27 | a password verifies against a bcrypt hash only if it is the password that hash was made from; any other password fails, which bcrypt guarantees for passwords of at most 72 UTF-8 bytes |
| Utils.Get | fast_backend/app/utils/utils.py:35 | `dict.get`: the value under a present key, `None` for a missing one |
| Utils.Str | fast_backend/app/utils/utils.py:35 | Python's `str()` of a claim: a string unchanged, an integer in decimal, `None` as `"None"` |
| Utils.SaltedHashesDiffer | fast_backend/app/utils/utils.py:21-27 | the same password under two salts gives two different hashes, and both verify |
| Utils.CreateAccessToken | fast_backend/app/utils/utils.py:29-38 | the token is signed with the configured key and algorithm; its claims are the input's plus `exp = now + delta` (one hour by default) and `sub = str(data.get("sub"))`; every other claim is copied unchanged |
| Utils.JwtDecode | fast_backend/app/utils/utils.py:43 | a successful decode returns exactly the claims that were signed |
| Utils.DecodeToken | fast_backend/app/utils/utils.py:40-55 | every failure is `401 "Invalid token"`; a success means the token carries the configured key and algorithm, a string `sub` equal to the result, and an `exp` (if present) later than now |
| Utils.DecodeIssued | fast_backend/app/utils/utils.py:29-55 | for claims without `aud`, `iat` or `nbf`, decoding a freshly issued token gives back `str(sub)` while `now < issuedAt + delta`, and `401` from then on |
| Utils.ForeignKeyRejected | fast_backend/app/utils/utils.py:40-55 | a token signed under another key or algorithm is refused with `401` |
| Utils.GarbledRejected | fast_backend/app/utils/utils.py:51-55 | a token that is not a well-formed JWS is refused with `401` |
| Utils.MissingSubjectRejected | fast_backend/app/utils/utils.py:44-49 | a correctly signed token without `sub` is refused with `401 "Invalid token"` |
| Utils.SubjectIdentifiesUser | fast_backend/app/utils/utils.py:35-50 | a token issued for user id `n` decodes to `str(n)` before it expires, and to the string of no other id |
| UserModel.OwnedBy | fast_backend/app/models/user_model.py:44 | a user's expenses are exactly the store's rows with that `user_id`, in store order |
| UserModel.NotOwnedBy | fast_backend/app/models/user_model.py:69 | what the cascade keeps: exactly the rows owned by someone else |
| UserModel.NotOwnedByKeepsUnique | fast_backend/app/models/user_model.py:65 | removing a user's rows keeps expense ids unique |
| UserModel.UsersExcept | fast_backend/app/models/user_model.py:39 | deleting a user keeps exactly the other users |
| UserModel.UsersExceptKeepsUnique | fast_backend/app/models/user_model.py:39-41 | deleting a user keeps ids, usernames and emails unique |
| UserModel.Consistent | fast_backend/app/models/user_model.py:39-69 | the declared constraints: unique user ids, usernames and emails; unique expense ids; every expense's `user_id` names a user; every stored password is a bcrypt hash; timestamps no later than the clock; used keys below the counters. From these, every expense's owner id lies below the user counter |
| UserModel.ConsistentAppendExpense | fast_backend/app/models/user_model.py:65-69 | inserting an expense with the next id, an existing owner and fresh timestamps keeps the store invariant |
| UserModel.ConsistentReplaceExpense | fast_backend/app/models/user_model.py:65-69 | rewriting a row in place, with the same id and owner and valid timestamps, keeps the store invariant |
| UserModel.ConsistentRemoveExpense | fast_backend/app/models/user_model.py:65-69 | deleting any one expense row keeps the store invariant |
| UserModel.ConsistentAppendUser | fast_backend/app/models/user_model.py:39-42 | inserting a user with the next id, a new username and email, and a bcrypt hash keeps the store invariant |
| UserModel.Database.constructor | fast_backend/app/models/user_model.py:22-71 | the empty store satisfies the invariant, and both autoincrement counters start at 1 |
| UserModel.Database.Tick | fast_backend/app/models/user_model.py:18-19 | advancing the clock behind `func.now()` keeps the invariant and changes nothing else |
| UserModel.Database.DeleteUser | fast_backend/app/models/user_model.py:44 | deleting a user removes exactly that user and, by `delete-orphan` cascade, exactly that user's expenses; the invariant holds afterwards; every other user's list is unchanged |
| UserModel.CascadeKeepsConstraints | fast_backend/app/models/user_model.py:44-69 | the cascade keeps every constraint and leaves the deleted user no expenses |
| UserModel.CascadeKeepsForeignKeys | fast_backend/app/models/user_model.py:69 | after the cascade, every remaining expense still has an existing owner |
| UserModel.NoneLeft | fast_backend/app/models/user_model.py:44 | after the cascade, nothing is owned by the deleted user |
| UserModel.OwnedByNotOwnedBy | fast_backend/app/models/user_model.py:69 | the cascade for one user leaves every other user's expense list exactly as it was |
| ExpenseRoute.FindOwned | fast_backend/app/routes/expense_route.py:56-58 | `.first()` of the id-and-owner filter: the first matching row if there is one, and `None` exactly when no row matches |
| ExpenseRoute.ForeignRowHidden | fast_backend/app/routes/expense_route.py:83-88 | another user's expense is never found, so it answers exactly like a missing id |
| ExpenseRoute.Patch | fast_backend/app/routes/expense_route.py:63-70 | a supplied field is overwritten and an absent one kept; the id, the owner and the timestamps are kept; a description is never cleared back to `None` |
| ExpenseRoute.Updated | fast_backend/app/models/user_model.py:19 | the patched row; `created_at` is kept; `updated_at` becomes now only if some value changed, and is kept otherwise |
| ExpenseRoute.UpdateIdempotent | fast_backend/app/routes/expense_route.py:63-72 | applying the same update twice gives the same row as applying it once, timestamps included |
| ExpenseRoute.DeletedMessage | fast_backend/app/routes/expense_route.py:93-98 | the confirmation names the deleted row's category and then its description (`None` when it has none) |
| ExpenseRoute.GetUserExpenses | fast_backend/app/routes/expense_route.py:21-27 | the listing is the acting user's expenses in store order, contains every one of them, and holds no other user's row |
| ExpenseRoute.CreateExpense | fast_backend/app/routes/expense_route.py:30-46 | appends one row with the next id, the request's fields, the acting user as owner and both timestamps set to now; the owner's list grows by that row, every other list is unchanged, and the invariant holds; an owner that is not a user is a foreign-key failure (500) with the store unchanged |
| ExpenseRoute.UpdateExpense | fast_backend/app/routes/expense_route.py:49-74 | with no row matching the id and owner, fails `404 "Expense doesn't exist"` and changes nothing; otherwise replaces exactly that row by its update and returns it |
| ExpenseRoute.DeleteExpense | fast_backend/app/routes/expense_route.py:77-98 | with no row matching the id and owner, fails `404` and changes nothing; otherwise removes exactly that row, returns its message, and the id leaves the owner's list; every other user's list is unchanged |
| ExpenseRoute.RemovedIdGone | fast_backend/app/routes/expense_route.py:90-91 | with unique ids, deleting a row leaves no row carrying its id |
| AuthRoute.FindByEmail | fast_backend/app/routes/auth_route.py:43 | the first user with that email, or `None` exactly when there is none |
| AuthRoute.TokenFor | fast_backend/app/routes/auth_route.py:93 | the issued token decodes to the user's id as a string for one hour and is refused after |
| AuthRoute.Signup | fast_backend/app/routes/auth_route.py:28-67 | a taken email fails `400 "Email already exists"` with the store unchanged; a taken username fails with 500 (unique constraint) with the store unchanged; otherwise exactly one user is appended with the next id, the hash of the password and fresh timestamps, and a bearer token for that user is returned |
| AuthRoute.Signin | fast_backend/app/routes/auth_route.py:70-98 | on a consistent store, reads only; fails `401 "Invalid email or password"` exactly when no user has that email or the password does not verify; otherwise returns the user found by that email and a bearer token for it |
| AuthRoute.SignupTwice | fast_backend/app/routes/auth_route.py:43-48 | of two signups with the same email, at most one succeeds |
| CreateExpense.CategoryList | frontend/src/components/CreateExpense.tsx:27 | `expenses.map(exp => exp.category)`, index by index |
| CreateExpense.Distinct | frontend/src/components/CreateExpense.tsx:27 | `Array.from(new Set(...))` holds each category of the input exactly once and nothing else |
| CreateExpense.Categories | frontend/src/components/CreateExpense.tsx:27 | the dropdown's categories: no duplicates, and exactly the categories of the listed expenses |
| CreateExpense.ChosenCategory | frontend/src/components/CreateExpense.tsx:25-38 | `customValue` when `Custom` is selected, `selected` otherwise |
| CreateExpense.AmountTruthy | frontend/src/components/CreateExpense.tsx:40 | `!!amount`: false for `''`, `NaN` and 0, true for any other number |
| CreateExpense.DistinctFirstSeenOrder | frontend/src/components/CreateExpense.tsx:27 | the distinct categories keep the order of their first occurrence |
| CreateExpense.Submission | frontend/src/components/CreateExpense.tsx:38-49 | a payload is sent exactly when the chosen category, the amount and the description are all truthy; it carries `customValue` when `Custom` is selected and `selected` otherwise, the numeric amount and the description |
| CreateExpense.ExpenseForm.constructor | frontend/src/components/CreateExpense.tsx:21-24 | the form starts cleared |
| CreateExpense.ExpenseForm.ClearFields | frontend/src/components/CreateExpense.tsx:30-35 | `selected`, `customValue` and `description` become `''` and `amount` becomes 0 |
| CreateExpense.ExpenseForm.HandleSubmit | frontend/src/components/CreateExpense.tsx:37-67 | sends the submission; the fields are cleared only after a successful post, and kept on a rejected submission or a failed post |
| ExpensePieChart.GroupsOf | frontend/src/components/ExpensePieChart.tsx:25 | each group's amount is the sum of the amounts of the rows in its category |
| ExpensePieChart.Grouped | frontend/src/components/ExpensePieChart.tsx:17-28 | the intended chart data: one group per category in first-seen order, each carrying the sum of its category's amounts |
| ExpensePieChart.AccumulateStep | frontend/src/components/ExpensePieChart.tsx:18-26 | one call of the `reduce` callback keeps the accumulator's keys equal to the categories seen so far, in first-seen order, each mapped to its running total |
| ExpensePieChart.GroupByCategory | frontend/src/components/ExpensePieChart.tsx:17-28 | the chart data is one group per category, in first-seen order, with that category's total (the corrected accumulator, see Findings) |
| ExpensePieChart.GroupedCategories | frontend/src/components/ExpensePieChart.tsx:18-24 | each category appears in exactly one group, and the groups' categories are exactly the input's |
| ExpensePieChart.GroupedEmpty | frontend/src/components/ExpensePieChart.tsx:27 | no expenses give no groups |
| ExpensePieChart.SumGroupsTotal | frontend/src/components/ExpensePieChart.tsx:25 | over any duplicate-free key list that covers every category, the group amounts add up to the sum of all amounts |
| ExpensePieChart.GroupedTotal | frontend/src/components/ExpensePieChart.tsx:25 | the slices add up to the sum of all expense amounts |
| ExpensePieChart.ReduceAsWritten | frontend/src/components/ExpensePieChart.tsx:18-27 | the accumulator as written on a plain `{}`: its own keys are its key list, and none of them is an inherited `Object.prototype` name |
| ExpensePieChart.GroupedAsWritten | frontend/src/components/ExpensePieChart.tsx:17-28 | the data as written never holds a group named like an inherited property |
| ExpensePieChart.InheritedCategoryDropped | frontend/src/components/ExpensePieChart.tsx:19-25 | one expense of 5.0 in category `toString` gives no data as written, instead of one group of 5.0 |
| ExpensePieChart.AsWrittenAccumulates | frontend/src/components/ExpensePieChart.tsx:18-27 | away from the inherited names, the accumulator as written holds each category seen, in first-seen order, with its total |
| ExpensePieChart.AsWrittenAgrees | frontend/src/components/ExpensePieChart.tsx:17-28 | when no category is an inherited name, the accumulator as written gives exactly the intended groups, in first-seen order; the integer-like-key ordering of `Object.values` is not modelled (see "## Left out") |
| ExpensePieChart.SliceColor | frontend/src/components/ExpensePieChart.tsx:44 | `COLORS[index % COLORS.length]` is always one of the five palette colours, and the first five slices take them in order |
| UserContext.Stringify | frontend/src/context/UserContext.tsx:75 | the stored user text is never empty (so it is truthy) and holds the username between a fixed opening and closing |
| UserContext.StringifyInjective | frontend/src/context/UserContext.tsx:75 | two different users are never stored as the same text |
| UserContext.Stored | frontend/src/context/UserContext.tsx:45-48 | `localStorage.getItem(key)` is truthy exactly when the key is present with a non-empty value |
| UserContext.Expired | frontend/src/context/UserContext.tsx:51 | `exp * 1000 < Date.now()`: a token without `exp` never expires, and `exp * 1000 == now` is still unexpired |
| UserContext.StartupAsWritten | frontend/src/context/UserContext.tsx:44-71 | the mount effect as written: `loading` is still true afterwards exactly when it was true and a stored token decoded as expired |
| UserContext.Startup | frontend/src/context/UserContext.tsx:44-71 | the corrected effect always ends loading. Storage loses both entries exactly on an expired token. With no stored token, user and token are untouched. With a stored token, the token is restored exactly when it decodes, is unexpired and any stored user parses. In that case a stored user is restored exactly when it parses to an object (and `null` clears it); a user is never restored from anything else. |
| UserContext.LoginState | frontend/src/context/UserContext.tsx:74-79 | after `login`, the user and token are set, both storage entries are written with the stringified user and the token, other entries are untouched, someone is logged in, and `loading` is unchanged |
| UserContext.LogoutState | frontend/src/context/UserContext.tsx:81-86 | after `logout`, both storage entries are gone, other entries are untouched, user and token are null, nobody is logged in, and `loading` is unchanged |
| UserContext.LoggedInIgnoresToken | frontend/src/context/UserContext.tsx:88 | `isLoggedIn` depends on the user alone, never on the token |
| UserContext.ReloadAfterLogin | frontend/src/context/UserContext.tsx:44-79 | a page load after `login` with a non-empty, unexpired token restores the same user and token and finishes loading |
| UserContext.ReloadAfterLogout | frontend/src/context/UserContext.tsx:44-86 | a page load after `logout` restores nobody and finishes loading, whatever the decoder says |
| UserContext.StaleTokenRejected | frontend/src/context/UserContext.tsx:48-68 | a stored token that is expired or undecodable never restores a user or a token |
| UserContext.ExpiredTokenKeepsLoading | frontend/src/context/UserContext.tsx:51-59 | as written, mounting with an expired stored token leaves `loading` true, while the corrected effect ends it |
| UserContext.AuthProvider.constructor | frontend/src/context/UserContext.tsx:40-42 | mounting starts with no user, no token and `loading` true |
| UserContext.AuthProvider.RestoreSession | frontend/src/context/UserContext.tsx:44-71 | the effect changes the state and storage exactly as `Startup` says |
| UserContext.AuthProvider.Login | frontend/src/context/UserContext.tsx:74-79 | changes the state and storage exactly as `LoginState` says |
| UserContext.AuthProvider.Logout | frontend/src/context/UserContext.tsx:81-86 | changes the state and storage exactly as `LogoutState` says |
| UserContext.AuthProvider.IsLoggedIn | frontend/src/context/UserContext.tsx:88 | `!!user` |

## Left out

- bcrypt and HS256 bytes. Hashing and signing are symbolic terms, so the model cannot show a collision or a forged signature.
- PyJWT's checks of `nbf`, `iat`, `aud` and `iss`, and the `algorithms` list beyond the single configured algorithm. The tokens issued by the routes carry none of those claims, and Utils.DecodeIssued is stated only for claims without `aud`, `iat` or `nbf`.
- Utils.HashPassword: bcrypt reads only the first 72 UTF-8 bytes of a password, and passlib's default `truncate_error=False` truncates silently, so two passwords that share their first 72 bytes verify against each other's hash. The symbolic hash keeps the whole password and does not show this. passlib also refuses a password containing a NUL character with a `ValueError`, which `signup` and `signin` do not catch (a 500); the model hashes such a password like any other. Utils.VerifyPassword and AuthRoute.Signup inherit both differences.
- Utils.JwtDecode: PyJWT converts `exp` with `int()`, so it accepts a numeric string or a float and raises an uncaught `TypeError` (a 500) on `null`. The model refuses every `exp` that is not an integer claim with 401. Only tokens signed with the secret key reach this check, and `create_access_token` always writes an integer `exp`, so no route reaches the difference.
- Utils.JwtDecode: rejecting a non-string `sub` is the behaviour of PyJWT 2.10 and later. Earlier versions accept it, and `decode_token` then returns the non-string value.
- Utils.VerifyPassword: on a hash that passlib cannot identify, `verify` raises `ValueError`, and `signin` would answer 500. The model returns `false` instead. The store invariant `UserModel.Consistent` admits only bcrypt hashes, and every stored hash comes from `hash_password`, so that case cannot arise on a consistent store.
- The secret key and algorithm read from the environment. They are a `Config` parameter.
- Server time. `datetime.utcnow()` and `func.now()` are integer seconds, and the frontend's `Date.now()` is integer milliseconds.
- Floating point. Amounts are `real`. The model makes no claim about rounding, summation order or `toFixed(2)`.
- `get_db`, FastAPI routing and dependency injection, `OAuth2PasswordBearer`, CORS and `main.py`: this is wiring.
- The `print` calls in the handlers, and `db.refresh`.
- Pydantic schemas and `EmailStr` validation. Requests are plain datatypes.
- The coercion of the string subject to an integer user id when the database compares it. The expense routes take the acting user's integer id.
- Autoincrement: ids come from a counter that is never reused. A real database may skip values or behave differently after a rollback.
- Concurrency. The model is single-threaded, and concurrent updates are last-write-wins in the database.
- ExpenseRoute.CreateExpense: an owner id that names no user is a foreign-key failure (500) only if the database enforces foreign keys. `database.py` is not part of this model. SQLite, for one, enforces them only with `PRAGMA foreign_keys=ON`.
- The unique-constraint failure on a duplicate username is modelled as an error result with the store unchanged (the transaction is rolled back). How FastAPI turns the unhandled exception into a 500 response is not modelled.
- UserContext.Stringify: does not escape quotes or control characters in the username, because `JSON.stringify`'s escaping is not part of this model.
- UserContext.AuthProvider.RestoreSession: `JSON.parse` is modelled with three outcomes: an error, `null`, or a user object. Any other JSON value stored under `user` is not modelled. A non-numeric `exp` is not modelled either; `jwtDecode` gives a decode failure or an optional integer `exp`.
- UserContext.ReloadAfterLogin: assumes that `JSON.parse` reads back the user that `JSON.stringify` wrote. The parse result is a parameter.
- ExpensePieChart.AsWrittenAgrees, ExpensePieChart.GroupedAsWritten: `Object.values` of the accumulator as written also lists integer-like keys (such as `"2"`) first, in ascending numeric order; for categories `"b"` then `"2"` the source gives `[2, b]`. GroupedAsWritten keeps first-seen order for every key, so AsWrittenAgrees relates the as-written and intended accumulators up to that ordering only.
- ExpensePieChart.GroupByCategory: `Object.values` lists integer-like keys (such as `"2"`) first, in ascending numeric order, before the other keys in insertion order. The model keeps first-seen order for every key.
- CreateExpense.ExpenseForm.HandleSubmit: the `alert('All fields are required.')` on a rejected submission, and the `getExpenses()` refetch after a successful post, are not modelled. The alert is browser output; the refetch is an HTTP call whose result belongs to the parent component.
- `frontend/src/pages/Dashboard.tsx`, `Signin.tsx`, `Signup.tsx` and `frontend/src/App.tsx`. They hold forms, HTTP calls and routes with no logic to state. The HTTP post itself is the `postSucceeded` parameter of `HandleSubmit`.
- `frontend/src/components/PrivateRoutes.tsx` is not part of this model beyond the fact used in the findings: it shows "Loading..." while `loading` is true.
- Server-side logout and token revocation: the backend has neither.

## Findings

| source | as written | input that shows it | evidently intended | confidence | as-written member | corrected member |
|---|---|---|---|---|---|---|
| frontend/src/context/UserContext.tsx:51-59 | the expired-token branch `return`s before `setLoading(false)` at line 70, so `loading` stays true and `PrivateRoute` shows "Loading..." for the rest of that page load | a stored token whose `exp` is 0, mounted at `Date.now() = 1` | every path of the effect ends with `loading` false, so an expired session sends the user to sign in | high, not executed | UserContext.StartupAsWritten (shown by UserContext.ExpiredTokenKeepsLoading) | UserContext.Startup, used by UserContext.AuthProvider.RestoreSession |
| frontend/src/components/ExpensePieChart.tsx:18-24 | the accumulator is a plain `{}`, so `acc[category]` finds an inherited `Object.prototype` member for categories such as `toString` or `constructor`; the test `!acc[category]` is false, no own key is created, and `Object.values` drops the category | one expense with category `"toString"` and amount 5.0 gives `[]` | one group `{category: "toString", amount: 5}` (an accumulator without a prototype, or a `Map`) | high, not executed | ExpensePieChart.GroupedAsWritten (shown by ExpensePieChart.InheritedCategoryDropped) | ExpensePieChart.GroupByCategory (with ExpensePieChart.GroupedCategories and ExpensePieChart.GroupedTotal) |
