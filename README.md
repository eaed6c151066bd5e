# Summer of Code site: data layer and authentication, in Dafny

This project models the identity and submission data layer of the Summer of
Code challenge site. It covers three parts.

- The challenge and submission repository (`Challenges`). It creates
  challenges, looks them up by id, finds the challenge active at an instant,
  lists all challenges by schedule, creates and lists submissions, updates a
  submission's description, and runs the allow-listed partial update of a
  challenge.
- The user and role repository (`Users`). It creates users, looks them up by
  id or by name, and reads and adds role labels.
- The authentication controller (`Authentication`). It makes the login
  decision, registers users with a salted password hash, and builds the
  claim sets handed to the token signer. It also holds the default settings.

The SQL store is replaced by an in-memory one. Each table is a sequence of
rows in a class (`Users.UserStore`, `Challenges.ChallengeStore`), and a
counter hands out fresh ids starting at 1. Read queries are functions over
those sequences. Writes are methods that reassign them. Every repository
call is one atomic step. An entity returned to a caller is the stored row
itself, so the conversion from a row is the identity.

Some inputs come from outside the code and become parameters:

- the password hasher and checker (bcrypt);
- the token signer and verifier (JSON Web Tokens, RFC 7519);
- the random bytes of a generated salt;
- the current time, as an integer timestamp.

An operational error of the store during `get` and `get_active` is the flag
`unavailable`.

`common.dfy` holds the two query shapes the filtered lookups are built from.
The first is "first row a filter admits", which is `.first()` over a
filtered select; `get`, `get_active`, `get_by_id` and `get_by_name` use it.
The second is "all rows a filter admits, in the order the rows are read",
which is the list built from a filtered select; `get_submissions` and
`get_roles` use it. `get_all` is a sort of the whole table instead. The
model reads rows in insertion order.

What the code does, and the model with it:

- `update` removes only `created`, `id` and `user_id`. Any other key
  reaches the UPDATE statement, which SQLAlchemy refuses for names that are
  not columns. `Challenges.ChallengeStore.Update` reports such a call as not
  committed and changes nothing.
- `get_active` returns the first matching row it reads, however many
  windows contain the instant.
- `get_roles` returns a list that keeps duplicates.
- `create_token` passes the configured key to the signer even when it is
  unset.
- `register_user` does not check for an existing name.
- bcrypt refuses some inputs by raising ValueError. `gensalt` refuses a cost
  factor outside 4..31 and a prefix other than "2a" or "2b", so
  `register_user` stores nothing under such settings. `checkpw` refuses a
  stored password that is not a bcrypt hash, so `authenticate_user` raises
  for that name instead of returning `None`. The model returns `Raised` in
  both cases.
- No operation checks `start <= end`, so the model does not assume it.

## Model

| member | source | states |
|---|---|---|
| `Common.First` | soc/database/challenges.py:55 | the index returned satisfies the filter and no earlier row does; none exactly when no row satisfies it |
| `Common.Filter` | soc/database/challenges.py:116-121 | the result has only rows that satisfy the filter, has every row that does, and is no longer than the table; `Common.FilterAppend` fixes its order and multiplicity |
| `Common.FilterAppend` | soc/database/challenges.py:116-121 | filtering keeps the order the rows are read in: filtering `s + t` is filtering `s` followed by filtering `t` |
| `Users.GetById` | soc/database/database/users.py:34-46 | returns a row with that id that comes before every other row with it; none exactly when no row has the id |
| `Users.GetByName` | soc/database/database/users.py:48-60 | returns a row with that username that comes before every other row with it; none exactly when no row has the name |
| `Users.GetRoles` | soc/database/database/users.py:62-69 | a label is in the result exactly when the roles table has the row (label, user); other users' labels are excluded; `Users.GetRolesAppend` fixes the order of the labels |
| `Users.GetRolesAppend` | soc/database/database/users.py:66-69 | role labels keep the order the rows are read in: the labels of `a + b` are those of `a` followed by those of `b` |
| `Users.GetRolesOfRoleRows` | soc/database/database/users.py:78-80 | the rows added for one user give that user exactly the labels passed, in order, and give any other user none |
| `Users.SetRolesThenGetRoles` | soc/database/database/users.py:62-80 | after `set_roles(u, labels)`, `get_roles(u)` is the old list followed by `labels`, and other users' lists are unchanged |
| `Users.SetRolesIsAdditive` | soc/database/database/users.py:78-80 | assigning "admin" and then "judge" leaves the user holding both labels |
| `Users.LookupCreatedUser` | soc/database/database/users.py:17-60 | a row appended with a fresh id and an unused name is what both `get_by_id` and `get_by_name` return |
| `Users.UserStore.Create` | soc/database/database/users.py:17-32 | appends exactly one row holding the given name, hash, email and avatar (none by default) under a fresh id, and returns it; roles are untouched |
| `Users.UserStore.SetRoles` | soc/database/database/users.py:71-80 | appends the rows `(labels[i], u)` in order and keeps every existing row; `get_roles(u)` grows by exactly `labels`; an empty list changes nothing; users are untouched |
| `Challenges.Get` | soc/database/challenges.py:44-60 | returns a row with that id that comes before every other row with it; none exactly when the store failed or no row has the id |
| `Challenges.GetActive` | soc/database/challenges.py:62-79 | a returned challenge has `start <= now <= end` and no earlier row's window contains `now`; none exactly when the store failed or no window contains `now` |
| `Challenges.InsertBySchedule` | soc/database/challenges.py:83-85 | inserting into a list sorted by (start, end) gives a sorted list with the same rows plus the new one |
| `Challenges.GetAll` | soc/database/challenges.py:81-88 | the result is sorted ascending by (start, end) and is a permutation of the challenges table |
| `Challenges.GetSubmissions` | soc/database/challenges.py:112-121 | the result has only submissions of that challenge, has every one of them, and is no longer than the table; `Challenges.GetSubmissionsAfterCreate` fixes their order |
| `Challenges.SetDescription` | soc/database/challenges.py:123-134 | the rows with that id get the new description; every other field and every other row is unchanged |
| `Challenges.ChangedFields` | soc/database/challenges.py:140-145 | keeps exactly the given fields other than `created`, `id` and `user_id`, with their values |
| `Challenges.Patched` | soc/database/challenges.py:147-152 | every changed column holds its new value, every other column keeps its old one, and the id and creator never change |
| `Challenges.ApplyUpdate` | soc/database/challenges.py:147-154 | rows with the given id are patched, all other rows are unchanged, and no row's id or creator changes |
| `Challenges.GetFindsCreated` | soc/database/challenges.py:23-60 | a challenge appended with a fresh id is what `get` returns |
| `Challenges.GetSubmissionsAfterCreate` | soc/database/challenges.py:90-121 | a new submission is listed last for its own challenge, and every other challenge's list is unchanged |
| `Challenges.UpdateIgnoresId` | soc/database/challenges.py:136-154 | `update(c, id=999, title=t)` is accepted and changes only the title of the matching row |
| `Challenges.UpdateSubmissionWithoutMatch` | soc/database/challenges.py:123-134 | `update_submission` on an id that no row has leaves the table unchanged |
| `Challenges.ChallengeStore.Create` | soc/database/challenges.py:22-42 | appends one row holding the given title, description, start and end under a fresh id; the creator, normalised by `Challenges.UserIdOf`, is the raw id, or the user's id when given a user; submissions are untouched |
| `Challenges.ChallengeStore.CreateSubmission` | soc/database/challenges.py:90-110 | appends one row holding the given type, link and description under a fresh id, with user and challenge normalised to ids by `Challenges.UserIdOf` and `Challenges.ChallengeIdOf` (raw id as given, entity to its id); it appears last in its challenge's submission list |
| `Challenges.ChallengeStore.UpdateSubmission` | soc/database/challenges.py:123-134 | the submissions table becomes `SetDescription` of the old one; challenges are untouched |
| `Challenges.ChallengeStore.Update` | soc/database/challenges.py:136-154 | commits exactly when the fields left after the allow-list are writable columns of the right kind; then the table becomes `ApplyUpdate` of the old one, otherwise it is unchanged; submissions are untouched |
| `Authentication.AuthenticateUser` | soc/controllers/authentication.py:44-52 | returns the user found by name exactly when the lookup succeeds and bcrypt accepts the password against that user's stored hash; returns none exactly when the name is unknown or bcrypt rejects the password; raises exactly when the name is known and bcrypt cannot read the stored hash |
| `Authentication.FailuresIndistinguishable` | soc/controllers/authentication.py:48-52 | when bcrypt can read the known user's stored hash, an unknown name and a wrong password for a known name both return none, the same result |
| `Authentication.MalformedStoredHashRaises` | soc/controllers/authentication.py:48-52 | when the known user's stored password is not a bcrypt hash, the call raises, while an unknown name returns none |
| `Authentication.RegisterUser` | soc/controllers/authentication.py:54-65 | raises and stores nothing exactly when `gensalt` refuses the configured cost factor (outside 4..31) or prefix (not "2a" or "2b"); otherwise stores one new user whose password field is `HashedPassword`, the hash under a salt with the configured cost and prefix, never the plaintext; roles are untouched |
| `Authentication.WithCreated` | soc/controllers/authentication.py:75-81 | the signed claims are the given ones plus `created`; `created` is the call's timestamp even if the caller supplied one; every other claim is carried unchanged |
| `Authentication.CreateToken` | soc/controllers/authentication.py:75-81 | the signer receives the caller's claims with `created` set to the call's timestamp, overriding any `created` given, and the configured private key and algorithm |
| `Authentication.CreateUserAccessToken` | soc/controllers/authentication.py:67-69 | the signer receives exactly `{user_id, username, created}` with the user's id and name and the configured key and algorithm |
| `Authentication.CreateEmailAccessToken` | soc/controllers/authentication.py:71-73 | the signer receives exactly `{username, email, created}` and the configured key and algorithm |
| `Authentication.DefaultsUseBcrypt2bAndHs256` | soc/controllers/authentication.py:21-40 | the default cost 12 and prefix "2b" are accepted by `gensalt`; with the default settings, passwords are hashed at cost 12 with prefix "2b", and tokens are signed with HS256 |
| `Authentication.RegisteredUserAuthenticatesAndTokenNamesUser` | tests/testing_api.py:54-72 | after registration under an unused name, logging in with the same password returns that user, and the session token verifies to exactly that user's id, name and creation time |

## Left out

- Asynchronous sessions, transactions and concurrency are left out. Each
  repository call is one atomic step on the store. Nothing spans two calls.
- `Challenges.GetAll`, `Challenges.GetSubmissions`, `Users.GetById`,
  `Users.GetByName` and `Users.GetRoles` have no failure path. In the source
  an operational error in these reads propagates as an exception, which the
  model does not represent. Failures of writes are left out too, including
  constraint violations and foreign keys.
- `Users.UserStore.Create` does not reject a duplicate username. The
  database schema for users is not part of this model, so whether the
  storage layer enforces uniqueness is unknown. If two rows share a name,
  the lookup returns the first one it reads.
- Hashing, password checking, signing and verifying are parameters with no
  behaviour of their own. The model cannot express constant-time
  comparison. It does not model the UTF-8 encoding of passwords and hashes.
  It does not model what the signer does when no key is configured.
- `Authentication.RegisterUser` takes `hashpw` to succeed once `gensalt`
  has accepted the settings. A refusal of the password itself by the bcrypt
  library (such as its length limits) is not modelled. Only the refusals of
  `gensalt` and of `checkpw` on an unreadable stored hash are modelled.
- The clock is an integer parameter. The truncation of the floating-point
  timestamp is not modelled.
- `Challenges.GetActive`, `Challenges.GetSubmissions`, `Users.GetRoles`
  and `Users.GetByName` read rows in insertion order. Their SELECTs have no
  ORDER BY, so the database returns rows in its own order. That order
  decides which overlapping challenge `get_active` returns, the order of
  `get_roles` and `get_submissions`, and which of two rows with the same
  name `get_by_name` finds. The model does not capture the engine's order.
- `Challenges.GetAll` is stated as sorted by (start, end) and a permutation
  of the table. The database's order among rows with equal start and end is
  not specified, so the model's stable order is one admissible choice.
- `Challenges.ChallengeStore.Update` treats an empty field set after
  filtering as a committed update that changes nothing. The SQL library's
  own handling of an UPDATE with no values is not modelled.
- `Challenges.ChallengeStore.Update` models refusal as a typed check. A
  field must name a writable column and carry a value of that column's
  kind. The database driver's own coercions are not modelled, and neither
  is the kind of exception raised.
- Dependency injection and entity conversion are left out. Entities are
  the stored rows.
- Reading settings from the environment and from configuration files is
  I/O and is left out. The Discord settings are configuration only and are
  left out.
- The submission-status table has no operations. The site application is
  HTTP plumbing. The configuration loader reads files. None of these is
  part of this model.
