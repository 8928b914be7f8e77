# User directory of the authentication service, in Dafny

This project models the in-memory user directory (`UsersImpl`) of a Rust
authentication service. The directory keeps one record per user: a uuid, a
username and a stored password hash. It files each record under two indexes:
`uuid_to_user` and `username_to_user`. It has three operations:

- `create_user` refuses a username that is already taken. Otherwise it hashes
  the password with a fresh salt and files the new record in both indexes.
- `get_user_uuid` returns the uuid of a user only when the stored hash parses
  and verifies the given password.
- `delete_user` removes a record by uuid, then removes its username.

Files:

- `wrappers.dfy`: `Option` and `Result`.
- `password_hash.dfy`: the hashing primitive (PBKDF2 in the source) as an
  abstract `Hasher`: a `hash` that may fail, a `parses` check on stored
  strings and a `verify` check. `Sound(kdf)` states that a hash it produces
  parses and verifies its own password. `Binding(kdf)` states that such a hash
  verifies no other password. Both are preconditions of the lemmas that need
  them, not axioms. `PlainHasher` shows that they can hold together.
- `users.dfy`: the `User` record, the directory as a value (`Directory`) with
  its lockstep invariant `Valid()` and its three operations as functions, the
  lemmas that the operations keep the invariant, and the class `UsersImpl`.
  The class holds the two maps as fields and updates them in place. Each of
  its methods is proved to leave exactly the state the matching function
  gives.
- `users_properties.dfy`: properties that relate several calls.
- `users_tests.dfy`: the source's unit tests as client methods of `UsersImpl`.
  Each test's assertions are stated as postconditions.

The random salt and the random uuid are parameters of `create_user`. The
uuid must not be a key of the uuid index yet. The source assumes this because
a v4 uuid is random; `CollisionBreaksLockstep` shows that the invariant
breaks without it.

## Model

| member | source | states |
|---|---|---|
| `Users.Empty` | src/auth-service/users.rs:21-25 | the default directory has both indexes empty and is in lockstep |
| `Users.Directory.CreateUser` | src/auth-service/users.rs:28-51 | `DuplicateUsername` exactly when the username is taken; `HashingFailure` exactly when it is free and hashing fails; on success the record holds the hash output as its password and is reachable under its username and its uuid; each index gains exactly that key; every entry already there is unchanged, except one already filed under the new uuid, which is replaced (see `CollisionBreaksLockstep`) |
| `Users.Directory.GetUserUuid` | src/auth-service/users.rs:53-76 | answers `Some` exactly when the username is known, its stored hash parses and that hash verifies the password; the uuid returned is the one stored in that username's record, and in a directory in lockstep it files a record with that username |
| `Users.Directory.DeleteUser` | src/auth-service/users.rs:78-84 | an unknown uuid changes nothing; a known uuid loses its key in the uuid index, and its record's username loses its key in the username index; no other entry is added or changed; in lockstep, no remaining username points at the deleted uuid |
| `Users.SameSize` | src/auth-service/users.rs:22-25 | two indexes in lockstep have the same number of entries (proved by induction over the uuid index) |
| `Users.CreatePreservesValid` | src/auth-service/users.rs:40-50 | with a fresh uuid, a successful create keeps the lockstep invariant and grows each index by exactly one |
| `Users.DeletePreservesValid` | src/auth-service/users.rs:78-84 | deleting keeps the lockstep invariant; a known uuid shrinks each index by exactly one; an unknown uuid leaves the directory equal |
| `Users.UsersImpl.constructor` | src/auth-service/users.rs:21-25 | a new directory is empty and in lockstep |
| `Users.UsersImpl.CreateUser` | src/auth-service/users.rs:28-51 | keeps the invariant; on success returns `Ok` and its fields become the directory `Directory.CreateUser` gives; on error it returns that same error and both maps are unchanged |
| `Users.UsersImpl.GetUserUuid` | src/auth-service/users.rs:53-76 | answers what `Directory.GetUserUuid` answers on the current maps, and changes nothing |
| `Users.UsersImpl.DeleteUser` | src/auth-service/users.rs:78-84 | keeps the invariant; its fields become the directory `Directory.DeleteUser` gives |
| `UsersProperties.UniqueUsernames` | src/auth-service/users.rs:29-31 | in lockstep, no two uuids file records with the same username, and no two usernames point at the same uuid |
| `UsersProperties.CreateThenGet` | src/auth-service/users.rs:66-72 | with a sound hasher, a lookup right after a successful create, with the same username and password, returns the new uuid |
| `UsersProperties.CreateThenGetWrongPassword` | src/auth-service/users.rs:125-135 | with a binding hasher, a lookup right after a successful create with any other password returns `None` |
| `UsersProperties.CreateTwice` | src/auth-service/users.rs:101-111 | after a successful create, any create with the same username fails with `DuplicateUsername`, whatever the password, salt or uuid |
| `UsersProperties.CreateThenDelete` | src/auth-service/users.rs:79-83 | deleting the uuid of a user just created under a fresh uuid gives back the directory as it was before the create |
| `UsersProperties.DeleteThenGet` | src/auth-service/users.rs:79-83 | in any directory, after a known uuid is deleted, a lookup of its record's username returns `None` for every password |
| `UsersProperties.DeleteTwice` | src/auth-service/users.rs:78-84 | deleting the same uuid twice is the same as deleting it once |
| `UsersProperties.CollisionBreaksLockstep` | src/auth-service/users.rs:41-48 | a successful create under a uuid already in use leaves the indexes out of lockstep |
| `UsersTests.ShouldCreateUser` | src/auth-service/users.rs:90-99 | on an empty directory, a create succeeds and leaves one entry in each index |
| `UsersTests.ShouldFailCreatingUserWithExistingUsername` | src/auth-service/users.rs:101-111 | a second create with the same username returns `DuplicateUsername` |
| `UsersTests.ShouldRetrieveUserUuid` | src/auth-service/users.rs:113-123 | a lookup after the create returns the new uuid |
| `UsersTests.ShouldFailToRetrieveUserUuidWithIncorrectPassword` | src/auth-service/users.rs:125-135 | a lookup with another password returns `None` |
| `UsersTests.ShouldDeleteUser` | src/auth-service/users.rs:137-152 | deleting the uuid found by the lookup leaves both indexes empty |

## Left out

- The `Users` trait (src/auth-service/users.rs:8-12) has one implementation. It is modelled directly as the methods of `UsersImpl`.
- PBKDF2 itself, the format of the hash string and `PasswordHash::new`: these are library code. They are modelled only through the `Hasher` functions and the `Sound` and `Binding` predicates. Which inputs make hashing fail is left to the hasher.
- `SaltString::generate(&mut OsRng)` and `Uuid::new_v4()`: randomness is not modelled. The salt and the uuid are parameters of `create_user`.
- `Users.UsersImpl.CreateUser`: requires the new uuid not to be a key of the uuid index, even on the error paths, where the source never generates one. The source relies on the randomness of a v4 uuid for this.
- The text of the error messages: only the kind of error is modelled (`DuplicateUsername`, `HashingFailure`).
- Constant-time comparison during verification and other timing behaviour: not expressible as a functional contract.
- That a stored hash reveals nothing about the password, and that another salt gives another hash: these are properties of PBKDF2, not of the directory. `PlainHasher` satisfies both `Sound` and `Binding` while storing the password itself, so the model does not claim them. What it does state is that the stored field is the hash output, not the password argument.
- Exclusive access: the source's `&mut self` serialises the operations. The model treats each call as one atomic step.
- src/health-check-service/main.rs is a network client loop, and build.rs is a protocol build script. Neither is part of this model.
