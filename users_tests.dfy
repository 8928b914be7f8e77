/**
 * The directory's own unit tests, restated as client methods of `UsersImpl`:
 * each starts from a fresh directory, performs the test's calls and promises
 * in its postcondition what the test asserts. Where a test unwraps a create
 * with `expect`, the method requires that hashing succeeds.
 */
module UsersTests {
  import opened Wrappers
  import opened PasswordHash
  import opened Users
  import opened UsersProperties

  /** Creating one user leaves one entry in each index. */
  method ShouldCreateUser(kdf: Hasher, salt: string, newUuid: string)
    returns (created: Result<(), CreateError>, uuidCount: nat, usernameCount: nat)
    requires kdf.hash("password", salt).Some?
    ensures created == Ok(())
    ensures uuidCount == 1 && usernameCount == 1
  {
    var users := new UsersImpl();
    created := users.CreateUser("username", "password", salt, newUuid, kdf);
    uuidCount, usernameCount := |users.uuidToUser|, |users.usernameToUser|;
  }

  /** A second create with the same username fails. */
  method ShouldFailCreatingUserWithExistingUsername(kdf: Hasher, salt: string, salt': string,
                                                    newUuid: string, newUuid': string)
    returns (second: Result<(), CreateError>)
    requires kdf.hash("password", salt).Some?
    requires newUuid' != newUuid
    ensures second == Err(DuplicateUsername)
  {
    var users := new UsersImpl();
    var first := users.CreateUser("username", "password", salt, newUuid, kdf);
    second := users.CreateUser("username", "password", salt', newUuid', kdf);
  }

  /** A created user is found with its password. */
  method ShouldRetrieveUserUuid(kdf: Hasher, salt: string, newUuid: string)
    returns (found: Option<string>)
    requires Sound(kdf)
    requires kdf.hash("password", salt).Some?
    ensures found == Some(newUuid)
  {
    var users := new UsersImpl();
    var before := users.Model();
    var created := users.CreateUser("username", "password", salt, newUuid, kdf);
    CreateThenGet(before, "username", "password", salt, newUuid, kdf);
    found := users.GetUserUuid("username", "password", kdf);
  }

  /** A created user is not found with another password. */
  method ShouldFailToRetrieveUserUuidWithIncorrectPassword(kdf: Hasher, salt: string, newUuid: string)
    returns (found: Option<string>)
    requires Binding(kdf)
    requires kdf.hash("password", salt).Some?
    ensures found == None
  {
    var users := new UsersImpl();
    var before := users.Model();
    var created := users.CreateUser("username", "password", salt, newUuid, kdf);
    CreateThenGetWrongPassword(before, "username", "password", "incorrect password", salt, newUuid, kdf);
    found := users.GetUserUuid("username", "incorrect password", kdf);
  }

  /** Deleting the user found by its password empties both indexes. */
  method ShouldDeleteUser(kdf: Hasher, salt: string, newUuid: string)
    returns (uuidCount: nat, usernameCount: nat)
    requires Sound(kdf)
    requires kdf.hash("password", salt).Some?
    ensures uuidCount == 0 && usernameCount == 0
  {
    var users := new UsersImpl();
    var before := users.Model();
    var created := users.CreateUser("username", "password", salt, newUuid, kdf);
    CreateThenGet(before, "username", "password", salt, newUuid, kdf);
    var found := users.GetUserUuid("username", "password", kdf);
    users.DeleteUser(found.value);
    uuidCount, usernameCount := |users.uuidToUser|, |users.usernameToUser|;
  }
}
