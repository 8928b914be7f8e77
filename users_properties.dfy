/**
 * Properties of the user directory that relate several operations: what a
 * lookup answers after a create or a delete, what a second create or delete
 * does, and why the uuid a create files a record under must be fresh.
 */
module UsersProperties {
  import opened Wrappers
  import opened PasswordHash
  import opened Users

  /** In a directory in lockstep no two records share a username (or a uuid). */
  lemma UniqueUsernames(d: Directory)
    requires d.Valid()
    ensures forall id1, id2 | id1 in d.uuidToUser && id2 in d.uuidToUser ::
              d.uuidToUser[id1].username == d.uuidToUser[id2].username ==> id1 == id2
    ensures forall name1, name2 | name1 in d.usernameToUser && name2 in d.usernameToUser ::
              d.usernameToUser[name1].userUuid == d.usernameToUser[name2].userUuid ==> name1 == name2
  {
  }

  /** A successful create can be looked up at once with the same password. */
  lemma CreateThenGet(d: Directory, username: string, password: string,
                      salt: string, newUuid: string, kdf: Hasher)
    requires Sound(kdf)
    requires d.CreateUser(username, password, salt, newUuid, kdf).Ok?
    ensures d.CreateUser(username, password, salt, newUuid, kdf).value
              .GetUserUuid(username, password, kdf) == Some(newUuid)
  {
  }

  /** After a successful create, any other password is refused. */
  lemma CreateThenGetWrongPassword(d: Directory, username: string, password: string,
                                   other: string, salt: string, newUuid: string, kdf: Hasher)
    requires Binding(kdf)
    requires other != password
    requires d.CreateUser(username, password, salt, newUuid, kdf).Ok?
    ensures d.CreateUser(username, password, salt, newUuid, kdf).value
              .GetUserUuid(username, other, kdf) == None
  {
  }

  /** Once a username is taken, every further create with it is refused. */
  lemma CreateTwice(d: Directory, username: string, password: string, salt: string,
                    newUuid: string, password': string, salt': string, newUuid': string, kdf: Hasher)
    requires d.CreateUser(username, password, salt, newUuid, kdf).Ok?
    ensures d.CreateUser(username, password, salt, newUuid, kdf).value
              .CreateUser(username, password', salt', newUuid', kdf) == Err(DuplicateUsername)
  {
  }

  /** Deleting a user created under a fresh uuid gives back the directory before. */
  lemma CreateThenDelete(d: Directory, username: string, password: string,
                         salt: string, newUuid: string, kdf: Hasher)
    requires newUuid !in d.uuidToUser
    requires d.CreateUser(username, password, salt, newUuid, kdf).Ok?
    ensures d.CreateUser(username, password, salt, newUuid, kdf).value.DeleteUser(newUuid) == d
  {
  }

  /** After a user is deleted, no password finds it by its username. */
  lemma DeleteThenGet(d: Directory, userUuid: string, password: string, kdf: Hasher)
    requires userUuid in d.uuidToUser
    ensures d.DeleteUser(userUuid).GetUserUuid(d.uuidToUser[userUuid].username, password, kdf) == None
  {
  }

  /** Deleting the same uuid twice is the same as deleting it once. */
  lemma DeleteTwice(d: Directory, userUuid: string)
    ensures d.DeleteUser(userUuid).DeleteUser(userUuid) == d.DeleteUser(userUuid)
  {
  }

  /**
   * Why create needs a fresh uuid: if the uuid is already in use, the new
   * record overwrites the old one in the uuid index while the old username
   * still points at the old record, and the indexes fall out of lockstep.
   */
  lemma CollisionBreaksLockstep(d: Directory, username: string, password: string,
                                salt: string, newUuid: string, kdf: Hasher)
    requires d.Valid()
    requires newUuid in d.uuidToUser
    requires d.CreateUser(username, password, salt, newUuid, kdf).Ok?
    ensures !d.CreateUser(username, password, salt, newUuid, kdf).value.Valid()
  {
  }
}
