/**
 * The in-memory user directory of the authentication service: user records
 * kept under two indexes, one by uuid and one by username, with operations to
 * create a user, to look up a user's uuid by username and password, and to
 * delete a user by uuid.
 *
 * The directory's state is first described as a value (`Directory`) with pure
 * operations on it; the class `UsersImpl` then performs the same operations
 * in place on its two map fields, and each of its methods is proved to leave
 * the state the pure operation describes.
 */
module Users {
  import opened Wrappers
  import opened PasswordHash

  /** A user record; `password` holds the stored hash string, not the password. */
  datatype User = User(userUuid: string, username: string, password: string)

  /** Why `create_user` refused: the username is taken, or hashing failed. */
  datatype CreateError = DuplicateUsername | HashingFailure

  /** The two indexes over the same set of user records. */
  datatype Directory = Directory(
    uuidToUser: map<string, User>,
    usernameToUser: map<string, User>)
  {
    /**
     * The two indexes are in lockstep: every entry of either index sits
     * under the key taken from its record's own field, and the same record
     * is found in the other index under the other field.
     */
    ghost predicate Valid()
    {
      && (forall name | name in usernameToUser ::
            && usernameToUser[name].username == name
            && usernameToUser[name].userUuid in uuidToUser
            && uuidToUser[usernameToUser[name].userUuid] == usernameToUser[name])
      && (forall id | id in uuidToUser ::
            && uuidToUser[id].userUuid == id
            && uuidToUser[id].username in usernameToUser
            && usernameToUser[uuidToUser[id].username] == uuidToUser[id])
    }

    /**
     * `create_user`: refuse a taken username; otherwise hash the password with
     * `salt` and file the new record under `newUuid` and under `username`.
     * An error leaves the directory as it was, so only the new directory is
     * returned on success.
     */
    function CreateUser(username: string, password: string,
                      salt: string, newUuid: string, kdf: Hasher): (r: Result<Directory, CreateError>)
      ensures r == Err(DuplicateUsername) <==> username in usernameToUser
      ensures r == Err(HashingFailure) <==>
                username !in usernameToUser && kdf.hash(password, salt).None?
      ensures r.Ok? ==>
                && kdf.hash(password, salt).Some?
                && var user := User(newUuid, username, kdf.hash(password, salt).value);
                && r.value.usernameToUser.Keys == usernameToUser.Keys + {username}
                && r.value.uuidToUser.Keys == uuidToUser.Keys + {newUuid}
                && r.value.usernameToUser[username] == user
                && r.value.uuidToUser[newUuid] == user
                && (forall name | name in usernameToUser ::
                      r.value.usernameToUser[name] == usernameToUser[name])
                && (forall id | id in uuidToUser && id != newUuid ::
                      r.value.uuidToUser[id] == uuidToUser[id])
    {
      if username in usernameToUser then
        Err(DuplicateUsername)
      else
        match kdf.hash(password, salt)
        case None => Err(HashingFailure)
        case Some(stored) =>
          var user := User(newUuid, username, stored);
          Ok(Directory(uuidToUser[newUuid := user], usernameToUser[username := user]))
    }

    /**
     * `get_user_uuid`: the uuid of the user named `username`, given only when
     * the stored hash string parses and verifies `password`. An unknown name,
     * an unreadable hash and a wrong password all give None alike.
     */
    function GetUserUuid(username: string, password: string, kdf: Hasher): (r: Option<string>)
      ensures r.Some? <==>
                && username in usernameToUser
                && kdf.parses(usernameToUser[username].password)
                && kdf.verify(password, usernameToUser[username].password)
      ensures r.Some? ==> r.value == usernameToUser[username].userUuid
      ensures Valid() && r.Some? ==>
                && r.value in uuidToUser
                && uuidToUser[r.value].username == username
    {
      if username !in usernameToUser then
        None
      else
        var user := usernameToUser[username];
        if !kdf.parses(user.password) then
          None
        else if kdf.verify(password, user.password) then
          Some(user.userUuid)
        else
          None
    }

    /**
     * `delete_user`: drop the record filed under `userUuid` from the uuid index
     * and, by the username it carries, from the username index. An unknown
     * uuid leaves the directory as it was.
     */
    function DeleteUser(userUuid: string): (r: Directory)
      ensures userUuid !in uuidToUser ==> r == this
      ensures userUuid in uuidToUser ==>
                && r.uuidToUser.Keys == uuidToUser.Keys - {userUuid}
                && r.usernameToUser.Keys ==
                     usernameToUser.Keys - {uuidToUser[userUuid].username}
      ensures Valid() && userUuid in uuidToUser ==>
                forall name | name in r.usernameToUser :: r.usernameToUser[name].userUuid != userUuid
      ensures forall id | id in r.uuidToUser :: id in uuidToUser && r.uuidToUser[id] == uuidToUser[id]
      ensures forall name | name in r.usernameToUser ::
                name in usernameToUser && r.usernameToUser[name] == usernameToUser[name]
    {
      if userUuid in uuidToUser then
        var user := uuidToUser[userUuid];
        Directory(uuidToUser - {userUuid}, usernameToUser - {user.username})
      else
        this
    }
  }

  /** The directory a new service starts with. */
  function Empty(): (d: Directory)
    ensures d.Valid()
    ensures d.uuidToUser == map[] && d.usernameToUser == map[]
  {
    Directory(map[], map[])
  }

  /** Removing a present key shrinks a map by exactly one entry. */
  lemma RemoveOne<K, V>(m: map<K, V>, k: K)
    requires k in m
    ensures |m - {k}| == |m| - 1
  {
  }

  /**
   * Two indexes in lockstep hold the same number of entries: the records
   * they hold are one and the same set, each filed once in each index.
   */
  lemma {:induction false} SameSize(d: Directory)
    requires d.Valid()
    ensures |d.uuidToUser| == |d.usernameToUser|
    decreases |d.uuidToUser|
  {
    if d.uuidToUser != map[] {
      var id :| id in d.uuidToUser;
      var user := d.uuidToUser[id];
      var rest := Directory(d.uuidToUser - {id}, d.usernameToUser - {user.username});
      assert rest == d.DeleteUser(id);
      DeletePreservesValid(d, id);
      RemoveOne(d.uuidToUser, id);
      RemoveOne(d.usernameToUser, user.username);
      SameSize(rest);
    }
  }

  /**
   * Creating a user under a fresh uuid keeps the indexes in lockstep and, on
   * success, adds exactly one entry to each index.
   */
  lemma CreatePreservesValid(d: Directory, username: string, password: string,
                             salt: string, newUuid: string, kdf: Hasher)
    requires d.Valid()
    requires newUuid !in d.uuidToUser
    ensures d.CreateUser(username, password, salt, newUuid, kdf).Ok? ==>
              var d' := d.CreateUser(username, password, salt, newUuid, kdf).value;
              && d'.Valid()
              && |d'.uuidToUser| == |d.uuidToUser| + 1
              && |d'.usernameToUser| == |d.usernameToUser| + 1
  {
  }

  /**
   * Deleting keeps the indexes in lockstep; deleting a known uuid removes
   * exactly one entry from each index, an unknown one removes nothing.
   */
  lemma DeletePreservesValid(d: Directory, userUuid: string)
    requires d.Valid()
    ensures d.DeleteUser(userUuid).Valid()
    ensures userUuid in d.uuidToUser ==>
              && |d.DeleteUser(userUuid).uuidToUser| == |d.uuidToUser| - 1
              && |d.DeleteUser(userUuid).usernameToUser| == |d.usernameToUser| - 1
    ensures userUuid !in d.uuidToUser ==> d.DeleteUser(userUuid) == d
  {
  }

  /** The directory as a service process holds it, updated in place. */
  class UsersImpl {
    var uuidToUser: map<string, User>
    var usernameToUser: map<string, User>

    /** The current state as a directory value. */
    function Model(): Directory
      reads this
    {
      Directory(uuidToUser, usernameToUser)
    }

    ghost predicate Valid()
      reads this
    {
      Model().Valid()
    }

    /** `UsersImpl::default()`: both indexes empty. */
    constructor ()
      ensures Valid()
      ensures Model() == Empty()
    {
      uuidToUser := map[];
      usernameToUser := map[];
    }

    /**
     * `create_user`, with the salt and the new uuid supplied by the caller in
     * place of the random generators; the uuid must not be in use.
     */
    method CreateUser(username: string, password: string, salt: string, newUuid: string, kdf: Hasher)
      returns (r: Result<(), CreateError>)
      requires Valid()
      requires newUuid !in uuidToUser
      modifies this
      ensures Valid()
      ensures old(Model()).CreateUser(username, password, salt, newUuid, kdf).Ok? ==>
                && r == Ok(())
                && Model() == old(Model()).CreateUser(username, password, salt, newUuid, kdf).value
      ensures old(Model()).CreateUser(username, password, salt, newUuid, kdf).Err? ==>
                && r == Err(old(Model()).CreateUser(username, password, salt, newUuid, kdf).error)
                && Model() == old(Model())
    {
      if username in usernameToUser {
        return Err(DuplicateUsername);
      }
      var hashed := kdf.hash(password, salt);
      if hashed.None? {
        return Err(HashingFailure);
      }
      var user := User(newUuid, username, hashed.value);
      usernameToUser := usernameToUser[user.username := user];
      uuidToUser := uuidToUser[user.userUuid := user];
      CreatePreservesValid(old(Model()), username, password, salt, newUuid, kdf);
      r := Ok(());
    }

    /** `get_user_uuid`: a query that leaves the directory untouched. */
    method GetUserUuid(username: string, password: string, kdf: Hasher) returns (r: Option<string>)
      ensures r == Model().GetUserUuid(username, password, kdf)
      ensures Valid() && r.Some? ==> r.value in uuidToUser && uuidToUser[r.value].username == username
    {
      if username !in usernameToUser {
        return None;
      }
      var user := usernameToUser[username];
      if !kdf.parses(user.password) {
        return None;
      }
      if kdf.verify(password, user.password) {
        return Some(user.userUuid);
      }
      r := None;
    }

    /** `delete_user`: remove by uuid, then by the removed record's username. */
    method DeleteUser(userUuid: string)
      requires Valid()
      modifies this
      ensures Valid()
      ensures Model() == old(Model()).DeleteUser(userUuid)
    {
      if userUuid in uuidToUser {
        var user := uuidToUser[userUuid];
        uuidToUser := uuidToUser - {userUuid};
        usernameToUser := usernameToUser - {user.username};
      }
      DeletePreservesValid(old(Model()), userUuid);
    }
  }
}
