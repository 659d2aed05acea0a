/**
 * The user store (db/users.py): one map from user id to user record. A missing
 * users file behaves exactly like an empty map for every operation here, so the
 * map is never absent. The default record for new users comes from the
 * configuration and is a parameter.
 */
module Users {
  import opened Wrappers

  /**
   * A user record: the optional "roles" list and the record's other fields. The
   * record is a JSON object, so it is falsy exactly when it has no field at all.
   */
  datatype User = User(roles: Option<seq<string>>, fields: map<string, string>) {
    /** Python truthiness of the record dict. */
    predicate IsTruthy() {
      roles.Some? || |fields| > 0
    }

    /** `user.get("roles", [])` */
    function Roles(): seq<string> {
      if roles.Some? then roles.value else []
    }
  }

  type UserMap = map<string, User>

  /** `user_exists` */
  predicate UserExists(users: UserMap, id: string) {
    id in users
  }

  /** `get_user`: the record, `None` when the id is unknown. */
  function GetUser(users: UserMap, id: string): (r: Option<User>)
    ensures r.Some? <==> UserExists(users, id)
    ensures r.Some? ==> r.value == users[id]
  {
    if id in users then Some(users[id]) else None
  }

  /** `get_user_roles`: the record's "roles", or `[]` for an unknown user or a record without roles. */
  function GetUserRoles(users: UserMap, id: string): (r: seq<string>)
    ensures id in users && users[id].roles.Some? ==> r == users[id].roles.value
    ensures id !in users || users[id].roles.None? ==> r == []
  {
    match GetUser(users, id)
    case None => []
    case Some(u) => if u.IsTruthy() then u.Roles() else []
  }

  /** A missing users file reads as no users: nobody exists, no record, no roles. */
  lemma MissingFileHasNoUsers(id: string)
    ensures !UserExists(map[], id)
    ensures GetUser(map[], id) == None
    ensures GetUserRoles(map[], id) == []
  {
  }

  /** The user file as the process sees it; `add_user` rewrites it in place. */
  class UserDb {
    var users: UserMap

    constructor (users: UserMap)
      ensures this.users == users
    {
      this.users := users;
    }

    /**
     * `add_user`: refuses an existing id and changes nothing; otherwise stores a copy of
     * the default record under the new id only.
     */
    method AddUser(id: string, default: User) returns (added: bool)
      modifies this
      ensures added <==> !UserExists(old(users), id)
      ensures !added ==> users == old(users)
      ensures added ==> users == old(users)[id := default]
      ensures UserExists(users, id)
      ensures added ==> GetUser(users, id) == Some(default)
      ensures added ==> GetUserRoles(users, id) == default.Roles()
      ensures forall other :: other != id ==> GetUser(users, other) == GetUser(old(users), other)
    {
      if id in users {
        return false;
      }
      users := users[id := default];
      added := true;
    }
  }
}
