/** The user and role repository over an in-memory store: a users table and
    a roles table. Entities handed back to callers are the stored rows
    themselves (the conversion from a stored row is the identity here). */
module Users {
  import opened Common

  /** A row of the users table. `password` is the already hashed password:
      the repository stores what it is given and never hashes. */
  datatype User = User(id: int, username: string, password: string, email: string, avatar: Option<string>)

  /** A row of the roles table: one role label held by one user. */
  datatype Role = Role(kind: string, userId: int)

  /** `get_by_id`: the first user row whose id is `userId`, or none. */
  function GetById(users: seq<User>, userId: int): (r: Option<User>)
    ensures r.Some? ==> r.value.id == userId
    ensures r.Some? ==> exists i :: 0 <= i < |users| && users[i] == r.value && forall j :: 0 <= j < i ==> users[j].id != userId
    ensures r.None? <==> forall u :: u in users ==> u.id != userId
  {
    match First(users, (u: User) => u.id == userId)
    case None => None
    case Some(i) => Some(users[i])
  }

  /** `get_by_name`: the first user row whose username is `name`, or none. */
  function GetByName(users: seq<User>, name: string): (r: Option<User>)
    ensures r.Some? ==> r.value.username == name
    ensures r.Some? ==> exists i :: 0 <= i < |users| && users[i] == r.value && forall j :: 0 <= j < i ==> users[j].username != name
    ensures r.None? <==> forall u :: u in users ==> u.username != name
  {
    match First(users, (u: User) => u.username == name)
    case None => None
    case Some(i) => Some(users[i])
  }

  /** The label of each role row, in order. */
  function Kinds(rows: seq<Role>): (r: seq<string>)
    ensures |r| == |rows|
    ensures forall i :: 0 <= i < |r| ==> r[i] == rows[i].kind
  {
    seq(|rows|, i requires 0 <= i < |rows| => rows[i].kind)
  }

  /** `get_roles`: the label of every role row of `userId`, in insertion order. */
  function GetRoles(roles: seq<Role>, userId: int): (r: seq<string>)
    ensures |r| <= |roles|
    ensures forall t :: t in r <==> Role(t, userId) in roles
  {
    var own := Filter(roles, (x: Role) => x.userId == userId);
    assert forall t :: t in Kinds(own) ==> Role(t, userId) in roles by {
      forall t | t in Kinds(own) ensures Role(t, userId) in roles {
        var i :| 0 <= i < |own| && Kinds(own)[i] == t;
        assert own[i] == Role(t, userId);
      }
    }
    assert forall t :: Role(t, userId) in roles ==> t in Kinds(own) by {
      forall t | Role(t, userId) in roles ensures t in Kinds(own) {
        var i :| 0 <= i < |roles| && roles[i] == Role(t, userId);
        var j :| 0 <= j < |own| && own[j] == roles[i];
        assert Kinds(own)[j] == t;
      }
    }
    Kinds(own)
  }

  /** The role rows `set_roles(userId, labels)` adds, one per label, in order. */
  function RoleRows(userId: int, labels: seq<string>): (rows: seq<Role>)
  {
    seq(|labels|, i requires 0 <= i < |labels| => Role(labels[i], userId))
  }

  lemma GetRolesAppend(a: seq<Role>, b: seq<Role>, userId: int)
    ensures GetRoles(a + b, userId) == GetRoles(a, userId) + GetRoles(b, userId)
  {
    var p := (x: Role) => x.userId == userId;
    FilterAppend(a, b, p);
    assert Kinds(Filter(a, p) + Filter(b, p)) == Kinds(Filter(a, p)) + Kinds(Filter(b, p));
  }

  /** The rows added for one user carry that user's labels and no one else's. */
  lemma {:induction false} GetRolesOfRoleRows(userId: int, labels: seq<string>, other: int)
    ensures GetRoles(RoleRows(userId, labels), other) == if other == userId then labels else []
  {
    if labels != [] {
      assert RoleRows(userId, labels)[1..] == RoleRows(userId, labels[1..]);
      GetRolesOfRoleRows(userId, labels[1..], other);
    }
  }

  /** After `set_roles(userId, labels)`, `get_roles(userId)` is the old role
      list followed by `labels`; every other user's roles are unchanged. */
  lemma SetRolesThenGetRoles(roles: seq<Role>, userId: int, labels: seq<string>, other: int)
    ensures GetRoles(roles + RoleRows(userId, labels), userId) == GetRoles(roles, userId) + labels
    ensures other != userId ==> GetRoles(roles + RoleRows(userId, labels), other) == GetRoles(roles, other)
  {
    GetRolesAppend(roles, RoleRows(userId, labels), userId);
    GetRolesOfRoleRows(userId, labels, userId);
    GetRolesAppend(roles, RoleRows(userId, labels), other);
    GetRolesOfRoleRows(userId, labels, other);
  }

  /** Role assignment is additive: assigning "admin" and then "judge" leaves
      the user holding both. */
  lemma SetRolesIsAdditive(roles: seq<Role>, userId: int)
    ensures var after := roles + RoleRows(userId, ["admin"]) + RoleRows(userId, ["judge"]);
            "admin" in GetRoles(after, userId) && "judge" in GetRoles(after, userId)
  {
    var once := roles + RoleRows(userId, ["admin"]);
    SetRolesThenGetRoles(roles, userId, ["admin"], userId);
    SetRolesThenGetRoles(once, userId, ["judge"], userId);
    assert GetRoles(once + RoleRows(userId, ["judge"]), userId) == GetRoles(roles, userId) + ["admin"] + ["judge"];
  }

  /** A row appended with a fresh id and an unused name is what both lookups find. */
  lemma LookupCreatedUser(users: seq<User>, user: User)
    requires forall u :: u in users ==> u.id != user.id
    requires forall u :: u in users ==> u.username != user.username
    ensures GetById(users + [user], user.id) == Some(user)
    ensures GetByName(users + [user], user.username) == Some(user)
  {

  }

  /** The users and roles tables, with the counter standing in for the
      database's id assignment. */
  class UserStore {
    var users: seq<User>
    var roles: seq<Role>
    var nextUserId: int

    /** Every user id is distinct and below the next id to hand out. */
    ghost predicate Valid()
      reads this
    {
      && (forall i, j :: 0 <= i < j < |users| ==> users[i].id != users[j].id)
      && (forall i :: 0 <= i < |users| ==> users[i].id < nextUserId)
    }

    constructor ()
      ensures Valid()
      ensures users == [] && roles == []
    {
      users, roles, nextUserId := [], [], 1;
    }

    /** `create`: appends exactly one user row holding the given values and
        a fresh id, and returns it. */
    method Create(username: string, password: string, email: string, avatar: Option<string> := None)
      returns (user: User)
      requires Valid()
      modifies this
      ensures Valid()
      ensures user == User(old(nextUserId), username, password, email, avatar)
      ensures forall u :: u in old(users) ==> u.id != user.id
      ensures users == old(users) + [user] && roles == old(roles)
      ensures nextUserId == old(nextUserId) + 1
    {
      user := User(nextUserId, username, password, email, avatar);
      users := users + [user];
      nextUserId := nextUserId + 1;
    }

    /** `set_roles`: adds one role row per label, in order, keeping every
        existing row. */
    method SetRoles(userId: int, labels: seq<string>)
      requires Valid()
      modifies this
      ensures Valid()
      ensures roles == old(roles) + RoleRows(userId, labels)
      ensures users == old(users) && nextUserId == old(nextUserId)
      ensures GetRoles(roles, userId) == GetRoles(old(roles), userId) + labels
      ensures labels == [] ==> roles == old(roles)
    {
      var i := 0;
      while i < |labels|
        invariant 0 <= i <= |labels|
        invariant roles == old(roles) + RoleRows(userId, labels[..i])
        invariant users == old(users) && nextUserId == old(nextUserId)
      {
        assert RoleRows(userId, labels[..i + 1]) == RoleRows(userId, labels[..i]) + [Role(labels[i], userId)];
        roles := roles + [Role(labels[i], userId)];
        i := i + 1;
      }
      assert labels[..i] == labels;
      SetRolesThenGetRoles(old(roles), userId, labels, userId);
    }
  }
}
