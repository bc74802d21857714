/** The practical part of 11-null-and-undefined/script.js: a user store that keeps
    "never written" (`undefined`) apart from "deleted" (a `null` tombstone), and a
    function whose parameter default applies to `undefined` but not to `null`. */
module NullAndUndefined {
  import opened Wrappers

  // ---------------------------------------------------------------------------
  // UserDatabase

  /** The three outcomes of `getUser`: `undefined` for an id never written, `null` for
      a deleted one, or the stored data. */
  datatype Lookup<Data> = Absent | Deleted | Present(data: Data)

  /** The "exists" test of the example: neither `undefined` nor `null`. */
  predicate Exists<Data>(user: Lookup<Data>)
    ensures Exists(user) <==> user != Absent && user != Deleted
  {
    user.Present?
  }

  /** The "was deleted" test of the example: `null` exactly. A deleted user never
      exists, and an id never written was not deleted. */
  predicate WasDeleted<Data>(user: Lookup<Data>)
    ensures WasDeleted(user) <==> user == Deleted
    ensures WasDeleted(user) ==> !Exists(user)
  {
    user.Deleted?
  }

  /** `Map.prototype.get` on the store: an entry holds `None` once deleted. */
  function Find<Id, Data>(users: map<Id, Option<Data>>, id: Id): (r: Lookup<Data>)
    ensures r.Absent? <==> id !in users
    ensures r.Deleted? <==> id in users && users[id].None?
    ensures r.Present? ==> id in users && users[id] == Some(r.data)
  {
    if id !in users then Absent
    else match users[id]
      case None => Deleted
      case Some(d) => Present(d)
  }

  /** The store of the example: a `Map` from ids to data, where `deleteUser` writes
      `null` (`None`) instead of removing the entry. */
  class UserDatabase<Id(==), Data> {
    var users: map<Id, Option<Data>>

    constructor ()
      ensures users == map[]
    {
      users := map[];
    }

    /** `this.users.set(id, data)`: adds or overwrites. */
    method AddUser(id: Id, data: Data)
      modifies this
      ensures users == old(users)[id := Some(data)]
      ensures Find(users, id) == Present(data)
      ensures forall k :: k != id ==> Find(users, k) == Find(old(users), k)
    {
      users := users[id := Some(data)];
    }

    method GetUser(id: Id) returns (user: Lookup<Data>)
      ensures user == Find(users, id)
    {
      user := Find(users, id);
    }

    /** `this.users.set(id, null)`: the tombstone is written whether or not the id was
        ever added. */
    method DeleteUser(id: Id)
      modifies this
      ensures users == old(users)[id := None]
      ensures Find(users, id) == Deleted
      ensures forall k :: k != id ==> Find(users, k) == Find(old(users), k)
    {
      users := users[id := None];
    }
  }

  /** Nothing is found in a fresh store. */
  lemma FindEmpty<Id, Data>(id: Id)
    ensures Find<Id, Data>(map[], id) == Absent
  {
  }

  /** After an add, the id is present with the new data and every other id is unchanged. */
  lemma FindAfterAdd<Id, Data>(users: map<Id, Option<Data>>, id: Id, data: Data, k: Id)
    ensures Find(users[id := Some(data)], k) == if k == id then Present(data) else Find(users, k)
  {
  }

  /** After a delete, the id is deleted, not absent, and every other id is unchanged. */
  lemma FindAfterDelete<Id, Data>(users: map<Id, Option<Data>>, id: Id, k: Id)
    ensures Find(users[id := None], k) == if k == id then Deleted else Find(users, k)
    ensures Find(users[id := None], id) != Absent
  {
  }

  /** The record stored in the example. */
  datatype User = User(name: string)

  /** The example: Alice and Bob added, Bob deleted. User 1 exists, user 2 was deleted,
      and users 3 and 999 never existed. */
  method UserDatabaseExample() returns (user1: Lookup<User>, user2: Lookup<User>, user3: Lookup<User>,
                                        user999: Lookup<User>)
    ensures user1 == Present(User("Alice")) && Exists(user1) && !WasDeleted(user1)
    ensures user2 == Deleted && !Exists(user2) && WasDeleted(user2)
    ensures user3 == Absent && !Exists(user3) && !WasDeleted(user3)
    ensures user999 == Absent
  {
    var db := new UserDatabase<int, User>();
    db.AddUser(1, User("Alice"));
    db.AddUser(2, User("Bob"));
    user999 := db.GetUser(999);
    db.DeleteUser(2);
    user1 := db.GetUser(1);
    user2 := db.GetUser(2);
    user3 := db.GetUser(3);
  }

  // ---------------------------------------------------------------------------
  // setConfig

  /** The arguments the example passes: a missing or `undefined` argument, `null`, or a
      string. */
  datatype Arg = Undefined | Null | Str(s: string)

  /** The text a template literal shows for a value: a string as it is, `undefined` and
      `null` by name, so only those names themselves read alike. */
  function Text(v: Arg): (r: string)
    ensures v.Str? ==> r == v.s
    ensures r == "undefined" <==> v == Undefined || v == Str("undefined")
    ensures r == "null" <==> v == Null || v == Str("null")
  {
    match v
    case Undefined => "undefined"
    case Null => "null"
    case Str(s) => s
  }

  /** `setConfig(theme = 'light')`: the default replaces only `undefined`. */
  function SetConfig(theme: Arg): (r: string)
    ensures |r| >= 10 && r[..10] == "Theme is: "
  {
    var value := if theme.Undefined? then Str("light") else theme;
    "Theme is: " + Text(value)
  }

  /** The result is the light theme exactly when the argument is missing, `undefined` or
      'light' itself; `null` is shown as "null". */
  lemma SetConfigDefault(theme: Arg)
    ensures SetConfig(theme) == "Theme is: light" <==> theme == Undefined || theme == Str("light")
    ensures theme == Null ==> SetConfig(theme) == "Theme is: null"
    ensures theme.Str? ==> SetConfig(theme) == "Theme is: " + theme.s
  {
    var r := SetConfig(theme);
    if r == "Theme is: light" {
      assert r[10..] == "light";
      assert Text(if theme.Undefined? then Str("light") else theme) == r[10..];
    }
  }

  /** The four calls of the example. */
  lemma SetConfigExamples()
    ensures SetConfig(Str("dark")) == "Theme is: dark"
    ensures SetConfig(Undefined) == "Theme is: light"
    ensures SetConfig(Null) == "Theme is: null"
  {
  }
}
