/**
  The TypeScript user registry of user_management/src/userManager.ts with
  the types of user_management/src/types.ts. The list of users lives in a
  `UserDatabase` object that the caller creates and hands to the manager;
  the manager keeps that reference, so every manager built over the same
  database, and the caller itself, sees each push and each reassignment.
 */
module UserManagementTs {
  import opened RecordStore

  /** A JavaScript `Date`, as an opaque time value; no ordering is relied upon. */
  type Date = int

  datatype User = User(id: string, name: string, email: string, createdAt: Date)

  /** The key under which the registry files a user. */
  function UserKey(u: User): string
  {
    u.id
  }

  /** The shared object holding the list of users. */
  class UserDatabase {
    var users: seq<User>

    constructor (users: seq<User>)
      ensures this.users == users
    {
      this.users := users;
    }
  }

  class UserManager {
    /** The database passed to the constructor; the manager never rebinds it. */
    const database: UserDatabase

    constructor (database: UserDatabase)
      ensures this.database == database
    {
      this.database := database;
    }

    /** Array push: the user goes at the end of the shared list; duplicates are not rejected. */
    method AddUser(user: User)
      modifies database
      ensures database.users == old(database.users) + [user]
      ensures |database.users| == |old(database.users)| + 1
    {
      database.users := database.users + [user];
    }

    /** Filter and reassign: every user with the id leaves the shared list; true iff it got shorter. */
    method DeleteUser(userId: string) returns (deleted: bool)
      modifies database
      ensures database.users == Without(old(database.users), UserKey, userId)
      ensures deleted <==> HasId(old(database.users), UserKey, userId)
      ensures !HasId(database.users, UserKey, userId)
      ensures !deleted ==> database.users == old(database.users)
    {
      var initialLength := |database.users|;
      database.users := Without(database.users, UserKey, userId);
      deleted := |database.users| < initialLength;
    }

    /** Array find: the first user with the id, or `None` where TypeScript gives `undefined`. */
    method GetUserById(userId: string) returns (r: Option<User>)
      ensures r.None? <==> !HasId(database.users, UserKey, userId)
      ensures r.Some? ==> exists i :: FirstMatch(database.users, UserKey, userId, i) && database.users[i] == r.value
    {
      r := Find(database.users, UserKey, userId);
    }

    /** The spread copy: a new array holding the same users in the same order. */
    method GetAllUsers() returns (a: array<User>)
      ensures fresh(a)
      ensures a[..] == database.users
    {
      a := new User[|database.users|](i requires 0 <= i < |database.users| reads database => database.users[i]);
    }

    method GetUserCount() returns (n: nat)
      ensures n == |database.users|
    {
      n := |database.users|;
    }
  }

  /**
    Two managers built over one database: a user added through the first is
    counted and found by the second, and a delete through the second empties
    the list the first one reads.
   */
  method SharedDatabaseRun(user: User) returns (seenBySecond: nat, found: bool, deleted: bool, seenByFirst: nat)
    ensures seenBySecond == 1 && found && deleted && seenByFirst == 0
  {
    var database := new UserDatabase([]);
    var first := new UserManager(database);
    var second := new UserManager(database);
    first.AddUser(user);
    seenBySecond := second.GetUserCount();
    assert FirstMatch(database.users, UserKey, user.id, 0);
    var r := second.GetUserById(user.id);
    found := r.Some?;
    deleted := second.DeleteUser(user.id);
    assert database.users == [];
    seenByFirst := first.GetUserCount();
  }
}
