/**
  The user registry of user_management/user_manager.py: a `User` record and
  a `UserManager` whose list of users is appended to in place and replaced
  by the filtered list on delete.
 */
module UserManagement {
  import opened RecordStore

  /** A point in time as the wall clock reports it; no ordering is relied upon. */
  type Timestamp = int

  datatype User = User(id: string, name: string, email: string, createdAt: Timestamp)

  /** The key under which the registry files a user. */
  function UserKey(u: User): string
  {
    u.id
  }

  class UserManager {
    var users: seq<User>

    constructor ()
      ensures users == []
    {
      users := [];
    }

    /** Appends `user`; duplicates of an existing id are not rejected. */
    method AddUser(user: User)
      modifies this
      ensures users == old(users) + [user]
      ensures |users| == |old(users)| + 1
    {
      users := users + [user];
    }

    /** Removes every user with the given id; reports whether the list got shorter. */
    method DeleteUser(id: string) returns (deleted: bool)
      modifies this
      ensures users == Without(old(users), UserKey, id)
      ensures deleted <==> HasId(old(users), UserKey, id)
      ensures !HasId(users, UserKey, id)
      ensures !deleted ==> users == old(users)
    {
      var initialLength := |users|;
      users := Without(users, UserKey, id);
      deleted := |users| < initialLength;
    }

    /** The first user with the given id, in list order, or `None`. */
    method GetUserById(id: string) returns (r: Option<User>)
      ensures r.None? <==> !HasId(users, UserKey, id)
      ensures r.Some? ==> exists i :: FirstMatch(users, UserKey, id, i) && users[i] == r.value
      ensures r == Find(users, UserKey, id)
    {
      var i := 0;
      while i < |users|
        invariant 0 <= i <= |users|
        invariant forall j :: 0 <= j < i ==> users[j].id != id
      {
        if users[i].id == id {
          assert FirstMatch(users, UserKey, id, i);
          return Some(users[i]);
        }
        i := i + 1;
      }
      return None;
    }

    /** A copy of the list: the same users in the same order. */
    method GetAllUsers() returns (s: seq<User>)
      ensures s == users
    {
      s := users;
    }

    method GetUserCount() returns (n: nat)
      ensures n == |users|
    {
      n := |users|;
    }
  }

  /**
    The run of user_management/example.py: two users added, the first
    deleted, then an unknown id deleted.
   */
  method ExampleRun(now: Timestamp) returns (count1: nat, deleted1: bool, count2: nat, deleted999: bool, count3: nat)
    ensures count1 == 2 && deleted1 && count2 == 1 && !deleted999 && count3 == 1
  {
    var alice := User("user_1", "Alice", "alice@example.com", now);
    var bob := User("user_2", "Bob", "bob@example.com", now);
    var manager := new UserManager();
    manager.AddUser(alice);
    manager.AddUser(bob);
    assert manager.users == [alice, bob];
    count1 := manager.GetUserCount();

    assert FirstMatch(manager.users, UserKey, "user_1", 0);
    assert Without([bob], UserKey, "user_1") == [bob];
    assert [alice, bob][1..] == [bob];
    deleted1 := manager.DeleteUser("user_1");
    assert manager.users == [bob];
    count2 := manager.GetUserCount();

    assert bob.id[5] != "user_999"[5];
    deleted999 := manager.DeleteUser("user_999");
    count3 := manager.GetUserCount();
  }
}
