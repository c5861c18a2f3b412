/** The administrator's user management (backend/controller/adminController.js)
    over the user collection. */
module AdminController {
  import opened Common

  /** A user document; `createdAt` is the creation time in milliseconds. */
  datatype User = User(id: string, fullName: string, email: string, passwordHash: string,
                       role: string, createdAt: int)

  /** A user as listed, with `passwordHash` deselected. */
  datatype PublicUser = PublicUser(id: string, fullName: string, email: string, role: string, createdAt: int)

  function Public(u: User): PublicUser {
    PublicUser(u.id, u.fullName, u.email, u.role, u.createdAt)
  }

  /** The sort key of `sort({ createdAt: -1 })`. */
  function NewestFirst(u: PublicUser): int { -u.createdAt }

  /** The users with `passwordHash` deselected, in stored order. */
  function Shown(users: seq<User>): (r: seq<PublicUser>)
    ensures |r| == |users| && forall i :: 0 <= i < |users| ==> r[i] == Public(users[i])
  {
    seq(|users|, i requires 0 <= i < |users| => Public(users[i]))
  }

  /** getAllUsers: every user without the hash, newest first. */
  function AllUsers(users: seq<User>): (r: seq<PublicUser>)
    ensures |r| == |users|
    ensures multiset(r) == multiset(Shown(users))
    ensures forall i, j :: 0 <= i < j < |r| ==> r[i].createdAt >= r[j].createdAt
  {
    var r := SortBy(Shown(users), NewestFirst);
    assert forall i, j :: 0 <= i < j < |r| ==> NewestFirst(r[i]) <= NewestFirst(r[j]);
    r
  }

  /** The list holds every user, and only users, each without the hash. */
  lemma AllUsersComplete(users: seq<User>)
    ensures forall u :: u in users ==> Public(u) in AllUsers(users)
    ensures forall p :: p in AllUsers(users) ==> exists i :: 0 <= i < |users| && p == Public(users[i])
  {
    var r := AllUsers(users);
    var shown := Shown(users);
    SortByMembers(shown, NewestFirst);
    forall u | u in users ensures Public(u) in r {
      var i :| 0 <= i < |users| && users[i] == u;
      assert shown[i] == Public(u);
    }
    forall p | p in r ensures exists i :: 0 <= i < |users| && p == Public(users[i]) {
      var i :| 0 <= i < |shown| && shown[i] == p;
    }
  }

  /** The position of the user with that id. */
  function FindUser(users: seq<User>, id: string): (r: Option<nat>)
    ensures r.Some? ==> r.value < |users| && users[r.value].id == id
    ensures r.None? <==> forall i :: 0 <= i < |users| ==> users[i].id != id
  {
    if users == [] then None
    else if users[0].id == id then Some(0)
    else
      var r := FindUser(users[1..], id);
      if r.None? then None else Some(r.value + 1)
  }

  predicate UniqueIds(users: seq<User>) {
    forall i, j :: 0 <= i < j < |users| ==> users[i].id != users[j].id
  }

  /** Removing the user at `k` removes exactly that user: every other user
      stays, in order, and none has its id. */
  lemma RemoveExactly(users: seq<User>, k: nat)
    requires UniqueIds(users) && k < |users|
    ensures var rest := users[..k] + users[k + 1..];
      UniqueIds(rest) && |rest| == |users| - 1 &&
      (forall u :: u in rest <==> u in users && u.id != users[k].id)
  {
    var rest := users[..k] + users[k + 1..];
    forall i | 0 <= i < |rest| ensures rest[i] == users[if i < k then i else i + 1] {
    }
    forall u | u in users && u.id != users[k].id ensures u in rest {
      var i :| 0 <= i < |users| && users[i] == u;
      assert rest[if i < k then i else i - 1] == u;
    }
  }

  class AdminStore {
    var users: seq<User>

    predicate Valid()
      reads this
    {
      UniqueIds(users)
    }

    constructor(users: seq<User>)
      requires UniqueIds(users)
      ensures Valid() && this.users == users
    {
      this.users := users;
    }

    /** getAllUsers; `count` is the length of the list returned. */
    method GetAllUsers() returns (count: nat, list: seq<PublicUser>)
      ensures list == AllUsers(users) && count == |users|
    {
      list := AllUsers(users);
      count := |list|;
    }

    /** promoteToAdmin. */
    method PromoteToAdmin(userId: string) returns (code: int)
      requires Valid()
      modifies this
      ensures Valid()
      ensures var k := FindUser(old(users), userId);
        if k.None? then code == 404 && users == old(users)
        else code == 200 && users == old(users)[k.value := old(users)[k.value].(role := "admin")]
    {
      var k := FindUser(users, userId);
      if k.None? {
        return 404;
      }
      users := users[k.value := users[k.value].(role := "admin")];
      code := 200;
    }

    /** deleteUser, asked for by the admin `requesterId`. */
    method DeleteUser(userId: string, requesterId: string) returns (code: int)
      requires Valid()
      modifies this
      ensures Valid()
      ensures var k := FindUser(old(users), userId);
        if k.None? then code == 404 && users == old(users)
        else if userId == requesterId then code == 400 && users == old(users)
        else (code == 200 && users == old(users)[..k.value] + old(users)[k.value + 1..]
          && forall u :: u in users <==> u in old(users) && u.id != userId)
    {
      var k := FindUser(users, userId);
      if k.None? {
        return 404;
      }
      if userId == requesterId {
        return 400;
      }
      RemoveExactly(users, k.value);
      users := users[..k.value] + users[k.value + 1..];
      code := 200;
    }
  }
}
