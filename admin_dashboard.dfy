/** The user table of the admin dashboard (MODXX/src/pages/AdminDashboard.jsx):
    the search and role filter, the counters above the table, and which row
    actions are offered. */
module AdminDashboard {
  import opened Common

  datatype User = User(id: string, fullName: string, email: string, role: string)

  /** `toLowerCase` on ASCII letters; other characters are kept. */
  function AsciiLower(s: string): (r: string)
    ensures |r| == |s|
    ensures forall i :: 0 <= i < |s| ==> r[i] == (if 'A' <= s[i] <= 'Z' then (s[i] as int + 32) as char else s[i])
  {
    if s == [] then [] else
      var c := if 'A' <= s[0] <= 'Z' then (s[0] as int + 32) as char else s[0];
      [c] + AsciiLower(s[1..])
  }

  /** Lower-casing is idempotent, so the search is case-insensitive. */
  lemma {:induction false} AsciiLowerIdempotent(s: string)
    ensures AsciiLower(AsciiLower(s)) == AsciiLower(s)
  {
    if s != [] {
      AsciiLowerIdempotent(s[1..]);
      assert AsciiLower(s)[1..] == AsciiLower(s[1..]);
    }
  }

  predicate MatchesSearch(u: User, term: string) {
    Contains(AsciiLower(u.fullName), AsciiLower(term)) || Contains(AsciiLower(u.email), AsciiLower(term))
  }

  predicate MatchesRole(u: User, roleFilter: string) {
    roleFilter == "all" || u.role == roleFilter
  }

  /** filteredUsers. */
  function FilteredUsers(users: seq<User>, term: string, roleFilter: string): (r: seq<User>)
    ensures forall u :: u in r <==> u in users && MatchesSearch(u, term) && MatchesRole(u, roleFilter)
    ensures IsSubsequence(r, users)
  {
    FilterIsSubsequence(users, (u: User) => MatchesSearch(u, term) && MatchesRole(u, roleFilter));
    Filter(users, (u: User) => MatchesSearch(u, term) && MatchesRole(u, roleFilter))
  }

  /** The search ignores letter case on both sides. */
  lemma SearchIgnoresCase(u: User, term: string)
    ensures MatchesSearch(u, AsciiLower(term)) == MatchesSearch(u, term)
  {
    AsciiLowerIdempotent(term);
  }

  /** An empty search with the role filter "all" lists every user, in order. */
  lemma EmptySearchKeepsAll(users: seq<User>)
    ensures FilteredUsers(users, "", "all") == users
  {
    forall u | u in users ensures MatchesSearch(u, "") && MatchesRole(u, "all") {
      ContainsEmpty(AsciiLower(u.fullName));
    }
    FilterAll(users, (u: User) => MatchesSearch(u, "") && MatchesRole(u, "all"));
  }

  predicate IsAdmin(u: User) { u.role == "admin" }
  predicate NotAdmin(u: User) { u.role != "admin" }

  datatype Stats = Stats(total: nat, admins: nat, members: nat)

  /** The counters above the table. */
  function UserStats(users: seq<User>): (s: Stats)
    ensures s.total == s.admins + s.members
    ensures s.total == |users|
  {
    CountSplit(users, IsAdmin, NotAdmin);
    Stats(|users|, Count(users, IsAdmin), Count(users, NotAdmin))
  }

  /** The promote button, offered for users who are not admins yet. */
  function ShowPromote(u: User): bool { u.role != "admin" }

  /** The delete button, offered for every row except the signed-in admin's. */
  function ShowDelete(u: User, currentUserId: string): bool { u.id != currentUserId }

  /** Promote is never offered to an admin, and delete never to oneself. */
  lemma RowActions(u: User, currentUserId: string)
    ensures u.role == "admin" ==> !ShowPromote(u)
    ensures u.id == currentUserId ==> !ShowDelete(u, currentUserId)
  {
  }
}
