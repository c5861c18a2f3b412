/** The project handlers of the backend (backend/controller/projectController.js)
    over in-memory copies of the `projects`, `project_members` and `users`
    tables. Each handler checks its guards and then applies the effect of its
    SQL statements; the result is the HTTP status it answers with. */
module ProjectController {
  import opened Common
  import opened ProjectMember

  /** A leader may lead at most this many projects. */
  const MaxLedProjects := 6
  /** A project may have at most this many mentor rows. */
  const MaxMentors := 2
  /** `max_members` when the request gives none. */
  const DefaultMaxMembers := 8

  datatype Project = Project(
    id: nat,
    title: string,
    leaderId: string,
    maxMembers: int,
    requiredSkills: seq<string>,
    techStack: seq<string>)

  datatype UserRow = UserRow(id: string, email: string, roles: seq<string>)

  // ---------------------------------------------------------------------
  // Lookups and counts (the SELECT statements)

  predicate UniqueProjectIds(ps: seq<Project>) {
    forall i, j :: 0 <= i < j < |ps| ==> ps[i].id != ps[j].id
  }

  /** `SELECT ... FROM projects WHERE id = $1`. */
  function FindProject(ps: seq<Project>, id: nat): (r: Option<Project>)
    ensures r.Some? ==> r.value in ps && r.value.id == id
    ensures r.None? <==> forall i :: 0 <= i < |ps| ==> ps[i].id != id
  {
    if ps == [] then None
    else if ps[0].id == id then Some(ps[0])
    else FindProject(ps[1..], id)
  }

  /** The guard `project.rows.length === 0 || leader_id !== userId` fails. */
  predicate IsLeader(ps: seq<Project>, projectId: nat, userId: string) {
    var p := FindProject(ps, projectId);
    p.Some? && p.value.leaderId == userId
  }

  /** The number of accepted rows of a project. */
  function AcceptedIn(rows: seq<MemberRow>, projectId: nat): nat
  {
    if rows == [] then 0
    else (if rows[0].projectId == projectId && rows[0].status == Accepted then 1 else 0) + AcceptedIn(rows[1..], projectId)
  }

  /** The number of mentor rows of a project, whatever their status. */
  function MentorsIn(rows: seq<MemberRow>, projectId: nat): nat
  {
    if rows == [] then 0
    else (if rows[0].projectId == projectId && rows[0].role == Mentor then 1 else 0) + MentorsIn(rows[1..], projectId)
  }

  /** The number of projects a user leads. */
  function LedBy(ps: seq<Project>, userId: string): nat
  {
    if ps == [] then 0
    else (if ps[0].leaderId == userId then 1 else 0) + LedBy(ps[1..], userId)
  }

  /** The capacity guard: the project exists and its accepted rows already
      reach `max_members`. */
  predicate IsFull(ps: seq<Project>, rows: seq<MemberRow>, projectId: nat) {
    var p := FindProject(ps, projectId);
    p.Some? && AcceptedIn(rows, projectId) >= p.value.maxMembers
  }

  /** `SELECT * FROM project_members WHERE project_id = $1 AND member_id = $2`. */
  function FindPair(rows: seq<MemberRow>, projectId: nat, memberId: string): (r: Option<MemberRow>)
    ensures r.Some? ==> r.value in rows && r.value.projectId == projectId && r.value.memberId == memberId
    ensures r.None? <==> !HasPair(rows, projectId, memberId)
  {
    if rows == [] then None
    else if rows[0].projectId == projectId && rows[0].memberId == memberId then Some(rows[0])
    else
      var r := FindPair(rows[1..], projectId, memberId);
      assert HasPair(rows, projectId, memberId) ==> HasPair(rows[1..], projectId, memberId) by {
        if HasPair(rows, projectId, memberId) {
          var i :| 0 <= i < |rows| && rows[i].projectId == projectId && rows[i].memberId == memberId;
          assert rows[1..][i - 1] == rows[i];
        }
      }
      assert HasPair(rows[1..], projectId, memberId) ==> HasPair(rows, projectId, memberId) by {
        if HasPair(rows[1..], projectId, memberId) {
          var i :| 0 <= i < |rows[1..]| && rows[1..][i].projectId == projectId && rows[1..][i].memberId == memberId;
          assert rows[i + 1] == rows[1..][i];
        }
      }
      r
  }

  /** A row picked by `WHERE id = $1`, with `AND project_id = $2` when a
      project is given. */
  predicate Selects(r: MemberRow, id: nat, projectId: Option<nat>) {
    r.id == id && (projectId.None? || r.projectId == projectId.value)
  }

  /** `SELECT * FROM project_members WHERE id = $1 AND project_id = $2`. */
  function FindRow(rows: seq<MemberRow>, id: nat, projectId: nat): (r: Option<MemberRow>)
    ensures r.Some? ==> r.value in rows && r.value.id == id && r.value.projectId == projectId
    ensures r.None? ==> forall i :: 0 <= i < |rows| ==> !Selects(rows[i], id, Some(projectId))
  {
    if rows == [] then None
    else if Selects(rows[0], id, Some(projectId)) then Some(rows[0])
    else FindRow(rows[1..], id, projectId)
  }

  /** The number of rows with key `id` in a project. */
  function WithId(rows: seq<MemberRow>, id: nat, projectId: nat): nat
  {
    if rows == [] then 0
    else (if rows[0].id == id && rows[0].projectId == projectId then 1 else 0) + WithId(rows[1..], id, projectId)
  }

  /** The number of rows of a (project, member) pair. */
  function PairCount(rows: seq<MemberRow>, projectId: nat, memberId: string): nat
  {
    if rows == [] then 0
    else (if rows[0].projectId == projectId && rows[0].memberId == memberId then 1 else 0) + PairCount(rows[1..], projectId, memberId)
  }

  // ---------------------------------------------------------------------
  // Table updates (the INSERT, UPDATE and DELETE statements)

  /** Updates leave the key columns of every row alone. */
  predicate SameKeys(a: seq<MemberRow>, b: seq<MemberRow>) {
    |a| == |b| &&
    forall i :: 0 <= i < |a| ==>
      a[i].id == b[i].id && a[i].projectId == b[i].projectId && a[i].memberId == b[i].memberId
  }

  /** `UPDATE project_members SET status = s WHERE ...`. */
  function SetStatus(rows: seq<MemberRow>, id: nat, projectId: Option<nat>, s: Status): (r: seq<MemberRow>)
    ensures SameKeys(rows, r)
    ensures forall i :: 0 <= i < |rows| ==>
      r[i] == if Selects(rows[i], id, projectId) then rows[i].(status := s) else rows[i]
  {
    seq(|rows|, i requires 0 <= i < |rows| =>
      if Selects(rows[i], id, projectId) then rows[i].(status := s) else rows[i])
  }

  /** `UPDATE project_members SET role = 'mentor' WHERE project_id = $1 AND
      member_id = $2 AND status = 'accepted'`. */
  function PromoteMentor(rows: seq<MemberRow>, projectId: nat, memberId: string): (r: seq<MemberRow>)
    ensures SameKeys(rows, r)
    ensures forall i :: 0 <= i < |rows| ==>
      r[i] == if rows[i].projectId == projectId && rows[i].memberId == memberId && rows[i].status == Accepted
              then rows[i].(role := Mentor) else rows[i]
  {
    seq(|rows|, i requires 0 <= i < |rows| =>
      if rows[i].projectId == projectId && rows[i].memberId == memberId && rows[i].status == Accepted
      then rows[i].(role := Mentor) else rows[i])
  }

  /** `UPDATE project_members SET has_rated = TRUE, rating = $1 WHERE
      project_id = $2 AND member_id = $3`. */
  function MarkRated(rows: seq<MemberRow>, projectId: nat, memberId: string, rating: Option<int>): (r: seq<MemberRow>)
    ensures SameKeys(rows, r)
    ensures forall i :: 0 <= i < |rows| ==>
      r[i] == if rows[i].projectId == projectId && rows[i].memberId == memberId
              then rows[i].(hasRated := true, rating := rating) else rows[i]
  {
    seq(|rows|, i requires 0 <= i < |rows| =>
      if rows[i].projectId == projectId && rows[i].memberId == memberId
      then rows[i].(hasRated := true, rating := rating) else rows[i])
  }

  predicate KeepRow(r: MemberRow, id: nat, projectId: nat) {
    !Selects(r, id, Some(projectId))
  }

  /** `DELETE FROM project_members WHERE id = $1 AND project_id = $2`. */
  function DeleteRow(rows: seq<MemberRow>, id: nat, projectId: nat): (r: seq<MemberRow>)
    ensures forall x :: x in r <==> x in rows && KeepRow(x, id, projectId)
    ensures IsSubsequence(r, rows)
  {
    var r := Filter(rows, (x: MemberRow) => KeepRow(x, id, projectId));
    FilterIsSubsequence(rows, (x: MemberRow) => KeepRow(x, id, projectId));
    r
  }

  /** `UPDATE users SET roles = array_append(roles, role) WHERE id = $1 AND
      role <> ALL(roles)`. */
  function AddRole(users: seq<UserRow>, userId: string, role: string): (r: seq<UserRow>)
    ensures |r| == |users|
    ensures forall i :: 0 <= i < |users| ==>
      r[i] == if users[i].id == userId && role !in users[i].roles
              then users[i].(roles := users[i].roles + [role]) else users[i]
  {
    seq(|users|, i requires 0 <= i < |users| =>
      if users[i].id == userId && role !in users[i].roles
      then users[i].(roles := users[i].roles + [role]) else users[i])
  }

  /** After the update the user holds the role, and a second update is a
      no-op. */
  lemma AddRoleIdempotent(users: seq<UserRow>, userId: string, role: string)
    ensures var r := AddRole(users, userId, role);
      AddRole(r, userId, role) == r &&
      forall i :: 0 <= i < |r| && r[i].id == userId ==> role in r[i].roles
  {
    var r := AddRole(users, userId, role);
    var r2 := AddRole(r, userId, role);
    forall i | 0 <= i < |r| ensures r2[i] == r[i] && (r[i].id == userId ==> role in r[i].roles) {
      if users[i].id == userId && role !in users[i].roles {
        assert r[i].roles[|users[i].roles|] == role;
      }
    }
  }

  // ---------------------------------------------------------------------
  // How the counts move under each table update

  lemma {:induction false} CountsAppend(rows: seq<MemberRow>, x: MemberRow, p: nat)
    ensures AcceptedIn(rows + [x], p)
      == AcceptedIn(rows, p) + (if x.projectId == p && x.status == Accepted then 1 else 0)
    ensures MentorsIn(rows + [x], p)
      == MentorsIn(rows, p) + (if x.projectId == p && x.role == Mentor then 1 else 0)
  {
    if rows != [] {
      assert (rows + [x])[1..] == rows[1..] + [x];
      CountsAppend(rows[1..], x, p);
    } else {
      assert [] + [x] == [x];
    }
  }

  /** A table with no row of a project counts nothing for it. */
  lemma {:induction false} CountsAbsent(rows: seq<MemberRow>, p: nat)
    requires forall i :: 0 <= i < |rows| ==> rows[i].projectId != p
    ensures AcceptedIn(rows, p) == 0 && MentorsIn(rows, p) == 0
  {
    if rows != [] {
      CountsAbsent(rows[1..], p);
    }
  }

  /** A status update leaves the mentor count alone, and raises the accepted
      count of a project by no more than the rows it selects there. */
  lemma {:induction false} CountsSetStatus(rows: seq<MemberRow>, id: nat, proj: Option<nat>, s: Status, p: nat)
    ensures MentorsIn(SetStatus(rows, id, proj, s), p) == MentorsIn(rows, p)
    ensures AcceptedIn(SetStatus(rows, id, proj, s), p)
      <= AcceptedIn(rows, p) + (if s == Accepted && (proj.None? || proj.value == p) then WithId(rows, id, p) else 0)
  {
    if rows != [] {
      CountsSetStatus(rows[1..], id, proj, s, p);
      assert SetStatus(rows, id, proj, s)[1..] == SetStatus(rows[1..], id, proj, s);
    }
  }

  /** With unique row keys a key picks at most one row, and none in another
      project than its own. */
  lemma {:induction false} WithIdUnique(rows: seq<MemberRow>, id: nat, p: nat)
    requires UniqueIds(rows)
    ensures WithId(rows, id, p) <= 1
    ensures (exists i :: 0 <= i < |rows| && rows[i].id == id && rows[i].projectId != p) ==> WithId(rows, id, p) == 0
  {
    if rows != [] {
      assert UniqueIds(rows[1..]) by {
        forall i, j | 0 <= i < j < |rows[1..]| ensures rows[1..][i].id != rows[1..][j].id {
          assert rows[1..][i] == rows[i + 1] && rows[1..][j] == rows[j + 1];
        }
      }
      WithIdUnique(rows[1..], id, p);
      if rows[0].id == id {
        NoOtherId(rows[1..], id, p, rows[0]);
      } else if exists i :: 0 <= i < |rows| && rows[i].id == id && rows[i].projectId != p {
        var i :| 0 <= i < |rows| && rows[i].id == id && rows[i].projectId != p;
        assert rows[1..][i - 1] == rows[i];
      }
    }
  }

  lemma {:induction false} NoOtherId(rows: seq<MemberRow>, id: nat, p: nat, first: MemberRow)
    requires first.id == id
    requires forall i :: 0 <= i < |rows| ==> rows[i].id != first.id
    ensures WithId(rows, id, p) == 0
  {
    if rows != [] {
      NoOtherId(rows[1..], id, p, first);
    }
  }

  /** Promoting a mentor leaves accepted counts alone and adds at most the
      rows of that pair to that project's mentors. */
  lemma {:induction false} CountsPromote(rows: seq<MemberRow>, q: nat, m: string, p: nat)
    ensures AcceptedIn(PromoteMentor(rows, q, m), p) == AcceptedIn(rows, p)
    ensures MentorsIn(PromoteMentor(rows, q, m), p)
      <= MentorsIn(rows, p) + (if p == q then PairCount(rows, q, m) else 0)
  {
    if rows != [] {
      CountsPromote(rows[1..], q, m, p);
      assert PromoteMentor(rows, q, m)[1..] == PromoteMentor(rows[1..], q, m);
    }
  }

  /** With a unique (project, member) index a pair has at most one row. */
  lemma {:induction false} PairCountUnique(rows: seq<MemberRow>, q: nat, m: string)
    requires UniquePairs(rows)
    ensures PairCount(rows, q, m) <= 1
  {
    if rows != [] {
      assert UniquePairs(rows[1..]) by {
        forall i, j | 0 <= i < j < |rows[1..]|
          ensures (rows[1..][i].projectId, rows[1..][i].memberId) != (rows[1..][j].projectId, rows[1..][j].memberId)
        {
          assert rows[1..][i] == rows[i + 1] && rows[1..][j] == rows[j + 1];
        }
      }
      PairCountUnique(rows[1..], q, m);
      if rows[0].projectId == q && rows[0].memberId == m {
        NoOtherPair(rows[1..], q, m);
      }
    }
  }

  lemma {:induction false} NoOtherPair(rows: seq<MemberRow>, q: nat, m: string)
    requires !HasPair(rows, q, m)
    ensures PairCount(rows, q, m) == 0
  {
    if rows != [] {
      forall i | 0 <= i < |rows[1..]|
        ensures !(rows[1..][i].projectId == q && rows[1..][i].memberId == m)
      {
        assert rows[1..][i] == rows[i + 1];
      }
      NoOtherPair(rows[1..], q, m);
    }
  }

  lemma {:induction false} CountsMarkRated(rows: seq<MemberRow>, q: nat, m: string, rating: Option<int>, p: nat)
    ensures AcceptedIn(MarkRated(rows, q, m, rating), p) == AcceptedIn(rows, p)
    ensures MentorsIn(MarkRated(rows, q, m, rating), p) == MentorsIn(rows, p)
  {
    if rows != [] {
      CountsMarkRated(rows[1..], q, m, rating, p);
      assert MarkRated(rows, q, m, rating)[1..] == MarkRated(rows[1..], q, m, rating);
    }
  }

  /** Deleting rows never raises a count. */
  lemma {:induction false} CountsFilter(rows: seq<MemberRow>, keep: MemberRow -> bool, p: nat)
    ensures AcceptedIn(Filter(rows, keep), p) <= AcceptedIn(rows, p)
    ensures MentorsIn(Filter(rows, keep), p) <= MentorsIn(rows, p)
  {
    if rows != [] {
      CountsFilter(rows[1..], keep, p);
    }
  }

  lemma {:induction false} LedByAppend(ps: seq<Project>, x: Project, u: string)
    ensures LedBy(ps + [x], u) == LedBy(ps, u) + (if x.leaderId == u then 1 else 0)
  {
    if ps != [] {
      assert (ps + [x])[1..] == ps[1..] + [x];
      LedByAppend(ps[1..], x, u);
    } else {
      assert [] + [x] == [x];
    }
  }

  // ---------------------------------------------------------------------
  // Uniqueness of the keys under the updates

  lemma SameKeysUnique(a: seq<MemberRow>, b: seq<MemberRow>)
    requires SameKeys(a, b)
    ensures UniquePairs(a) ==> UniquePairs(b)
    ensures UniqueIds(a) ==> UniqueIds(b)
  {
  }

  lemma {:induction false} FilterUnique(rows: seq<MemberRow>, keep: MemberRow -> bool)
    requires UniquePairs(rows) && UniqueIds(rows)
    ensures UniquePairs(Filter(rows, keep)) && UniqueIds(Filter(rows, keep))
  {
    if rows != [] {
      var t := rows[1..];
      assert UniquePairs(t) && UniqueIds(t) by {
        forall i, j | 0 <= i < j < |t|
          ensures (t[i].projectId, t[i].memberId) != (t[j].projectId, t[j].memberId) && t[i].id != t[j].id
        {
          assert t[i] == rows[i + 1] && t[j] == rows[j + 1];
        }
      }
      FilterUnique(t, keep);
      var f := Filter(t, keep);
      if keep(rows[0]) {
        var g := [rows[0]] + f;
        forall i, j | 0 <= i < j < |g|
          ensures (g[i].projectId, g[i].memberId) != (g[j].projectId, g[j].memberId) && g[i].id != g[j].id
        {
          if i == 0 {
            assert g[j] == f[j - 1] && g[j] in t;
            var k :| 0 <= k < |t| && t[k] == g[j];
            assert rows[k + 1] == t[k];
          } else {
            assert g[i] == f[i - 1] && g[j] == f[j - 1];
          }
        }
      }
    }
  }

  /** A row with a fresh key and a new pair keeps both indexes unique. */
  lemma InsertUnique(rows: seq<MemberRow>, x: MemberRow)
    requires UniquePairs(rows) && UniqueIds(rows)
    requires forall i :: 0 <= i < |rows| ==> rows[i].id < x.id
    requires !HasPair(rows, x.projectId, x.memberId)
    ensures UniquePairs(rows + [x]) && UniqueIds(rows + [x])
  {
    InsertKeepsUnique(rows, x);
    var s := rows + [x];
    forall i, j | 0 <= i < j < |s| ensures s[i].id != s[j].id {
      if j == |rows| {
        assert s[i] == rows[i];
      } else {
        assert s[i] == rows[i] && s[j] == rows[j];
      }
    }
  }

  // ---------------------------------------------------------------------
  // The business limits

  /** No project has more accepted rows than its `max_members`. */
  predicate Capacity(ps: seq<Project>, rows: seq<MemberRow>) {
    forall i :: 0 <= i < |ps| ==> AcceptedIn(rows, ps[i].id) <= ps[i].maxMembers
  }

  /** No project has more than two mentor rows. */
  predicate MentorLimit(ps: seq<Project>, rows: seq<MemberRow>) {
    forall i :: 0 <= i < |ps| ==> MentorsIn(rows, ps[i].id) <= MaxMentors
  }

  /** No user leads more than six projects. */
  predicate LeaderLimit(ps: seq<Project>) {
    forall i :: 0 <= i < |ps| ==> LedBy(ps, ps[i].leaderId) <= MaxLedProjects
  }

  predicate WithinLimits(ps: seq<Project>, rows: seq<MemberRow>) {
    Capacity(ps, rows) && MentorLimit(ps, rows) && LeaderLimit(ps)
  }

  /** The limits survive a change of the member table that raises counts in
      project `q` only, and there only up to the limits. */
  lemma LimitsAfterChange(ps: seq<Project>, a: seq<MemberRow>, b: seq<MemberRow>, q: nat)
    requires WithinLimits(ps, a) && UniqueProjectIds(ps)
    requires forall p :: p != q ==> AcceptedIn(b, p) <= AcceptedIn(a, p) && MentorsIn(b, p) <= MentorsIn(a, p)
    requires FindProject(ps, q).Some? ==>
      AcceptedIn(b, q) <= FindProject(ps, q).value.maxMembers && MentorsIn(b, q) <= MaxMentors
    ensures WithinLimits(ps, b)
  {
    forall i | 0 <= i < |ps|
      ensures AcceptedIn(b, ps[i].id) <= ps[i].maxMembers && MentorsIn(b, ps[i].id) <= MaxMentors
    {
      if ps[i].id == q {
        var p := FindProject(ps, q).value;
        var j :| 0 <= j < |ps| && ps[j] == p;
        assert i == j;
      }
    }
  }

  // ---------------------------------------------------------------------
  // getUserProjects: array columns that may arrive as Postgres array text

  datatype Column = ArrayValue(items: seq<string>) | TextValue(text: string) | OtherValue

  predicate IsBrace(c: char) { c == '{' || c == '}' }

  predicate NotBrace(c: char) { !IsBrace(c) }

  /** `replace(/[{}]/g, "")`: every brace goes, every other character
      stays, in order. */
  function StripBraces(s: string): (r: string)
    ensures forall c :: c in r <==> c in s && !IsBrace(c)
    ensures IsSubsequence(r, s)
    ensures |r| + Occurrences(s, '{') + Occurrences(s, '}') == |s|
  {
    FilterIsSubsequence(s, NotBrace);
    BraceCount(s);
    Filter(s, NotBrace)
  }

  lemma {:induction false} BraceCount(s: string)
    ensures |Filter(s, NotBrace)| + Occurrences(s, '{') + Occurrences(s, '}') == |s|
  {
    if s != [] {
      BraceCount(s[1..]);
    }
  }

  function TrimAll(parts: seq<string>): (r: seq<string>)
    ensures |r| == |parts|
    ensures forall i :: 0 <= i < |parts| ==> r[i] == JsTrim(parts[i])
  {
    seq(|parts|, i requires 0 <= i < |parts| => JsTrim(parts[i]))
  }

  predicate IsEmptyText(t: string) { t == "" }

  predicate NonEmptyText(t: string) { t != "" }

  /** `filter(Boolean)` on strings. */
  function NonEmpty(parts: seq<string>): seq<string> {
    Filter(parts, NonEmptyText)
  }

  /** The trimmed comma pieces of a text column without its braces. */
  function ColumnPieces(text: string): seq<string> {
    TrimAll(Split(StripBraces(text), ','))
  }

  /** The list a column is shown as. A text column keeps, in order, exactly
      the non-empty trimmed pieces: a subsequence of the pieces that holds
      every non-empty one and is as long as there are non-empty pieces. */
  function FormatColumn(c: Column): (r: seq<string>)
    ensures c.ArrayValue? ==> r == c.items
    ensures c.OtherValue? ==> r == []
    ensures c.TextValue? ==> forall t :: t in r ==> PlainItem(t)
    ensures c.TextValue? ==> (var pieces := ColumnPieces(c.text);
      IsSubsequence(r, pieces) && (forall t :: t in r <==> t in pieces && t != "")
      && |r| + Count(pieces, IsEmptyText) == |pieces|)
  {
    match c
    case ArrayValue(items) => items
    case OtherValue => []
    case TextValue(text) =>
      var pieces := ColumnPieces(text);
      var r := NonEmpty(pieces);
      assert forall t :: t in r ==> PlainItem(t) by {
        forall t | t in r ensures PlainItem(t) {
          TrimmedPieceShape(StripBraces(text), t);
        }
      }
      FilterIsSubsequence(pieces, NonEmptyText);
      CountSplit(pieces, NonEmptyText, IsEmptyText);
      r
  }

  /** A trimmed piece of a comma split holds characters of the text other
      than the comma, and starts and ends with a character that is not white
      space. */
  lemma TrimmedPieceShape(s: string, t: string)
    requires t in TrimAll(Split(s, ',')) && t != ""
    ensures forall m :: 0 <= m < |t| ==> t[m] in s && t[m] != ','
    ensures !IsJsSpace(t[0]) && !IsJsSpace(t[|t| - 1])
  {
    var parts := Split(s, ',');
    var k :| 0 <= k < |parts| && TrimAll(parts)[k] == t;
    TrimmedEnds(parts[k], t);
    SplitChars(s, ',');
    PieceChars(s, parts[k], t);
  }

  lemma TrimmedEnds(piece: string, t: string)
    requires t == JsTrim(piece) && t != ""
    ensures !IsJsSpace(t[0]) && !IsJsSpace(t[|t| - 1])
    ensures forall m :: 0 <= m < |t| ==> t[m] in piece
  {
    TrimEnds(piece, IsJsSpace);
  }

  lemma PieceChars(s: string, piece: string, t: string)
    requires forall c :: c in piece ==> c in s && c != ','
    requires forall m :: 0 <= m < |t| ==> t[m] in piece
    ensures forall m :: 0 <= m < |t| ==> t[m] in s && t[m] != ','
  {
  }

  /** Postgres' text form of a text array without quoting. */
  function ArrayText(items: seq<string>): string {
    "{" + Join(items, ",") + "}"
  }

  /** Items a text array can carry unquoted and that survive trimming. */
  predicate PlainItem(t: string) {
    t != "" && ',' !in t && '{' !in t && '}' !in t && !IsJsSpace(t[0]) && !IsJsSpace(t[|t| - 1])
  }

  /** A text column holding the array text of plain items is shown as those
      items, the same as if it had arrived as an array. */
  lemma ArrayTextRoundTrip(items: seq<string>)
    requires forall i :: 0 <= i < |items| ==> PlainItem(items[i])
    ensures FormatColumn(TextValue(ArrayText(items))) == FormatColumn(ArrayValue(items))
  {
    var j := Join(items, ",");
    NoBraceInJoin(items);
    assert StripBraces(ArrayText(items)) == j by {
      assert ArrayText(items) == ['{'] + j + ['}'];
      FilterAll(j, NotBrace);
      FilterAppend(['{'] + j, ['}'], NotBrace);
      FilterAppend(['{'], j, NotBrace);
    }
    if items == [] {
      assert Split(j, ',') == [""];
    } else {
      JoinSplit(items, ',');
      assert TrimAll(items) == items by {
        forall i | 0 <= i < |items| ensures JsTrim(items[i]) == items[i] {
          TrimFixed(items[i], IsJsSpace);
        }
      }
      FilterAll(items, NonEmptyText);
    }
  }

  lemma {:induction false} NoBraceInJoin(items: seq<string>)
    requires forall i :: 0 <= i < |items| ==> PlainItem(items[i])
    ensures forall c :: c in Join(items, ",") ==> !IsBrace(c)
  {
    if |items| > 1 {
      NoBraceInJoin(items[1..]);
      assert Join(items, ",") == items[0] + "," + Join(items[1..], ",");
    }
  }

  // ---------------------------------------------------------------------
  // createProject: the comma-separated skill and technology lists

  /** `text ? text.split(",").map(s => s.trim()) : []`. */
  function CommaList(text: Option<string>): (r: seq<string>)
    ensures text.None? || text.value == "" ==> r == []
    ensures text.Some? && text.value != "" ==> |r| == Occurrences(text.value, ',') + 1
    ensures text.Some? && text.value != "" ==> (|r| == |Split(text.value, ',')|
      && forall i :: 0 <= i < |r| ==> r[i] == JsTrim(Split(text.value, ',')[i]))
    ensures forall i :: 0 <= i < |r| ==> ',' !in r[i]
  {
    if text.None? || text.value == "" then []
    else
      var parts := Split(text.value, ',');
      SplitCount(text.value, ',');
      var r := TrimAll(parts);
      assert forall i :: 0 <= i < |r| ==> ',' !in r[i] by {
        forall i | 0 <= i < |r| ensures ',' !in r[i] {
          TrimEnds(parts[i], IsJsSpace);
        }
      }
      r
  }

  /** `maxMembers || 8`: an absent or zero value gives the default. */
  function EffectiveMax(maxMembers: Option<int>): (r: int)
    ensures maxMembers.None? || maxMembers.value == 0 ==> r == DefaultMaxMembers
    ensures maxMembers.Some? && maxMembers.value != 0 ==> r == maxMembers.value
  {
    if maxMembers.None? || maxMembers.value == 0 then DefaultMaxMembers else maxMembers.value
  }

  /** The tables' keys: unique project keys, unique row keys, a unique
      (project, member) index, and every key below the next one handed out. */
  predicate KeysValid(ps: seq<Project>, rows: seq<MemberRow>, nextProjectId: nat, nextRowId: nat) {
    UniqueProjectIds(ps) && UniquePairs(rows) && UniqueIds(rows) &&
    (forall i :: 0 <= i < |ps| ==> ps[i].id < nextProjectId) &&
    (forall i :: 0 <= i < |rows| ==> rows[i].id < nextRowId && rows[i].projectId < nextProjectId)
  }

  /** A project with the next project key and its first row with the next
      row key keep the keys valid. */
  lemma NewProjectKeys(ps: seq<Project>, rows: seq<MemberRow>, nextProjectId: nat, nextRowId: nat, p: Project, row: MemberRow)
    requires KeysValid(ps, rows, nextProjectId, nextRowId)
    requires p.id == nextProjectId && row.id == nextRowId && row.projectId == nextProjectId
    ensures KeysValid(ps + [p], rows + [row], nextProjectId + 1, nextRowId + 1)
    ensures forall i :: 0 <= i < |rows| ==> rows[i].projectId != p.id
  {
    assert !HasPair(rows, row.projectId, row.memberId);
    InsertUnique(rows, row);
    var ps2 := ps + [p];
    forall i, j | 0 <= i < j < |ps2| ensures ps2[i].id != ps2[j].id {
      assert ps2[i] == ps[i];
    }
  }

  // ---------------------------------------------------------------------
  // The handlers

  class ProjectStore {
    var projects: seq<Project>
    var members: seq<MemberRow>
    var users: seq<UserRow>
    /** The next key the tables' sequences hand out. */
    var nextProjectId: nat
    var nextRowId: nat

    /** The tables' keys: unique project keys, unique row keys, a unique
        (project, member) index, and every key below the next one handed out. */
    predicate Valid()
      reads this
    {
      KeysValid(projects, members, nextProjectId, nextRowId)
    }

    /** The business limits: capacity, two mentors, six led projects. */
    predicate Limits()
      reads this
    {
      WithinLimits(projects, members)
    }

    constructor(users: seq<UserRow>)
      ensures Valid() && Limits()
      ensures projects == [] && members == [] && this.users == users
    {
      projects := [];
      members := [];
      this.users := users;
      nextProjectId := 0;
      nextRowId := 0;
    }

    /** inviteMember. */
    method InviteMember(projectId: nat, requester: string, userId: string) returns (code: int)
      requires Valid()
      modifies this
      ensures Valid()
      ensures projects == old(projects) && users == old(users) && nextProjectId == old(nextProjectId)
      ensures !IsLeader(old(projects), projectId, requester) ==> code == 403 && members == old(members)
      ensures IsLeader(old(projects), projectId, requester) && HasPair(old(members), projectId, userId) ==>
        code == 409 && members == old(members)
      ensures (IsLeader(old(projects), projectId, requester) && !HasPair(old(members), projectId, userId) &&
               IsFull(old(projects), old(members), projectId)) ==>
        code == 403 && members == old(members)
      ensures (IsLeader(old(projects), projectId, requester) && !HasPair(old(members), projectId, userId) &&
               !IsFull(old(projects), old(members), projectId)) ==>
        code == 200 && members == old(members) + [NewRow(old(nextRowId), projectId, userId, Some(Member), Some(Invited))]
      ensures old(Limits()) ==> Limits()
    {
      if !IsLeader(projects, projectId, requester) {
        return 403;
      }
      if FindPair(members, projectId, userId).Some? {
        return 409;
      }
      if IsFull(projects, members, projectId) {
        return 403;
      }
      var row := NewRow(nextRowId, projectId, userId, Some(Member), Some(Invited));
      InsertRow(row);
      code := 200;
    }

    /** Appends a row whose key is the next one and whose pair is new; the
        new row is neither accepted nor a mentor, or is accepted into a
        project that has room. */
    method InsertRow(row: MemberRow)
      requires Valid()
      requires row.id == nextRowId && row.projectId < nextProjectId
      requires !HasPair(members, row.projectId, row.memberId)
      requires row.role != Mentor
      requires row.status == Accepted ==> !IsFull(projects, members, row.projectId)
      modifies this
      ensures Valid()
      ensures members == old(members) + [row] && nextRowId == old(nextRowId) + 1
      ensures projects == old(projects) && users == old(users) && nextProjectId == old(nextProjectId)
      ensures old(Limits()) ==> Limits()
    {
      InsertUnique(members, row);
      var before := members;
      members := members + [row];
      nextRowId := nextRowId + 1;
      forall p | true ensures AcceptedIn(members, p) == AcceptedIn(before, p) + (if row.projectId == p && row.status == Accepted then 1 else 0)
        && MentorsIn(members, p) == MentorsIn(before, p) {
        CountsAppend(before, row, p);
      }
      if WithinLimits(projects, before) {
        LimitsAfterChange(projects, before, members, row.projectId);
      }
    }

    /** applyToProject, the definition at line 837 that is in force. */
    method ApplyToProject(projectId: nat, userId: string) returns (code: int)
      requires Valid()
      modifies this
      ensures Valid()
      ensures projects == old(projects) && users == old(users) && nextProjectId == old(nextProjectId)
      ensures var existing := FindPair(old(members), projectId, userId);
        var project := FindProject(old(projects), projectId);
        if existing.Some? && existing.value.status in {Accepted, Pending} then
          code == 400 && members == old(members)
        else if project.None? then
          code == 404 && members == old(members)
        else if project.value.leaderId == userId then
          code == 400 && members == old(members)
        else if IsFull(old(projects), old(members), projectId) then
          code == 400 && members == old(members)
        else if existing.Some? then
          // an invitation row: the INSERT breaks the unique index
          code == 500 && members == old(members)
        else
          code == 200 &&
          members == old(members) + [NewRow(old(nextRowId), projectId, userId, Some(Member), Some(Pending))]
      ensures old(Limits()) ==> Limits()
    {
      var existing := FindPair(members, projectId, userId);
      if existing.Some? && (existing.value.status == Accepted || existing.value.status == Pending) {
        return 400;
      }
      var project := FindProject(projects, projectId);
      if project.None? {
        return 404;
      }
      if project.value.leaderId == userId {
        return 400;
      }
      if IsFull(projects, members, projectId) {
        return 400;
      }
      if existing.Some? {
        return 500;
      }
      InsertRow(NewRow(nextRowId, projectId, userId, Some(Member), Some(Pending)));
      code := 200;
    }

    /** acceptJoinRequest: any row of the project with that key becomes
        accepted, whatever its status was; no row is not an error. */
    method AcceptJoinRequest(projectId: nat, requestId: nat, requester: string) returns (code: int)
      requires Valid()
      modifies this
      ensures Valid()
      ensures projects == old(projects) && users == old(users)
      ensures nextProjectId == old(nextProjectId) && nextRowId == old(nextRowId)
      ensures !IsLeader(old(projects), projectId, requester) ==> code == 403 && members == old(members)
      ensures IsLeader(old(projects), projectId, requester) && IsFull(old(projects), old(members), projectId) ==>
        code == 403 && members == old(members)
      ensures IsLeader(old(projects), projectId, requester) && !IsFull(old(projects), old(members), projectId) ==>
        code == 200 && members == SetStatus(old(members), requestId, Some(projectId), Accepted)
      ensures old(Limits()) ==> Limits()
    {
      if !IsLeader(projects, projectId, requester) {
        return 403;
      }
      if IsFull(projects, members, projectId) {
        return 403;
      }
      ApplyStatus(requestId, Some(projectId), projectId, Accepted);
      code := 200;
    }

    /** Sets the status of the rows a key selects, all of them in project
        `q`; accepting needs room in `q`. */
    method ApplyStatus(id: nat, proj: Option<nat>, q: nat, s: Status)
      requires Valid()
      requires proj.Some? ==> proj.value == q
      requires proj.None? ==> forall i :: 0 <= i < |members| && members[i].id == id ==> members[i].projectId == q
      requires s == Accepted ==> !IsFull(projects, members, q)
      modifies this
      ensures Valid()
      ensures members == SetStatus(old(members), id, proj, s)
      ensures projects == old(projects) && users == old(users)
      ensures nextProjectId == old(nextProjectId) && nextRowId == old(nextRowId)
      ensures old(Limits()) ==> Limits()
    {
      var before := members;
      members := SetStatus(members, id, proj, s);
      SameKeysUnique(before, members);
      forall p | true ensures AcceptedIn(members, p) <= AcceptedIn(before, p) + (if p == q && s == Accepted then 1 else 0)
        && MentorsIn(members, p) == MentorsIn(before, p) {
        CountsSetStatus(before, id, proj, s, p);
        WithIdUnique(before, id, p);
        if p != q && s == Accepted && proj.None? && WithId(before, id, p) > 0 {
          WithIdWitness(before, id, p);
        }
      }
      if WithinLimits(projects, before) {
        LimitsAfterChange(projects, before, members, q);
      }
    }

    /** rejectJoinRequest: the row of the project with that key is deleted. */
    method RejectJoinRequest(projectId: nat, requestId: nat, requester: string) returns (code: int)
      requires Valid()
      modifies this
      ensures Valid()
      ensures projects == old(projects) && users == old(users)
      ensures nextProjectId == old(nextProjectId) && nextRowId == old(nextRowId)
      ensures !IsLeader(old(projects), projectId, requester) ==> code == 403 && members == old(members)
      ensures IsLeader(old(projects), projectId, requester) ==>
        code == 200 && members == DeleteRow(old(members), requestId, projectId)
      ensures old(Limits()) ==> Limits()
    {
      if !IsLeader(projects, projectId, requester) {
        return 403;
      }
      var before := members;
      var keep := (x: MemberRow) => KeepRow(x, requestId, projectId);
      members := DeleteRow(members, requestId, projectId);
      assert members == Filter(before, keep);
      FilterUnique(before, keep);
      forall p | true ensures AcceptedIn(members, p) <= AcceptedIn(before, p) && MentorsIn(members, p) <= MentorsIn(before, p) {
        CountsFilter(before, keep, p);
      }
      if WithinLimits(projects, before) {
        LimitsAfterChange(projects, before, members, projectId);
      }
      forall i | 0 <= i < |members|
        ensures members[i].id < nextRowId && members[i].projectId < nextProjectId
      {
        assert members[i] in before;
      }
      code := 200;
    }

    /** getPendingRequests. */
    method GetPendingRequests(projectId: nat, requester: string) returns (code: int, requests: seq<MemberRow>)
      ensures !IsLeader(projects, projectId, requester) ==> code == 403 && requests == []
      ensures IsLeader(projects, projectId, requester) ==>
        (code == 200 && IsSubsequence(requests, members) &&
         forall x :: x in requests <==> x in members && x.projectId == projectId && x.status == Pending)
    {
      if !IsLeader(projects, projectId, requester) {
        return 403, [];
      }
      var pending := (x: MemberRow) => x.projectId == projectId && x.status == Pending;
      requests := Filter(members, pending);
      FilterIsSubsequence(members, pending);
      code := 200;
    }

    /** updateMembershipStatus as written: a member accepting their own
        invitation is not held to the capacity check. A status text outside
        the enumeration is refused by the table and answers 500. */
    method UpdateMembershipStatus(projectId: nat, rowId: nat, status: string, requester: string) returns (code: int)
      requires Valid()
      modifies this
      ensures Valid()
      ensures projects == old(projects) && users == old(users)
      ensures nextProjectId == old(nextProjectId) && nextRowId == old(nextRowId)
      ensures var row := FindRow(old(members), rowId, projectId);
        if row.None? then
          code == 404 && members == old(members)
        else if requester == row.value.memberId && status == "accepted" then
          if row.value.status != Invited then code == 403 && members == old(members)
          else code == 200 && members == SetStatus(old(members), rowId, None, Accepted)
        else if !IsLeader(old(projects), projectId, requester) then
          code == 403 && members == old(members)
        else if status == "accepted" && IsFull(old(projects), old(members), projectId) then
          code == 403 && members == old(members)
        else if ParseStatus(status).None? then
          code == 500 && members == old(members)
        else
          code == 200 && members == SetStatus(old(members), rowId, None, ParseStatus(status).value)
    {
      var row := FindRow(members, rowId, projectId);
      if row.None? {
        return 404;
      }
      if requester == row.value.memberId && status == "accepted" {
        if row.value.status != Invited {
          return 403;
        }
        UniqueKeyInProject(members, row.value);
        members := SetStatus(members, rowId, None, Accepted);
        SameKeysUnique(old(members), members);
        return 200;
      }
      code := LeaderSetsStatus(projectId, rowId, status, requester, row.value);
    }

    /** updateMembershipStatus with the capacity check on both paths. */
    method UpdateMembershipStatusChecked(projectId: nat, rowId: nat, status: string, requester: string) returns (code: int)
      requires Valid()
      modifies this
      ensures Valid()
      ensures projects == old(projects) && users == old(users)
      ensures nextProjectId == old(nextProjectId) && nextRowId == old(nextRowId)
      ensures var row := FindRow(old(members), rowId, projectId);
        if row.None? then
          code == 404 && members == old(members)
        else if requester == row.value.memberId && status == "accepted" then
          if row.value.status != Invited || IsFull(old(projects), old(members), projectId) then
            code == 403 && members == old(members)
          else code == 200 && members == SetStatus(old(members), rowId, None, Accepted)
        else if !IsLeader(old(projects), projectId, requester) then
          code == 403 && members == old(members)
        else if status == "accepted" && IsFull(old(projects), old(members), projectId) then
          code == 403 && members == old(members)
        else if ParseStatus(status).None? then
          code == 500 && members == old(members)
        else
          code == 200 && members == SetStatus(old(members), rowId, None, ParseStatus(status).value)
      ensures old(Limits()) ==> Limits()
    {
      var row := FindRow(members, rowId, projectId);
      if row.None? {
        return 404;
      }
      if requester == row.value.memberId && status == "accepted" {
        if row.value.status != Invited || IsFull(projects, members, projectId) {
          return 403;
        }
        UniqueKeyInProject(members, row.value);
        ApplyStatus(rowId, None, projectId, Accepted);
        return 200;
      }
      code := LeaderSetsStatus(projectId, rowId, status, requester, row.value);
    }

    /** The leader's path of updateMembershipStatus. */
    method LeaderSetsStatus(projectId: nat, rowId: nat, status: string, requester: string, row: MemberRow) returns (code: int)
      requires Valid()
      requires row in members && row.id == rowId && row.projectId == projectId
      modifies this
      ensures Valid()
      ensures projects == old(projects) && users == old(users)
      ensures nextProjectId == old(nextProjectId) && nextRowId == old(nextRowId)
      ensures
        if !IsLeader(old(projects), projectId, requester) then
          code == 403 && members == old(members)
        else if status == "accepted" && IsFull(old(projects), old(members), projectId) then
          code == 403 && members == old(members)
        else if ParseStatus(status).None? then
          code == 500 && members == old(members)
        else
          code == 200 && members == SetStatus(old(members), rowId, None, ParseStatus(status).value)
      ensures old(Limits()) ==> Limits()
    {
      if !IsLeader(projects, projectId, requester) {
        return 403;
      }
      if status == "accepted" && IsFull(projects, members, projectId) {
        return 403;
      }
      var s := ParseStatus(status);
      if s.None? {
        return 500;
      }
      UniqueKeyInProject(members, row);
      ApplyStatus(rowId, None, projectId, s.value);
      code := 200;
    }

    /** createProject. The new project takes the next key, its creator joins
        it as the accepted leader, and the creator's roles gain "leader". */
    method CreateProject(requester: string, title: string, requiredSkills: Option<string>,
                         techStack: Option<string>, maxMembers: Option<int>)
      returns (code: int, projectId: Option<nat>)
      requires Valid()
      modifies this
      ensures Valid()
      ensures LedBy(old(projects), requester) >= MaxLedProjects ==>
        code == 403 && projectId.None? && projects == old(projects) && members == old(members) && users == old(users)
      ensures LedBy(old(projects), requester) < MaxLedProjects ==>
        code == 201 && projectId == Some(old(nextProjectId)) &&
        projects == old(projects) + [Project(old(nextProjectId), title, requester, EffectiveMax(maxMembers),
                                             CommaList(requiredSkills), CommaList(techStack))] &&
        members == old(members) + [NewRow(old(nextRowId), old(nextProjectId), requester, Some(Leader), Some(Accepted))] &&
        users == AddRole(old(users), requester, "leader")
      ensures old(Limits()) && EffectiveMax(maxMembers) >= 1 ==> Limits()
    {
      if LedBy(projects, requester) >= MaxLedProjects {
        return 403, None;
      }
      var id := nextProjectId;
      var p := Project(id, title, requester, EffectiveMax(maxMembers), CommaList(requiredSkills), CommaList(techStack));
      var row := NewRow(nextRowId, id, requester, Some(Leader), Some(Accepted));
      NewProjectKeys(projects, members, nextProjectId, nextRowId, p, row);
      if Limits() && EffectiveMax(maxMembers) >= 1 {
        NewProjectLimits(projects, members, p, row);
      }
      projects := projects + [p];
      members := members + [row];
      nextProjectId := nextProjectId + 1;
      nextRowId := nextRowId + 1;
      users := AddRole(users, requester, "leader");
      code, projectId := 201, Some(id);
    }

    /** addProjectMember: the user with that email joins as an accepted member. */
    method AddProjectMember(projectId: nat, requester: string, email: string) returns (code: int)
      requires Valid()
      modifies this
      ensures Valid()
      ensures projects == old(projects) && users == old(users) && nextProjectId == old(nextProjectId)
      ensures var user := FindUser(old(users), email);
        if !IsLeader(old(projects), projectId, requester) then
          code == 403 && members == old(members)
        else if user.None? then
          code == 404 && members == old(members)
        else if IsFull(old(projects), old(members), projectId) then
          code == 403 && members == old(members)
        else if HasPair(old(members), projectId, user.value.id) then
          // the INSERT breaks the unique index
          code == 409 && members == old(members)
        else
          code == 200 &&
          members == old(members) + [NewRow(old(nextRowId), projectId, user.value.id, Some(Member), Some(Accepted))]
      ensures old(Limits()) ==> Limits()
    {
      if !IsLeader(projects, projectId, requester) {
        return 403;
      }
      var user := FindUser(users, email);
      if user.None? {
        return 404;
      }
      if IsFull(projects, members, projectId) {
        return 403;
      }
      if FindPair(members, projectId, user.value.id).Some? {
        return 409;
      }
      InsertRow(NewRow(nextRowId, projectId, user.value.id, Some(Member), Some(Accepted)));
      code := 200;
    }

    /** submitProjectRating. A rating that is absent passes the range guard,
        as `undefined < 1` and `undefined > 5` are both false. The project's
        average is not part of this model. */
    method SubmitProjectRating(projectId: nat, requester: string, rating: Option<int>) returns (code: int)
      requires Valid()
      modifies this
      ensures Valid()
      ensures projects == old(projects) && users == old(users)
      ensures nextProjectId == old(nextProjectId) && nextRowId == old(nextRowId)
      ensures var row := FindPair(old(members), projectId, requester);
        if rating.Some? && (rating.value < 1 || rating.value > 5) then
          code == 400 && members == old(members)
        else if row.None? || row.value.status != Accepted || row.value.hasRated then
          code == 403 && members == old(members)
        else
          code == 200 && members == MarkRated(old(members), projectId, requester, rating)
      ensures old(Limits()) ==> Limits()
    {
      if rating.Some? && (rating.value < 1 || rating.value > 5) {
        return 400;
      }
      var row := FindPair(members, projectId, requester);
      if row.None? || row.value.status != Accepted || row.value.hasRated {
        return 403;
      }
      var before := members;
      members := MarkRated(members, projectId, requester, rating);
      SameKeysUnique(before, members);
      forall p | true ensures AcceptedIn(members, p) == AcceptedIn(before, p) && MentorsIn(members, p) == MentorsIn(before, p) {
        CountsMarkRated(before, projectId, requester, rating, p);
      }
      if WithinLimits(projects, before) {
        LimitsAfterChange(projects, before, members, projectId);
      }
      code := 200;
    }

    /** addMentorRole. */
    method AddMentorRole(projectId: nat, requester: string, memberId: string) returns (code: int)
      requires Valid()
      modifies this
      ensures Valid()
      ensures projects == old(projects)
      ensures nextProjectId == old(nextProjectId) && nextRowId == old(nextRowId)
      ensures !IsLeader(old(projects), projectId, requester) ==>
        code == 403 && members == old(members) && users == old(users)
      ensures IsLeader(old(projects), projectId, requester) && MentorsIn(old(members), projectId) >= MaxMentors ==>
        code == 403 && members == old(members) && users == old(users)
      ensures IsLeader(old(projects), projectId, requester) && MentorsIn(old(members), projectId) < MaxMentors ==>
        code == 200 && members == PromoteMentor(old(members), projectId, memberId) &&
        users == AddRole(old(users), memberId, "mentor")
      ensures old(Limits()) ==> Limits()
    {
      if !IsLeader(projects, projectId, requester) {
        return 403;
      }
      if MentorsIn(members, projectId) >= MaxMentors {
        return 403;
      }
      var before := members;
      members := PromoteMentor(members, projectId, memberId);
      SameKeysUnique(before, members);
      PairCountUnique(before, projectId, memberId);
      forall p | true ensures AcceptedIn(members, p) == AcceptedIn(before, p)
        && MentorsIn(members, p) <= MentorsIn(before, p) + (if p == projectId then 1 else 0) {
        CountsPromote(before, projectId, memberId, p);
      }
      if WithinLimits(projects, before) {
        LimitsAfterChange(projects, before, members, projectId);
      }
      users := AddRole(users, memberId, "mentor");
      code := 200;
    }
  }

  /** `SELECT id FROM users WHERE email = $1`: the first user with it. */
  function FindUser(users: seq<UserRow>, email: string): (r: Option<UserRow>)
    ensures r.Some? ==> r.value in users && r.value.email == email
    ensures r.None? <==> forall i :: 0 <= i < |users| ==> users[i].email != email
  {
    if users == [] then None
    else if users[0].email == email then Some(users[0])
    else FindUser(users[1..], email)
  }

  /** With unique keys, every row with a found row's key is that row. */
  lemma UniqueKeyInProject(rows: seq<MemberRow>, row: MemberRow)
    requires UniqueIds(rows) && row in rows
    ensures forall i :: 0 <= i < |rows| && rows[i].id == row.id ==> rows[i] == row
  {
  }

  lemma {:induction false} WithIdWitness(rows: seq<MemberRow>, id: nat, p: nat)
    requires WithId(rows, id, p) > 0
    ensures exists i :: 0 <= i < |rows| && rows[i].id == id && rows[i].projectId == p
  {
    if rows[0].id == id && rows[0].projectId == p {
      assert rows[0].id == id;
    } else {
      WithIdWitness(rows[1..], id, p);
      var i :| 0 <= i < |rows[1..]| && rows[1..][i].id == id && rows[1..][i].projectId == p;
      assert rows[i + 1] == rows[1..][i];
    }
  }

  /** A new project with room for its leader keeps every limit, given that
      it takes a key no project or row uses yet. */
  lemma NewProjectLimits(ps: seq<Project>, rows: seq<MemberRow>, p: Project, row: MemberRow)
    requires WithinLimits(ps, rows)
    requires forall i :: 0 <= i < |ps| ==> ps[i].id != p.id
    requires forall i :: 0 <= i < |rows| ==> rows[i].projectId != p.id
    requires LedBy(ps, p.leaderId) < MaxLedProjects && p.maxMembers >= 1
    requires row.projectId == p.id && row.role != Mentor
    ensures WithinLimits(ps + [p], rows + [row])
  {
    var ps2, rows2 := ps + [p], rows + [row];
    CountsAbsent(rows, p.id);
    forall i | 0 <= i < |ps2|
      ensures AcceptedIn(rows2, ps2[i].id) <= ps2[i].maxMembers
      ensures MentorsIn(rows2, ps2[i].id) <= MaxMentors
      ensures LedBy(ps2, ps2[i].leaderId) <= MaxLedProjects
    {
      CountsAppend(rows, row, ps2[i].id);
      LedByAppend(ps, p, ps2[i].leaderId);
      if i < |ps| {
        assert ps2[i] == ps[i];
      }
    }
  }

  /** The capacity check is missing from the self-accept path: a project at
      capacity that still has an open invitation goes over capacity when the
      invited member accepts. */
  lemma SelfAcceptOverfills()
    ensures var ps := [Project(0, "p", "lead", 2, [], [])];
      var rows := [MemberRow(0, 0, "lead", Leader, Accepted, false, None),
                   MemberRow(1, 0, "a", Member, Accepted, false, None),
                   MemberRow(2, 0, "b", Member, Invited, false, None)];
      WithinLimits(ps, rows) && IsFull(ps, rows, 0) &&
      FindRow(rows, 2, 0) == Some(rows[2]) && rows[2].status == Invited &&
      !Capacity(ps, SetStatus(rows, 2, None, Accepted))
  {
    var ps := [Project(0, "p", "lead", 2, [], [])];
    var rows := [MemberRow(0, 0, "lead", Leader, Accepted, false, None),
                 MemberRow(1, 0, "a", Member, Accepted, false, None),
                 MemberRow(2, 0, "b", Member, Invited, false, None)];
    assert AcceptedIn(rows, 0) == 2;
    assert LedBy(ps, "lead") == 1;
    var after := SetStatus(rows, 2, None, Accepted);
    assert after == [rows[0], rows[1], rows[2].(status := Accepted)];
    assert after[1..][1..] == [rows[2].(status := Accepted)];
    assert AcceptedIn(after[1..][1..], 0) == 1;
    assert AcceptedIn(after[1..], 0) == 2;
    assert AcceptedIn(after, 0) == 3;
  }
}
