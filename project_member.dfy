/** A membership row of a project (backend/models/ProjectMember.js): which user
    belongs to which project, in which role and at which stage, and whether
    the member has rated the project. A project and a user have at most one
    row together. */
module ProjectMember {
  import opened Common

  datatype Role = Leader | Mentor | Member

  datatype Status = Pending | Invited | Accepted

  /** A row. `id` is the row's own key; `projectId` and `memberId` are
      required, so they are not optional here. `rating` is the member's
      rating of the project, stored alongside. */
  datatype MemberRow = MemberRow(
    id: nat,
    projectId: nat,
    memberId: string,
    role: Role,
    status: Status,
    hasRated: bool,
    rating: Option<int>)

  function RoleName(r: Role): string {
    match r
    case Leader => "leader"
    case Mentor => "mentor"
    case Member => "member"
  }

  function StatusName(s: Status): string {
    match s
    case Pending => "pending"
    case Invited => "invited"
    case Accepted => "accepted"
  }

  /** The enumerated value a text denotes, if it is one of the allowed ones. */
  function ParseStatus(text: string): (r: Option<Status>)
    ensures r.Some? ==> StatusName(r.value) == text
    ensures forall s :: StatusName(s) == text ==> r == Some(s)
  {
    if text == "pending" then Some(Pending)
    else if text == "invited" then Some(Invited)
    else if text == "accepted" then Some(Accepted)
    else None
  }

  function ParseRole(text: string): (r: Option<Role>)
    ensures r.Some? ==> RoleName(r.value) == text
    ensures forall x :: RoleName(x) == text ==> r == Some(x)
  {
    if text == "leader" then Some(Leader)
    else if text == "mentor" then Some(Mentor)
    else if text == "member" then Some(Member)
    else None
  }

  /** A new row with the schema's defaults for the fields not given: role
      "member", status "pending", not rated. */
  function NewRow(id: nat, projectId: nat, memberId: string, role: Option<Role>, status: Option<Status>): (r: MemberRow)
    ensures r.id == id && r.projectId == projectId && r.memberId == memberId
    ensures r.role == (if role.Some? then role.value else Member)
    ensures r.status == (if status.Some? then status.value else Pending)
    ensures !r.hasRated && r.rating.None?
  {
    MemberRow(id, projectId, memberId,
      if role.Some? then role.value else Member,
      if status.Some? then status.value else Pending,
      false, None)
  }

  /** The unique (projectId, memberId) index, and unique row keys. */
  predicate UniquePairs(rows: seq<MemberRow>) {
    forall i, j :: 0 <= i < j < |rows| ==>
      (rows[i].projectId, rows[i].memberId) != (rows[j].projectId, rows[j].memberId)
  }

  predicate UniqueIds(rows: seq<MemberRow>) {
    forall i, j :: 0 <= i < j < |rows| ==> rows[i].id != rows[j].id
  }

  predicate HasPair(rows: seq<MemberRow>, projectId: nat, memberId: string) {
    exists i :: 0 <= i < |rows| && rows[i].projectId == projectId && rows[i].memberId == memberId
  }

  /** Inserting a row keeps the index unique exactly when the pair is new. */
  lemma InsertKeepsUnique(rows: seq<MemberRow>, r: MemberRow)
    requires UniquePairs(rows)
    ensures UniquePairs(rows + [r]) <==> !HasPair(rows, r.projectId, r.memberId)
  {
    var s := rows + [r];
    if HasPair(rows, r.projectId, r.memberId) {
      var i :| 0 <= i < |rows| && rows[i].projectId == r.projectId && rows[i].memberId == r.memberId;
      assert s[i] == rows[i] && s[|rows|] == r;
    } else {
      forall i, j | 0 <= i < j < |s|
        ensures (s[i].projectId, s[i].memberId) != (s[j].projectId, s[j].memberId)
      {
        if j == |rows| {
          assert s[i] == rows[i];
        }
      }
    }
  }
}
