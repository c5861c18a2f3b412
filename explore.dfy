/** The explore page of the front end (MODXX/src/pages/client/explore.jsx):
    the project list filters, the uploaded-image URL, and the apply
    bookkeeping that marks a project pending as soon as the request
    succeeds. */
module Explore {
  import opened Common

  /** A project as the explore endpoint returns it; `requiredSkills` is None
      when the field is null or missing. */
  datatype Project = Project(id: string, leaderId: string, requiredSkills: Option<seq<string>>)

  const KnownSkills: seq<string> := [
    "React", "Python", "UI/UX Design", "PostgreSQL", "Node.js", "Express",
    "JavaScript", "TypeScript", "Java", "C++", "C#", "Go", "Rust", "Django",
    "Flask", "MongoDB", "MySQL", "AWS", "Azure", "Figma"]

  /** Kept by the leader filter: not led by the signed-in user (everyone is
      kept when nobody is signed in). */
  predicate NotOwnProject(p: Project, user: Option<string>) {
    user.None? || p.leaderId != user.value
  }

  /** Kept by the skill filter: "Other" keeps projects without skills or with
      only unknown skills; any other non-empty filter keeps projects listing
      that exact skill; the empty filter keeps everything. */
  predicate SkillMatches(p: Project, skill: string) {
    if skill == "Other" then
      p.requiredSkills.None? || forall s :: s in p.requiredSkills.value ==> s !in KnownSkills
    else if skill != "" then
      p.requiredSkills.Some? && skill in p.requiredSkills.value
    else true
  }

  /** filteredProjects: the leader filter, then the skill filter. */
  function FilteredProjects(projects: seq<Project>, user: Option<string>, skill: string): (r: seq<Project>)
    ensures forall p :: p in r <==> p in projects && NotOwnProject(p, user) && SkillMatches(p, skill)
    ensures IsSubsequence(r, projects)
  {
    var mine := if user.Some? then Filter(projects, p => NotOwnProject(p, user)) else projects;
    var r := if skill == "Other" || skill != "" then Filter(mine, p => SkillMatches(p, skill)) else mine;
    FilteredIsSubsequence(projects, user, skill);
    r
  }

  lemma FilteredIsSubsequence(projects: seq<Project>, user: Option<string>, skill: string)
    ensures var mine := if user.Some? then Filter(projects, p => NotOwnProject(p, user)) else projects;
      var r := if skill == "Other" || skill != "" then Filter(mine, p => SkillMatches(p, skill)) else mine;
      IsSubsequence(r, projects)
  {
    var mine := if user.Some? then Filter(projects, p => NotOwnProject(p, user)) else projects;
    if user.Some? {
      FilterIsSubsequence(projects, p => NotOwnProject(p, user));
    } else {
      SubsequenceRefl(projects);
    }
    if skill == "Other" || skill != "" {
      FilterIsSubsequence(mine, p => SkillMatches(p, skill));
      SubsequenceTrans(Filter(mine, p => SkillMatches(p, skill)), mine, projects);
    }
  }

  lemma {:induction false} SubsequenceRefl<T>(s: seq<T>)
    ensures IsSubsequence(s, s)
  {
    if s != [] {
      SubsequenceRefl(s[1..]);
    }
  }

  lemma {:induction false} SubsequenceTrans<T>(a: seq<T>, b: seq<T>, c: seq<T>)
    requires IsSubsequence(a, b) && IsSubsequence(b, c)
    ensures IsSubsequence(a, c)
    decreases |c|
  {
    if a != [] && c != [] {
      if b[0] == c[0] {
        if a[0] == b[0] {
          SubsequenceTrans(a[1..], b[1..], c[1..]);
        } else {
          SubsequenceTrans(a, b[1..], c[1..]);
          SubsequenceOfTail(a, c);
        }
      } else {
        SubsequenceTrans(a, b, c[1..]);
        SubsequenceOfTail(a, c);
      }
    }
  }

  /** Is a line terminator, which '.' in a JavaScript pattern does not match. */
  predicate IsLineTerminator(c: char) {
    c == '\n' || c == '\r' || c == '\U{2028}' || c == '\U{2029}'
  }

  predicate IsSeparator(c: char) { c == '/' || c == '\\' }

  /** The length of the first line of `s`. */
  function FirstLineLength(s: string): (n: nat)
    ensures n <= |s|
    ensures forall i :: 0 <= i < n ==> !IsLineTerminator(s[i])
    ensures n < |s| ==> IsLineTerminator(s[n])
  {
    if s == [] || IsLineTerminator(s[0]) then 0 else 1 + FirstLineLength(s[1..])
  }

  /** One past the last separator among the first `n` characters, or 0. */
  function CutPoint(s: string, n: nat): (k: nat)
    requires n <= |s|
    ensures k <= n
    ensures k > 0 ==> IsSeparator(s[k - 1])
    ensures forall i :: k <= i < n ==> !IsSeparator(s[i])
  {
    if n == 0 then 0 else if IsSeparator(s[n - 1]) then n else CutPoint(s, n - 1)
  }

  /** `path.replace(/^.*[\\\/]/, "")`: the greedy match runs to the last '/' or
      '\' of the first line, and is removed with everything before it. */
  function FileName(path: string): (r: string)
    ensures EndsWith(path, r)
  {
    var k := CutPoint(path, FirstLineLength(path));
    assert path[|path| - |path[k..]|..] == path[k..];
    path[k..]
  }

  /** Of a one-line path, only the part after its last separator remains. */
  lemma FileNameOfPath(dir: string, name: string)
    requires forall i :: 0 <= i < |dir| ==> !IsLineTerminator(dir[i])
    requires forall i :: 0 <= i < |name| ==> !IsLineTerminator(name[i]) && !IsSeparator(name[i])
    ensures FileName(dir + "/" + name) == name
    ensures FileName(name) == name
  {
    var p := dir + "/" + name;
    assert FirstLineLength(p) == |p| by {
      FirstLineWhole(p);
    }
    assert CutPoint(p, |p|) == |dir| + 1 by {
      CutAfter(p, |dir| + 1, |p|);
    }
    assert p[|dir| + 1..] == name;
    FirstLineWhole(name);
  }

  lemma {:induction false} FirstLineWhole(s: string)
    requires forall i :: 0 <= i < |s| ==> !IsLineTerminator(s[i])
    ensures FirstLineLength(s) == |s|
  {
    if s != [] {
      FirstLineWhole(s[1..]);
    }
  }

  lemma {:induction false} CutAfter(s: string, k: nat, n: nat)
    requires 0 < k <= n <= |s| && IsSeparator(s[k - 1])
    requires forall i :: k <= i < n ==> !IsSeparator(s[i])
    ensures CutPoint(s, n) == k
    decreases n
  {
    if n > k {
      CutAfter(s, k, n - 1);
    }
  }

  /** explore.jsx's API_URL: the configured value or the default, without the
      normalisation axiosInstance.js applies. */
  function ExploreApiUrl(env: Option<string>): string {
    if env.Some? && env.value != "" then env.value else "http://localhost:5000/api/v1"
  }

  /** getImageUrl: "" for a missing path, "http" URLs unchanged, otherwise the
      file name under API_URL/uploads/. */
  function ImageUrl(env: Option<string>, imagePath: Option<string>): (r: string)
    ensures imagePath.None? || imagePath == Some("") ==> r == ""
    ensures imagePath.Some? && StartsWith(imagePath.value, "http") ==> r == imagePath.value
    ensures imagePath.Some? && imagePath.value != "" && !StartsWith(imagePath.value, "http") ==>
      StartsWith(r, ExploreApiUrl(env) + "/uploads/") && EndsWith(imagePath.value, r[|ExploreApiUrl(env) + "/uploads/"|..])
  {
    if imagePath.None? || imagePath.value == "" then ""
    else if StartsWith(imagePath.value, "http") then imagePath.value
    else
      var prefix := ExploreApiUrl(env) + "/uploads/";
      var r := prefix + FileName(imagePath.value);
      assert r[..|prefix|] == prefix;
      assert r[|prefix|..] == FileName(imagePath.value);
      r
  }

  /** An upload stored as "<dir>/<name>" is served as API_URL/uploads/<name>. */
  lemma UploadUrl(env: Option<string>, dir: string, name: string)
    requires forall i :: 0 <= i < |dir| ==> !IsLineTerminator(dir[i])
    requires forall i :: 0 <= i < |name| ==> !IsLineTerminator(name[i]) && !IsSeparator(name[i])
    requires dir != "" && !StartsWith(dir, "http")
    ensures ImageUrl(env, Some(dir + "/" + name)) == ExploreApiUrl(env) + "/uploads/" + name
  {
    FileNameOfPath(dir, name);
    NotHttpAfterSlash(dir, name);
  }

  lemma NotHttpAfterSlash(dir: string, name: string)
    requires !StartsWith(dir, "http")
    ensures !StartsWith(dir + "/" + name, "http")
  {
    var p := dir + "/" + name;
    if |dir| >= 4 {
      assert p[..4] == dir[..4];
    } else {
      assert p[|dir|] == '/';
      assert |p| >= 4 ==> p[..4][|dir|] == '/';
    }
  }

  /** The viewer's membership state on one card. */
  function IsMember(id: string, accepted: seq<string>): bool { id in accepted }

  function IsPending(id: string, pending: seq<string>, applied: seq<string>): bool {
    id in pending || id in applied
  }

  function CanApply(id: string, accepted: seq<string>, pending: seq<string>, applied: seq<string>): (ok: bool)
    ensures ok <==> id !in accepted && id !in pending && id !in applied
  {
    !IsMember(id, accepted) && !IsPending(id, pending, applied)
  }

  /** The page state that handleApply changes: the ids applied to here. */
  class ExplorePage {
    var applied: seq<string>

    constructor ()
      ensures applied == []
    {
      applied := [];
    }

    /** handleApply: a successful request appends the id (the request itself is
        the `succeeded` parameter); a failed one changes nothing. */
    method HandleApply(projectId: string, succeeded: bool)
      modifies this
      ensures applied == if succeeded then old(applied) + [projectId] else old(applied)
    {
      if succeeded {
        applied := applied + [projectId];
      }
    }
  }

  /** After a successful apply the project can no longer be applied to, and
      every other project keeps its state. */
  lemma ApplyMarksPending(accepted: seq<string>, pending: seq<string>, applied: seq<string>, id: string, other: string)
    requires other != id
    ensures !CanApply(id, accepted, pending, applied + [id])
    ensures IsPending(id, pending, applied + [id])
    ensures CanApply(other, accepted, pending, applied + [id]) == CanApply(other, accepted, pending, applied)
  {
    assert (applied + [id])[|applied|] == id;
  }
}
