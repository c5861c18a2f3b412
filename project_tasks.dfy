/** The task section of a project page (MODXX/src/components/ProjectTasks.jsx):
    the viewer's project role, whether the assignment form is shown, which
    tasks are listed, and the form reset after a task is created. */
module ProjectTasks {
  import opened Common
  import opened TaskView

  /** An entry of the project's member list; the id and role may be missing. */
  datatype Member = Member(id: Option<string>, role: Option<string>)

  /** The first member whose id equals the viewer's id (`user?.id`, which is
      undefined with nobody signed in). */
  function FindMember(members: seq<Member>, userId: Option<string>): (r: Option<Member>)
    ensures r.Some? ==> r.value in members && r.value.id == userId
    ensures r.None? ==> forall m :: m in members ==> m.id != userId
    ensures r.Some? ==>
      (exists i :: 0 <= i < |members| && members[i] == r.value
                   && forall j :: 0 <= j < i ==> members[j].id != userId)
  {
    if members == [] then None
    else if members[0].id == userId then Some(members[0])
    else
      var r := FindMember(members[1..], userId);
      if r.Some? then
        var i :| 0 <= i < |members[1..]| && members[1..][i] == r.value
          && forall j :: 0 <= j < i ==> members[1..][j].id != userId;
        assert members[i + 1] == r.value;
        r
      else r
  }

  /** myRole: the role of that member, if any. */
  function MyRole(members: seq<Member>, userId: Option<string>): (r: Option<string>)
    ensures (forall i :: 0 <= i < |members| ==> members[i].id != userId) ==> r.None?
    ensures forall i :: (0 <= i < |members| && members[i].id == userId
      && forall j :: 0 <= j < i ==> members[j].id != userId) ==> r == members[i].role
  {
    var m := FindMember(members, userId);
    if m.Some? then m.value.role else None
  }

  predicate IsLeaderOrMentor(role: Option<string>) {
    role == Some("leader") || role == Some("mentor")
  }

  /** showAssignForm: the boolean prop when one is given, else whether the
      viewer leads or mentors the project. */
  function ShowAssignForm(prop: Option<bool>, role: Option<string>): (show: bool)
    ensures prop.Some? ==> show == prop.value
    ensures prop.None? ==> (show <==> role == Some("leader") || role == Some("mentor"))
  {
    if prop.Some? then prop.value else IsLeaderOrMentor(role)
  }

  /** `t.assigned_to === user.id`. */
  function AssignedTo(userId: Option<string>): Task -> bool {
    (t: Task) => t.assignedTo == userId
  }

  /** visibleTasks: a plain member sees only the tasks assigned to them, in
      list order; any other viewer sees every task. None when the filter
      would read the id of a missing user: a member entry without an id,
      nobody signed in, and at least one task for the callback to run on. */
  function VisibleTasks(tasks: seq<Task>, role: Option<string>, userId: Option<string>): (r: Option<seq<Task>>)
    ensures role != Some("member") ==> r == Some(tasks)
    ensures role == Some("member") && userId.Some? ==>
      (r.Some? && IsSubsequence(r.value, tasks)
       && forall t :: t in r.value <==> t in tasks && t.assignedTo == userId)
    ensures role == Some("member") && userId.None? ==> (r.None? <==> tasks != [])
    ensures role == Some("member") && userId.None? && tasks == [] ==> r == Some([])
  {
    if role == Some("member") then
      if userId.Some? then
        FilterIsSubsequence(tasks, AssignedTo(userId));
        Some(Filter(tasks, AssignedTo(userId)))
      else if tasks == [] then Some([])
      else None
    else Some(tasks)
  }

  /** The "Mark as Done" button: plain members, their own open tasks only. */
  function ShowMarkDone(t: Task, role: Option<string>, userId: string): bool {
    role == Some("member") && t.status != "done" && t.assignedTo == Some(userId)
  }

  /** Every task a member can mark done is one the member sees. */
  lemma MarkDoneOnlyOnVisible(tasks: seq<Task>, role: Option<string>, userId: string, t: Task)
    requires t in tasks && ShowMarkDone(t, role, userId)
    ensures var v := VisibleTasks(tasks, role, Some(userId)); v.Some? && t in v.value
  {
  }

  /** Leaders and mentors see every task and the assignment form. */
  lemma LeadersSeeEverything(members: seq<Member>, userId: Option<string>, tasks: seq<Task>)
    requires IsLeaderOrMentor(MyRole(members, userId))
    ensures VisibleTasks(tasks, MyRole(members, userId), userId) == Some(tasks)
    ensures ShowAssignForm(None, MyRole(members, userId))
  {
  }

  /** The task form. */
  class TaskForm {
    var title: string
    var description: string
    var deadline: string
    var assignedTo: string
    var error: string

    constructor ()
      ensures title == "" && description == "" && deadline == "" && assignedTo == "" && error == ""
    {
      title, description, deadline, assignedTo, error := "", "", "", "", "";
    }

    /** handleSubmit, with the outcome of the POST request as a parameter: a
        created task clears all four fields; a failure keeps them. */
    method HandleSubmit(succeeded: bool)
      modifies this
      ensures succeeded ==> title == "" && description == "" && deadline == "" && assignedTo == "" && error == ""
      ensures !succeeded ==>
        (title == old(title) && description == old(description)
         && deadline == old(deadline) && assignedTo == old(assignedTo) && error == "Failed to create task")
    {
      error := "";
      if succeeded {
        title, description, deadline, assignedTo := "", "", "", "";
      } else {
        error := "Failed to create task";
      }
    }
  }
}
