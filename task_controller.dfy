/** The task handlers of the backend (backend/controller/taskController.js)
    over in-memory copies of the project, membership and task collections. */
module TaskController {
  import opened Common
  import opened ProjectMember

  /** A membership document as the task handlers query it. */
  datatype Membership = Membership(projectId: string, memberId: string, role: Role, status: Status)

  datatype Task = Task(
    id: nat,
    projectId: string,
    assignedTo: string,
    assignedBy: string,
    title: Option<string>,
    description: Option<string>,
    status: string,
    deadline: Option<string>)

  /** The optional fields of an update request. */
  datatype TaskPatch = TaskPatch(
    status: Option<string>,
    deadline: Option<string>,
    title: Option<string>,
    description: Option<string>)

  /** JavaScript truthiness of an optional text: present and not empty. */
  predicate Truthy(v: Option<string>) { v.Some? && v.value != "" }

  /** `findOne({ projectId, memberId, status: "accepted" })`. */
  function FindAccepted(ms: seq<Membership>, projectId: string, memberId: string): (r: Option<Membership>)
    ensures r.Some? ==> (r.value in ms && r.value.projectId == projectId
      && r.value.memberId == memberId && r.value.status == Accepted)
    ensures r.None? <==> forall i :: 0 <= i < |ms| ==>
      !(ms[i].projectId == projectId && ms[i].memberId == memberId && ms[i].status == Accepted)
  {
    if ms == [] then None
    else if ms[0].projectId == projectId && ms[0].memberId == memberId && ms[0].status == Accepted then Some(ms[0])
    else FindAccepted(ms[1..], projectId, memberId)
  }

  /** The requester's accepted membership has the role leader or mentor. */
  predicate MayAssign(ms: seq<Membership>, projectId: string, userId: string) {
    var m := FindAccepted(ms, projectId, userId);
    m.Some? && (m.value.role == Leader || m.value.role == Mentor)
  }

  /** A leader or mentor of a project may assign tasks in it, whoever else
      holds which role; a pending or invited leader may not. */
  lemma AssignNeedsAcceptedRole(ms: seq<Membership>, projectId: string, userId: string)
    ensures MayAssign(ms, projectId, userId) ==>
      exists i :: 0 <= i < |ms| && ms[i].projectId == projectId && ms[i].memberId == userId
        && ms[i].status == Accepted && ms[i].role in {Leader, Mentor}
    ensures (forall i :: 0 <= i < |ms| && ms[i].projectId == projectId && ms[i].memberId == userId ==>
              ms[i].status != Accepted || ms[i].role == Member) ==> !MayAssign(ms, projectId, userId)
  {
    if MayAssign(ms, projectId, userId) {
      var m := FindAccepted(ms, projectId, userId).value;
      var i :| 0 <= i < |ms| && ms[i] == m;
      assert ms[i].role in {Leader, Mentor};
    }
  }

  /** `status || "pending"`. */
  function StatusOrDefault(status: Option<string>): (r: string)
    ensures Truthy(status) ==> r == status.value
    ensures !Truthy(status) ==> r == "pending"
  {
    if Truthy(status) then status.value else "pending"
  }

  /** The update built field by field: only the truthy fields of the request
      are set. */
  function ApplyPatch(t: Task, p: TaskPatch): (r: Task)
    ensures r.id == t.id && r.projectId == t.projectId
    ensures r.assignedTo == t.assignedTo && r.assignedBy == t.assignedBy
    ensures r.status == (if Truthy(p.status) then p.status.value else t.status)
    ensures r.deadline == (if Truthy(p.deadline) then p.deadline else t.deadline)
    ensures r.title == (if Truthy(p.title) then p.title else t.title)
    ensures r.description == (if Truthy(p.description) then p.description else t.description)
  {
    var t1 := if Truthy(p.status) then t.(status := p.status.value) else t;
    var t2 := if Truthy(p.deadline) then t1.(deadline := p.deadline) else t1;
    var t3 := if Truthy(p.title) then t2.(title := p.title) else t2;
    if Truthy(p.description) then t3.(description := p.description) else t3
  }

  /** A request without truthy fields changes nothing, and applying the same
      request twice is applying it once. */
  lemma PatchLaws(t: Task, p: TaskPatch)
    ensures !Truthy(p.status) && !Truthy(p.deadline) && !Truthy(p.title) && !Truthy(p.description)
      ==> ApplyPatch(t, p) == t
    ensures ApplyPatch(ApplyPatch(t, p), p) == ApplyPatch(t, p)
  {
  }

  /** The position of the task with that id in that project, if any. */
  function FindTask(tasks: seq<Task>, id: nat, projectId: string): (r: Option<nat>)
    ensures r.Some? ==> r.value < |tasks| && tasks[r.value].id == id && tasks[r.value].projectId == projectId
    ensures r.None? <==> forall i :: 0 <= i < |tasks| ==> !(tasks[i].id == id && tasks[i].projectId == projectId)
  {
    if tasks == [] then None
    else if tasks[0].id == id && tasks[0].projectId == projectId then Some(0)
    else
      var r := FindTask(tasks[1..], id, projectId);
      if r.None? then None else Some(r.value + 1)
  }

  predicate UniqueTaskIds(tasks: seq<Task>) {
    forall i, j :: 0 <= i < j < |tasks| ==> tasks[i].id != tasks[j].id
  }

  /** Removing the found task leaves no task with its id, when ids are
      unique. */
  lemma DeleteRemovesTask(tasks: seq<Task>, k: nat)
    requires UniqueTaskIds(tasks) && k < |tasks|
    ensures var rest := tasks[..k] + tasks[k + 1..];
      |rest| == |tasks| - 1 && UniqueTaskIds(rest) &&
      forall t :: t in rest ==> t.id != tasks[k].id
  {
    var rest := tasks[..k] + tasks[k + 1..];
    forall i | 0 <= i < |rest| ensures rest[i] == tasks[if i < k then i else i + 1] {
    }
  }

  class TaskStore {
    var projectIds: set<string>
    var memberships: seq<Membership>
    var tasks: seq<Task>
    var nextTaskId: nat

    predicate Valid()
      reads this
    {
      UniqueTaskIds(tasks) && forall i :: 0 <= i < |tasks| ==> tasks[i].id < nextTaskId
    }

    constructor(projectIds: set<string>, memberships: seq<Membership>)
      ensures Valid() && this.projectIds == projectIds && this.memberships == memberships && tasks == []
    {
      this.projectIds := projectIds;
      this.memberships := memberships;
      tasks := [];
      nextTaskId := 0;
    }

    /** createTask. */
    method CreateTask(projectId: string, requester: string, assignedTo: string, title: Option<string>,
                      description: Option<string>, status: Option<string>, deadline: Option<string>)
      returns (code: int, created: Option<Task>)
      requires Valid()
      modifies this
      ensures Valid()
      ensures projectIds == old(projectIds) && memberships == old(memberships)
      ensures if projectId !in projectIds then
          code == 404 && created.None? && tasks == old(tasks)
        else if !MayAssign(memberships, projectId, requester) then
          code == 403 && created.None? && tasks == old(tasks)
        else if FindAccepted(memberships, projectId, assignedTo).None? then
          code == 400 && created.None? && tasks == old(tasks)
        else
          code == 201 && created.Some? && tasks == old(tasks) + [created.value] &&
          created.value == Task(old(nextTaskId), projectId, assignedTo, requester, title, description,
                                StatusOrDefault(status), deadline)
    {
      if projectId !in projectIds {
        return 404, None;
      }
      if !MayAssign(memberships, projectId, requester) {
        return 403, None;
      }
      if FindAccepted(memberships, projectId, assignedTo).None? {
        return 400, None;
      }
      var t := Task(nextTaskId, projectId, assignedTo, requester, title, description, StatusOrDefault(status), deadline);
      tasks := tasks + [t];
      nextTaskId := nextTaskId + 1;
      code, created := 201, Some(t);
    }

    /** updateTask. */
    method UpdateTask(projectId: string, taskId: nat, patch: TaskPatch) returns (code: int, updated: Option<Task>)
      requires Valid()
      modifies this
      ensures Valid()
      ensures projectIds == old(projectIds) && memberships == old(memberships)
      ensures var k := FindTask(old(tasks), taskId, projectId);
        if k.None? then
          code == 404 && updated.None? && tasks == old(tasks)
        else
          code == 200 && updated == Some(ApplyPatch(old(tasks)[k.value], patch)) &&
          tasks == old(tasks)[k.value := updated.value]
    {
      var k := FindTask(tasks, taskId, projectId);
      if k.None? {
        return 404, None;
      }
      var t := ApplyPatch(tasks[k.value], patch);
      tasks := tasks[k.value := t];
      code, updated := 200, Some(t);
    }

    /** deleteTask. */
    method DeleteTask(projectId: string, taskId: nat) returns (code: int)
      requires Valid()
      modifies this
      ensures Valid()
      ensures projectIds == old(projectIds) && memberships == old(memberships)
      ensures var k := FindTask(old(tasks), taskId, projectId);
        if k.None? then
          code == 404 && tasks == old(tasks)
        else
          code == 200 && tasks == old(tasks)[..k.value] + old(tasks)[k.value + 1..] &&
          forall t :: t in tasks ==> t.id != taskId
    {
      var k := FindTask(tasks, taskId, projectId);
      if k.None? {
        return 404;
      }
      DeleteRemovesTask(tasks, k.value);
      tasks := tasks[..k.value] + tasks[k.value + 1..];
      code := 200;
    }
  }
}
