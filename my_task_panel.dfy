/** The "My Tasks" panel of the front end (MODXX/src/components/MyTaskPanel.jsx):
    it lists the signed-in user's tasks of a project and lets the user mark
    one done. */
module MyTaskPanel {
  import opened Common
  import opened TaskView

  /** The tasks assigned to the signed-in user. */
  function OwnTasks(all: seq<Task>, userId: string): (r: seq<Task>)
    ensures forall t :: t in r <==> t in all && t.assignedTo == Some(userId)
    ensures IsSubsequence(r, all)
  {
    FilterIsSubsequence(all, (t: Task) => t.assignedTo == Some(userId));
    Filter(all, (t: Task) => t.assignedTo == Some(userId))
  }

  /** The list after a successful mark-done: the task(s) with that id get
      status "done", every other task and field is kept. */
  function MarkedDone(tasks: seq<Task>, taskId: string): (r: seq<Task>)
    ensures |r| == |tasks|
    ensures forall i :: 0 <= i < |tasks| ==>
      r[i] == if tasks[i].id == taskId then tasks[i].(status := "done") else tasks[i]
  {
    seq(|tasks|, i requires 0 <= i < |tasks| =>
      if tasks[i].id == taskId then tasks[i].(status := "done") else tasks[i])
  }

  /** Marking the same task done twice changes nothing more. */
  lemma MarkDoneIdempotent(tasks: seq<Task>, taskId: string)
    ensures MarkedDone(MarkedDone(tasks, taskId), taskId) == MarkedDone(tasks, taskId)
  {
  }

  /** The panel still shows only the user's own tasks after a mark-done. */
  lemma MarkDoneKeepsOwnership(tasks: seq<Task>, taskId: string, userId: string)
    requires forall t :: t in tasks ==> t.assignedTo == Some(userId)
    ensures forall t :: t in MarkedDone(tasks, taskId) ==> t.assignedTo == Some(userId)
  {
    var r := MarkedDone(tasks, taskId);
    forall t | t in r ensures t.assignedTo == Some(userId) {
      var i :| 0 <= i < |r| && r[i] == t;
      assert tasks[i] in tasks;
    }
  }

  /** The "Mark as Done" button, shown for tasks that are not done. */
  function ShowMarkDone(t: Task): bool { t.status != "done" }

  /** The panel's state. */
  class TaskPanel {
    var tasks: seq<Task>
    var error: string
    var loading: bool

    constructor ()
      ensures tasks == [] && error == "" && loading
    {
      tasks := [];
      error := "";
      loading := true;
    }

    /** The fetch: `fetched` is the project's task list, None when the request
        fails. */
    method Fetch(userId: string, fetched: Option<seq<Task>>)
      modifies this
      ensures fetched.Some? ==> tasks == OwnTasks(fetched.value, userId) && error == old(error)
      ensures fetched.None? ==> tasks == old(tasks) && error == "Failed to fetch tasks"
      ensures !loading
    {
      loading := true;
      if fetched.Some? {
        tasks := OwnTasks(fetched.value, userId);
      } else {
        error := "Failed to fetch tasks";
      }
      loading := false;
    }

    /** handleMarkDone, with the outcome of the PATCH request as a parameter. */
    method HandleMarkDone(taskId: string, succeeded: bool)
      modifies this
      ensures succeeded ==> tasks == MarkedDone(old(tasks), taskId) && error == ""
      ensures !succeeded ==> tasks == old(tasks) && error == "Failed to update task"
      ensures !loading
    {
      loading := true;
      error := "";
      if succeeded {
        tasks := MarkedDone(tasks, taskId);
      } else {
        error := "Failed to update task";
      }
      loading := false;
    }
  }
}
