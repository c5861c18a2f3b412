/** The task charts of a project page (MODXX/src/components/ProjectTaskCharts.jsx):
    per-member completed/expired/open counts, the two pie series, the
    seven-day deadline chart and its list of days. The current time, the
    date parser and the ISO day formatter are parameters. */
module TaskCharts {
  import opened Common
  import opened TaskView

  /** A project member as the chart receives it; any field may be missing. */
  datatype Member = Member(id: Option<string>, email: Option<string>,
                           name: Option<string>, fullName: Option<string>)

  /** isTaskAssignedToMember: the assignee equals the member's id, e-mail,
      name or full name (two missing values count as equal). */
  predicate IsAssigned(t: Task, m: Member) {
    StrictEq(t.assignedTo, m.id) || StrictEq(t.assignedTo, m.email)
    || StrictEq(t.assignedTo, m.name) || StrictEq(t.assignedTo, m.fullName)
  }

  /** `m.name || m.full_name || "User"`. */
  function MemberLabel(m: Member): (r: string)
    ensures r != ""
    ensures Truthy(m.name) ==> r == m.name.value
    ensures !Truthy(m.name) && Truthy(m.fullName) ==> r == m.fullName.value
    ensures !Truthy(m.name) && !Truthy(m.fullName) ==> r == "User"
  {
    if Truthy(m.name) then m.name.value
    else if Truthy(m.fullName) then m.fullName.value
    else "User"
  }

  /** `new Date(s)` as a time value, None for an invalid date (NaN). */
  type DateParser = string -> Option<int>

  predicate IsDone(t: Task, m: Member) {
    IsAssigned(t, m) && t.status == "done"
  }

  /** Open, with a deadline that parses to a time before `now`. */
  predicate IsExpired(t: Task, m: Member, parse: DateParser, now: int) {
    IsAssigned(t, m) && t.status != "done" && Truthy(t.deadline)
    && parse(t.deadline.value).Some? && parse(t.deadline.value).value < now
  }

  /** Open, with no deadline or a deadline that parses to `now` or later. */
  predicate IsOpen(t: Task, m: Member, parse: DateParser, now: int) {
    IsAssigned(t, m) && t.status != "done"
    && (!Truthy(t.deadline) || (parse(t.deadline.value).Some? && parse(t.deadline.value).value >= now))
  }

  function Assigned(tasks: seq<Task>, m: Member): nat { Count(tasks, (t: Task) => IsAssigned(t, m)) }
  function Completed(tasks: seq<Task>, m: Member): nat { Count(tasks, (t: Task) => IsDone(t, m)) }
  function Expired(tasks: seq<Task>, m: Member, parse: DateParser, now: int): nat {
    Count(tasks, (t: Task) => IsExpired(t, m, parse, now))
  }
  function Open(tasks: seq<Task>, m: Member, parse: DateParser, now: int): nat {
    Count(tasks, (t: Task) => IsOpen(t, m, parse, now))
  }

  /** Every deadline that is present parses to a valid time. */
  predicate DeadlinesValid(tasks: seq<Task>, parse: DateParser) {
    forall t :: t in tasks && Truthy(t.deadline) ==> parse(t.deadline.value).Some?
  }

  /** With valid deadlines, completed, expired and open tasks partition the
      tasks assigned to a member. */
  lemma {:induction false} MemberCountsPartition(tasks: seq<Task>, m: Member, parse: DateParser, now: int)
    requires DeadlinesValid(tasks, parse)
    ensures Completed(tasks, m) + Expired(tasks, m, parse, now) + Open(tasks, m, parse, now) == Assigned(tasks, m)
  {
    if tasks != [] {
      assert tasks == [tasks[0]] + tasks[1..];
      MemberCountsPartition(tasks[1..], m, parse, now);
    }
  }

  /** A task with an invalid deadline is counted as neither expired nor open. */
  lemma InvalidDeadlineUncounted(t: Task, m: Member, parse: DateParser, now: int)
    requires Truthy(t.deadline) && parse(t.deadline.value).None?
    ensures !IsExpired(t, m, parse, now) && !IsOpen(t, m, parse, now)
  {
  }

  datatype MemberRow = MemberRow(name: string, completed: nat, expired: nat, uncompleted: nat)

  /** memberStats: one row per member, in member order. */
  function MemberStats(members: seq<Member>, tasks: seq<Task>, parse: DateParser, now: int): (r: seq<MemberRow>)
    ensures |r| == |members|
    ensures forall i :: 0 <= i < |members| ==>
      r[i] == MemberRow(MemberLabel(members[i]), Completed(tasks, members[i]),
                        Expired(tasks, members[i], parse, now), Open(tasks, members[i], parse, now))
  {
    seq(|members|, i requires 0 <= i < |members| =>
      MemberRow(MemberLabel(members[i]), Completed(tasks, members[i]),
                Expired(tasks, members[i], parse, now), Open(tasks, members[i], parse, now)))
  }

  /** Each row of the table adds up to the member's assigned tasks. */
  lemma MemberRowsAddUp(members: seq<Member>, tasks: seq<Task>, parse: DateParser, now: int, i: nat)
    requires DeadlinesValid(tasks, parse) && i < |members|
    ensures var row := MemberStats(members, tasks, parse, now)[i];
      row.completed + row.expired + row.uncompleted == Assigned(tasks, members[i])
  {
    MemberCountsPartition(tasks, members[i], parse, now);
  }

  datatype PieSlice = PieSlice(name: string, value: nat)

  /** The members' labelled counts with the zero counts removed. */
  function NonZero(members: seq<Member>, count: Member -> nat): (r: seq<PieSlice>)
    ensures |r| <= |members|
    ensures forall d :: d in r ==> d.value > 0
    ensures forall m :: m in members && count(m) > 0 ==> PieSlice(MemberLabel(m), count(m)) in r
    ensures forall d :: d in r ==> exists m :: m in members && d == PieSlice(MemberLabel(m), count(m))
  {
    if members == [] then []
    else
      var rest := NonZero(members[1..], count);
      var m := members[0];
      if count(m) > 0 then [PieSlice(MemberLabel(m), count(m))] + rest else rest
  }

  /** completedPie: members with at least one done task. */
  function CompletedPie(members: seq<Member>, tasks: seq<Task>): (r: seq<PieSlice>)
    ensures forall d :: d in r ==> d.value > 0
    ensures forall m :: m in members && Completed(tasks, m) > 0 ==>
      PieSlice(MemberLabel(m), Completed(tasks, m)) in r
  {
    NonZero(members, m => Completed(tasks, m))
  }

  /** expiredPie: members with at least one expired task. */
  function ExpiredPie(members: seq<Member>, tasks: seq<Task>, parse: DateParser, now: int): (r: seq<PieSlice>)
    ensures forall d :: d in r ==> d.value > 0
    ensures forall m :: m in members && Expired(tasks, m, parse, now) > 0 ==>
      PieSlice(MemberLabel(m), Expired(tasks, m, parse, now)) in r
  {
    NonZero(members, m => Expired(tasks, m, parse, now))
  }

  /** `s.slice(0, 10)`: the date part of an ISO timestamp. */
  function DatePart(s: string): string {
    if |s| <= 10 then s else s[..10]
  }

  predicate DueOn(t: Task, date: string) {
    Truthy(t.deadline) && DatePart(t.deadline.value) == date
  }

  datatype DayRow = DayRow(date: string, assignedCount: nat, completed: nat, pending: nat)

  /** The three filters of a day: due that day, done and due, open and due. */
  function Due(date: string): Task -> bool { (t: Task) => DueOn(t, date) }
  function DoneDue(date: string): Task -> bool { (t: Task) => t.status == "done" && DueOn(t, date) }
  function OpenDue(date: string): Task -> bool { (t: Task) => t.status != "done" && DueOn(t, date) }

  /** The tasks due on a day split into the done ones and the open ones. */
  lemma {:induction false} DueCountsSplit(date: string, tasks: seq<Task>)
    ensures Count(tasks, DoneDue(date)) + Count(tasks, OpenDue(date)) == Count(tasks, Due(date))
  {
    if tasks != [] {
      assert tasks == [tasks[0]] + tasks[1..];
      DueCountsSplit(date, tasks[1..]);
    }
  }

  /** One day of the deadline chart: its date and the tasks due on it, in
      total, done and open; the done and open counts add up to the total. */
  function DayStats(date: string, tasks: seq<Task>): (r: DayRow)
    ensures r.date == date
    ensures r.completed + r.pending == r.assignedCount
  {
    DueCountsSplit(date, tasks);
    DayRow(date, Count(tasks, Due(date)), Count(tasks, DoneDue(date)), Count(tasks, OpenDue(date)))
  }

  /** dailyStats: one row per day, in day order. */
  function DailyStats(days: seq<string>, tasks: seq<Task>): (r: seq<DayRow>)
    ensures |r| == |days|
    ensures forall i :: 0 <= i < |days| ==> r[i] == DayStats(days[i], tasks) && r[i].date == days[i]
  {
    seq(|days|, i requires 0 <= i < |days| => DayStats(days[i], tasks))
  }

  /** getDaysArray: the ISO dates of the six days before `today` and of
      `today`, oldest first. `isoDay` formats a day number as YYYY-MM-DD. */
  method GetDaysArray(today: int, isoDay: int -> string) returns (arr: seq<string>)
    ensures |arr| == 7
    ensures forall k :: 0 <= k < 7 ==> arr[k] == isoDay(today - 6 + k)
    ensures arr[6] == isoDay(today)
  {
    arr := [];
    var i := 6;
    while i >= 0
      invariant -1 <= i <= 6
      invariant |arr| == 6 - i
      invariant forall k :: 0 <= k < |arr| ==> arr[k] == isoDay(today - 6 + k)
    {
      arr := arr + [isoDay(today - i)];
      i := i - 1;
    }
  }
}
