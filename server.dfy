/** The task endpoints of server/server.js over an in-memory `tasks` and
    `users` collection: create, status change, full update and delete. Each
    handler validates its input, writes the task document with one appended
    activity entry, and issues `updateUserStats` calls in a fixed order. */
module TaskServer {
  import opened Wrappers
  import opened Text
  import opened Seqs
  import opened Entities
  import opened Ledger

  /** The JSON body of POST /api/tasks and PUT /api/tasks/:id; `None` is a
      field the client left out. */
  datatype TaskBody = TaskBody(
    title: Option<string>,
    description: Option<string>,
    status: Option<string>,
    dueDate: Option<string>,
    dueTime: Option<string>,
    assignedUsers: Option<seq<UserId>>)

  /** The HTTP status and JSON body a handler answers with. */
  datatype Response =
    | Created201(id: TaskId, task: Task)
    | Ok200(id: TaskId, task: Task)
    | Deleted200(message: string)
    | BadRequest400(error: string)
    | NotFound404(error: string)

  const RequiredMessage := "Title and due date are required"
  const InvalidDateMessage := "Invalid date or time format"
  const InvalidStatusMessage := "Invalid status"
  const NotFoundMessage := "Task not found"
  const DeletedMessage := "Task deleted successfully"

  /** `createISODate(date, time)`: midnight when no time is given. `parse` is
      the engine's `new Date(text).toISOString()`, `None` where it throws. */
  function CreateISODate(parse: string -> Option<string>, date: string, time: Option<string>): (r: Option<string>)
    ensures !Truthy(time) ==> r == parse(date + "T00:00:00")
    ensures Truthy(time) ==> r == parse(date + "T" + time.value)
  {
    if Truthy(time) then parse(date + "T" + time.value) else parse(date + "T00:00:00")
  }

  /** `assignedUsers || []` (an array, even an empty one, is truthy). */
  function AssignedOrEmpty(o: Option<seq<UserId>>): seq<UserId> {
    if o.Some? then o.value else []
  }

  /** The statuses PATCH /api/tasks/:id/status accepts. */
  predicate ValidStatus(status: Option<string>) {
    status == Some(PendingStatus) || status == Some(InProgressStatus) || status == Some(CompletedStatus)
  }

  /** The document POST /api/tasks stores: status defaults to 'Pending',
      description to '', and the log holds exactly one 'created' entry. */
  function NewTask(body: TaskBody, user: ActingUser, dueISO: string, now: string): (t: Task)
    requires Truthy(body.title)
    ensures t.title == body.title.value && t.dueDate == dueISO
    ensures t.createdAt == now && t.updatedAt == now
    ensures t.status == (if Truthy(body.status) then body.status.value else PendingStatus)
    ensures t.description == (if Truthy(body.description) then body.description.value else "")
    ensures t.hasTime == Truthy(body.dueTime)
    ensures t.assignedUsers == AssignedOrEmpty(body.assignedUsers)
    ensures t.createdBy == Snapshot(user) && t.lastUpdatedBy == None
    ensures t.activityLog == [CreatedEntry(now, Snapshot(user), t.status, t.assignedUsers)]
  {
    var status := Or(body.status, PendingStatus);
    var assignees := AssignedOrEmpty(body.assignedUsers);
    Task(
      title := body.title.value,
      description := Or(body.description, ""),
      status := status,
      dueDate := dueISO,
      hasTime := Truthy(body.dueTime),
      createdAt := now,
      updatedAt := now,
      assignedUsers := assignees,
      createdBy := Snapshot(user),
      lastUpdatedBy := None,
      activityLog := [CreatedEntry(now, Snapshot(user), status, assignees)])
  }

  /** The calls POST makes: 'created' for the creator, then 'assigned' once per
      entry of the assigned list. */
  function CreateCalls(creator: UserId, assignees: seq<UserId>): (r: seq<StatCall>)
    ensures |r| == 1 + |assignees|
    ensures r[0] == StatCall(creator, Created)
    ensures forall i :: 0 <= i < |assignees| ==> r[i + 1] == StatCall(assignees[i], Assigned)
  {
    [StatCall(creator, Created)] + CallsFor(assignees, Assigned)
  }

  /** The counter change a status change implies for each assigned user. */
  function Transition(previous: string, status: Option<string>): (r: Option<StatType>)
    ensures r == Some(Completed) <==> status == Some(CompletedStatus) && previous != CompletedStatus
    ensures r == Some(Uncompleted) <==> previous == CompletedStatus && status != Some(CompletedStatus)
    ensures r != Some(Created) && r != Some(Assigned)
  {
    if status == Some(CompletedStatus) && previous != CompletedStatus then Some(Completed)
    else if previous == CompletedStatus && status != Some(CompletedStatus) then Some(Uncompleted)
    else None
  }

  /** The calls of the status-change loop over `assignees`: none when the status
      is unchanged or moves between Pending and In Progress; one 'completed'
      per entry when entering Completed; one 'uncompleted' per entry when
      leaving it. */
  function StatusCalls(previous: string, status: Option<string>, assignees: seq<UserId>): (r: seq<StatCall>)
    ensures status == Some(previous) ==> r == []
    ensures previous != CompletedStatus && status == Some(CompletedStatus) ==> r == CallsFor(assignees, Completed)
    ensures previous == CompletedStatus && status != Some(CompletedStatus) ==> r == CallsFor(assignees, Uncompleted)
    ensures previous != CompletedStatus && status != Some(CompletedStatus) ==> r == []
  {
    if status == Some(previous) then []
    else match Transition(previous, status)
      case Some(k) => CallsFor(assignees, k)
      case None => []
  }

  lemma StatusCallsSnoc(previous: string, status: Option<string>, assignees: seq<UserId>, i: nat)
    requires i < |assignees| && status != Some(previous)
    ensures StatusCalls(previous, status, assignees[..i + 1])
         == StatusCalls(previous, status, assignees[..i])
            + (match Transition(previous, status) case Some(k) => [StatCall(assignees[i], k)] case None => [])
  {
    match Transition(previous, status)
    case Some(k) => CallsForSnoc(assignees, i, k);
    case None =>
  }

  /** One more assignee adds the call its transition asks for, if any. */
  lemma StatusCallsStep(previous: string, status: Option<string>, assignees: seq<UserId>, i: nat)
    requires i < |assignees| && status != Some(previous)
    ensures var before, after := StatusCalls(previous, status, assignees[..i]), StatusCalls(previous, status, assignees[..i + 1]);
            && (status == Some(CompletedStatus) && previous != CompletedStatus ==> after == before + [StatCall(assignees[i], Completed)])
            && (previous == CompletedStatus && status != Some(CompletedStatus) ==> after == before + [StatCall(assignees[i], Uncompleted)])
            && (previous != CompletedStatus && status != Some(CompletedStatus) ==> after == before)
  {
    StatusCallsSnoc(previous, status, assignees, i);
  }

  function NotIn(xs: seq<UserId>): UserId -> bool {
    x => x !in xs
  }

  /** `newAssignedUsers.filter(uid => !previousAssignedUsers.includes(uid))`. */
  function UsersToAdd(newAssigned: seq<UserId>, previous: seq<UserId>): (r: seq<UserId>)
    ensures forall i :: 0 <= i < |r| ==> r[i] in newAssigned && r[i] !in previous
    ensures forall i :: 0 <= i < |newAssigned| && newAssigned[i] !in previous ==> newAssigned[i] in r
  {
    Filter(newAssigned, NotIn(previous))
  }

  /** `previousAssignedUsers.filter(uid => !newAssignedUsers.includes(uid))`. */
  function UsersRemoved(previous: seq<UserId>, newAssigned: seq<UserId>): (r: seq<UserId>)
    ensures forall i :: 0 <= i < |r| ==> r[i] in previous && r[i] !in newAssigned
    ensures forall i :: 0 <= i < |previous| && previous[i] !in newAssigned ==> previous[i] in r
  {
    Filter(previous, NotIn(newAssigned))
  }

  /** The set differences keep exactly the users on one side only, with their
      multiplicities, in list order. */
  lemma AssignmentDiff(previous: seq<UserId>, newAssigned: seq<UserId>, x: UserId)
    ensures multiset(UsersToAdd(newAssigned, previous))[x] == if x in previous then 0 else multiset(newAssigned)[x]
    ensures multiset(UsersRemoved(previous, newAssigned))[x] == if x in newAssigned then 0 else multiset(previous)[x]
    ensures UsersToAdd(newAssigned, previous) == [] <==> forall i :: 0 <= i < |newAssigned| ==> newAssigned[i] in previous
  {
    FilterMultiset(newAssigned, NotIn(previous), x);
    FilterMultiset(previous, NotIn(newAssigned), x);
    var added := UsersToAdd(newAssigned, previous);
    if added != [] {
      assert added[0] in added;
    }
  }

  /** The calls of the loop over newly assigned users: 'assigned', then
      'completed' when the new status is Completed. */
  function AddedCalls(added: seq<UserId>, completed: bool): seq<StatCall>
    decreases |added|
  {
    if added == [] then []
    else
      var x := added[|added| - 1];
      AddedCalls(added[..|added| - 1], completed)
      + [StatCall(x, Assigned)] + (if completed then [StatCall(x, Completed)] else [])
  }

  lemma {:induction false} AddedCallsMultiset(added: seq<UserId>, completed: bool)
    ensures multiset(AddedCalls(added, completed))
         == multiset(CallsFor(added, Assigned)) + (if completed then multiset(CallsFor(added, Completed)) else multiset{})
    decreases |added|
  {
    if added != [] {
      AddedCallsMultiset(added[..|added| - 1], completed);
    }
  }

  lemma {:induction false} AddedCallsUsers(added: seq<UserId>, completed: bool)
    ensures forall i :: 0 <= i < |AddedCalls(added, completed)| ==> AddedCalls(added, completed)[i].userId in added
    decreases |added|
  {
    if added != [] {
      var init := added[..|added| - 1];
      AddedCallsUsers(init, completed);
      assert forall y :: y in init ==> y in added;
    }
  }

  /** Each added user gets one 'assigned' call per occurrence, plus one
      'completed' call per occurrence when the new status is Completed. */
  lemma AddedCallsCount(added: seq<UserId>, completed: bool, x: UserId)
    ensures multiset(AddedCalls(added, completed))[StatCall(x, Assigned)] == multiset(added)[x]
    ensures multiset(AddedCalls(added, completed))[StatCall(x, Completed)] == if completed then multiset(added)[x] else 0
    ensures multiset(AddedCalls(added, completed))[StatCall(x, Uncompleted)] == 0
    ensures multiset(AddedCalls(added, completed))[StatCall(x, Created)] == 0
  {
    AddedCallsMultiset(added, completed);
    CallsForCount(added, Assigned, x, Assigned);
    CallsForCount(added, Assigned, x, Completed);
    CallsForCount(added, Assigned, x, Uncompleted);
    CallsForCount(added, Assigned, x, Created);
    CallsForCount(added, Completed, x, Assigned);
    CallsForCount(added, Completed, x, Completed);
    CallsForCount(added, Completed, x, Uncompleted);
    CallsForCount(added, Completed, x, Created);
  }

  /** The calls PUT makes, in order: the status-change loop over the NEW
      assignees list, then the loop over newly added users. */
  function PutCalls(previousStatus: string, status: Option<string>, previous: seq<UserId>, newAssigned: seq<UserId>)
    : (r: seq<StatCall>)
    ensures StatusCalls(previousStatus, status, newAssigned) <= r
    ensures status == Some(previousStatus) ==> r == AddedCalls(UsersToAdd(newAssigned, previous), status == Some(CompletedStatus))
    ensures (forall i :: 0 <= i < |newAssigned| ==> newAssigned[i] in previous) ==> r == StatusCalls(previousStatus, status, newAssigned)
  {
    StatusCalls(previousStatus, status, newAssigned)
    + AddedCalls(UsersToAdd(newAssigned, previous), status == Some(CompletedStatus))
  }

  /** The field-level diff of PUT: a field appears exactly when its new value
      differs from the stored one; `assignedUsers` appears exactly when some
      user was added or removed. */
  function Diff(current: Task, body: TaskBody, dueISO: string, added: seq<UserId>, removed: seq<UserId>, newAssigned: seq<UserId>): (c: Changes)
    requires body.title.Some?
    ensures c.title == if body.title.value != current.title then Some(Change(current.title, body.title.value)) else None
    ensures c.description == if body.description != Some(current.description) then Some(Change(Some(current.description), body.description)) else None
    ensures c.status == if body.status != Some(current.status) then Some(Change(Some(current.status), body.status)) else None
    ensures c.dueDate == if dueISO != current.dueDate then Some(Change(current.dueDate, dueISO)) else None
    ensures c.hasTime == if Truthy(body.dueTime) != current.hasTime then Some(Change(current.hasTime, Truthy(body.dueTime))) else None
    ensures c.assignedUsers.Some? <==> |added| > 0 || |removed| > 0
    ensures c.assignedUsers.Some? ==> c.assignedUsers.value == AssignmentChange(added, removed, newAssigned)
  {
    var hasTime := Truthy(body.dueTime);
    Changes(
      title := if body.title.value != current.title then Some(Change(current.title, body.title.value)) else None,
      description := if body.description != Some(current.description) then Some(Change(Some(current.description), body.description)) else None,
      status := if body.status != Some(current.status) then Some(Change(Some(current.status), body.status)) else None,
      dueDate := if dueISO != current.dueDate then Some(Change(current.dueDate, dueISO)) else None,
      hasTime := if hasTime != current.hasTime then Some(Change(current.hasTime, hasTime)) else None,
      assignedUsers := if |added| > 0 || |removed| > 0 then Some(AssignmentChange(added, removed, newAssigned)) else None)
  }

  /** The document PUT writes: every editable field replaced, creation data
      kept, one 'updated' entry appended that lists exactly the changed fields. */
  function UpdatedTask(current: Task, body: TaskBody, user: ActingUser, dueISO: string, now: string): (t: Task)
    requires body.title.Some?
    ensures |t.activityLog| == |current.activityLog| + 1
    ensures current.activityLog <= t.activityLog
    ensures var newAssigned := AssignedOrEmpty(body.assignedUsers);
            t.activityLog[|current.activityLog|]
            == UpdatedEntry(now, Snapshot(user),
                            Diff(current, body, dueISO, UsersToAdd(newAssigned, current.assignedUsers),
                                 UsersRemoved(current.assignedUsers, newAssigned), newAssigned))
    ensures t.title == body.title.value
    ensures t.description == (if Truthy(body.description) then body.description.value else "")
    ensures t.status == (if Truthy(body.status) then body.status.value else PendingStatus)
    ensures t.dueDate == dueISO && t.hasTime == Truthy(body.dueTime) && t.updatedAt == now
    ensures t.assignedUsers == AssignedOrEmpty(body.assignedUsers)
    ensures t.lastUpdatedBy == Some(Snapshot(user))
    ensures t.createdAt == current.createdAt && t.createdBy == current.createdBy
  {
    var newAssigned := AssignedOrEmpty(body.assignedUsers);
    var added := UsersToAdd(newAssigned, current.assignedUsers);
    var removed := UsersRemoved(current.assignedUsers, newAssigned);
    var entry := UpdatedEntry(now, Snapshot(user), Diff(current, body, dueISO, added, removed, newAssigned));
    current.(
      title := body.title.value,
      description := Or(body.description, ""),
      status := Or(body.status, PendingStatus),
      dueDate := dueISO,
      hasTime := Truthy(body.dueTime),
      updatedAt := now,
      assignedUsers := newAssigned,
      lastUpdatedBy := Some(Snapshot(user)),
      activityLog := current.activityLog + [entry])
  }

  /** Every stored task has a log whose first entry is its 'created' entry. */
  ghost predicate LogsWellFormed(tasks: map<TaskId, Task>) {
    forall id :: id in tasks ==> |tasks[id].activityLog| >= 1 && tasks[id].activityLog[0].CreatedEntry?
  }

  /** The log of every task that survives only grows: earlier entries are kept
      unchanged and in place. */
  ghost predicate LogsExtend(before: map<TaskId, Task>, after: map<TaskId, Task>) {
    forall id :: id in before && id in after ==> before[id].activityLog <= after[id].activityLog
  }

  lemma AppendCall(trace: seq<StatCall>, done: seq<StatCall>, c: StatCall)
    ensures trace + done + [c] == trace + (done + [c])
  {
  }

  lemma AppendCalls(trace: seq<StatCall>, done: seq<StatCall>, more: seq<StatCall>)
    ensures trace + done + more == trace + (done + more)
  {
  }

  /** Replacing one stored task by a document whose log extends the old one,
      or adding a new one with a valid log, keeps both log invariants. */
  lemma StoreKeepsLogs(before: map<TaskId, Task>, id: TaskId, t: Task)
    requires id in before ==> before[id].activityLog <= t.activityLog
    requires id !in before ==> |t.activityLog| >= 1 && t.activityLog[0].CreatedEntry?
    ensures LogsWellFormed(before) ==> LogsWellFormed(before[id := t])
    ensures LogsExtend(before, before[id := t])
  {
    if id in before && LogsWellFormed(before) {
      assert before[id].activityLog[0] == t.activityLog[0];
    }
  }

  /** Removing a stored task keeps both log invariants. */
  lemma RemoveKeepsLogs(before: map<TaskId, Task>, id: TaskId)
    ensures LogsWellFormed(before) ==> LogsWellFormed(before - {id})
    ensures LogsExtend(before, before - {id})
  {
  }

  /** The two collections the handlers work on. `statCalls` records every
      `updateUserStats` call in the order it was issued. */
  class TaskService {
    var tasks: map<TaskId, Task>
    var users: map<UserId, UserProfile>
    ghost var statCalls: seq<StatCall>

    constructor (tasks: map<TaskId, Task>, users: map<UserId, UserProfile>)
      ensures this.tasks == tasks && this.users == users && statCalls == []
    {
      this.tasks := tasks;
      this.users := users;
      statCalls := [];
    }

    /** `updateUserStats(userId, statType)`. */
    method UpdateUserStats(userId: UserId, statType: StatType, now: string)
      modifies this
      ensures tasks == old(tasks)
      ensures users == ApplyStat(old(users), StatCall(userId, statType), now)
      ensures statCalls == old(statCalls) + [StatCall(userId, statType)]
    {
      statCalls := statCalls + [StatCall(userId, statType)];
      if userId !in users {
        return;
      }
      var doc := users[userId];
      var stats := doc.stats.GetOr(ZeroStats);
      var updated := stats;
      match statType {
        case Created =>
          updated := updated.(tasksCreated := stats.tasksCreated + 1);
        case Assigned =>
          updated := updated.(tasksAssigned := stats.tasksAssigned + 1);
        case Completed =>
          updated := updated.(tasksCompleted := stats.tasksCompleted + 1);
          updated := updated.(lastTaskCompletedAt := Some(now));
        case Uncompleted =>
          if stats.tasksCompleted > 0 {
            updated := updated.(tasksCompleted := stats.tasksCompleted - 1);
          }
      }
      users := users[userId := doc.(stats := Some(updated), updatedAt := now)];
    }

    /** What every handler keeps: well-formed logs stay well-formed, surviving
        logs only grow, counters stay non-negative, no user document appears
        or disappears. */
    twostate predicate KeepsInvariants()
      reads this
    {
      && (old(LogsWellFormed(tasks)) ==> LogsWellFormed(tasks))
      && LogsExtend(old(tasks), tasks)
      && (old(NonNegative(users)) ==> NonNegative(users))
      && users.Keys == old(users).Keys
    }

    /** POST /api/tasks. `newId` is the id the store generates for the new document. */
    method CreateTask(body: TaskBody, user: ActingUser, newId: TaskId, now: string, parse: string -> Option<string>)
      returns (res: Response)
      requires newId !in tasks
      modifies this
      ensures !Truthy(body.title) || !Truthy(body.dueDate) ==>
                res == BadRequest400(RequiredMessage) && unchanged(this)
      ensures Truthy(body.title) && Truthy(body.dueDate) && CreateISODate(parse, body.dueDate.value, body.dueTime).None? ==>
                res == BadRequest400(InvalidDateMessage) && unchanged(this)
      ensures Truthy(body.title) && Truthy(body.dueDate) && CreateISODate(parse, body.dueDate.value, body.dueTime).Some? ==>
                var task := NewTask(body, user, CreateISODate(parse, body.dueDate.value, body.dueTime).value, now);
                var calls := CreateCalls(user.uid, AssignedOrEmpty(body.assignedUsers));
                && res == Created201(newId, task)
                && tasks == old(tasks)[newId := task]
                && users == ApplyCalls(old(users), calls, now)
                && statCalls == old(statCalls) + calls
      ensures KeepsInvariants()
    {
      if !Truthy(body.title) || !Truthy(body.dueDate) {
        return BadRequest400(RequiredMessage);
      }
      var dueISO := CreateISODate(parse, body.dueDate.value, body.dueTime);
      if dueISO.None? {
        return BadRequest400(InvalidDateMessage);
      }
      var task := NewTask(body, user, dueISO.value, now);
      tasks := tasks[newId := task];

      StoreKeepsLogs(old(tasks), newId, task);
      var assignees := AssignedOrEmpty(body.assignedUsers);
      ghost var first := [StatCall(user.uid, Created)];
      UpdateUserStats(user.uid, Created, now);
      ApplyCallsSnoc(old(users), [], StatCall(user.uid, Created), now);
      assert [] + first == first;
      AssignLoop(assignees, now);
      AppendCalls(old(statCalls), first, CallsFor(assignees, Assigned));
      ApplyCallsConcat(old(users), first, CallsFor(assignees, Assigned), now);
      ApplyCallsKeys(old(users), CreateCalls(user.uid, assignees), now);
      if NonNegative(old(users)) {
        ApplyCallsNonNegative(old(users), CreateCalls(user.uid, assignees), now);
      }
      return Created201(newId, task);
    }

    /** One `updateUserStats` call issued after the calls `done`, which started
        from the collection `start` and the trace `trace`. */
    method IssueStat(ghost start: map<UserId, UserProfile>, ghost trace: seq<StatCall>, ghost done: seq<StatCall>,
                     ghost next: seq<StatCall>, userId: UserId, statType: StatType, now: string)
      requires users == ApplyCalls(start, done, now) && statCalls == trace + done
      requires next == done + [StatCall(userId, statType)]
      modifies this
      ensures tasks == old(tasks)
      ensures users == ApplyCalls(start, next, now)
      ensures statCalls == trace + next
    {
      ApplyCallsSnoc(start, done, StatCall(userId, statType), now);
      AppendCall(trace, done, StatCall(userId, statType));
      UpdateUserStats(userId, statType, now);
    }

    /** The loop of POST over the assigned list: one 'assigned' call per entry. */
    method AssignLoop(assignees: seq<UserId>, now: string)
      modifies this
      ensures tasks == old(tasks)
      ensures users == ApplyCalls(old(users), CallsFor(assignees, Assigned), now)
      ensures statCalls == old(statCalls) + CallsFor(assignees, Assigned)
    {
      var i := 0;
      while i < |assignees|
        invariant 0 <= i <= |assignees|
        invariant tasks == old(tasks)
        invariant users == ApplyCalls(old(users), CallsFor(assignees[..i], Assigned), now)
        invariant statCalls == old(statCalls) + CallsFor(assignees[..i], Assigned)
      {
        CallsForSnoc(assignees, i, Assigned);
        IssueStat(old(users), old(statCalls), CallsFor(assignees[..i], Assigned), CallsFor(assignees[..i + 1], Assigned),
                  assignees[i], Assigned, now);
        i := i + 1;
      }
      assert assignees[..i] == assignees;
    }

    /** The status-change loop of PATCH and PUT over `assignees`. */
    method StatusLoop(previousStatus: string, status: Option<string>, assignees: seq<UserId>, now: string)
      requires status != Some(previousStatus)
      modifies this
      ensures tasks == old(tasks)
      ensures users == ApplyCalls(old(users), StatusCalls(previousStatus, status, assignees), now)
      ensures statCalls == old(statCalls) + StatusCalls(previousStatus, status, assignees)
    {
      var i := 0;
      while i < |assignees|
        invariant 0 <= i <= |assignees|
        invariant tasks == old(tasks)
        invariant users == ApplyCalls(old(users), StatusCalls(previousStatus, status, assignees[..i]), now)
        invariant statCalls == old(statCalls) + StatusCalls(previousStatus, status, assignees[..i])
      {
        var userId := assignees[i];
        ghost var done := StatusCalls(previousStatus, status, assignees[..i]);
        ghost var next := StatusCalls(previousStatus, status, assignees[..i + 1]);
        StatusCallsStep(previousStatus, status, assignees, i);
        if status == Some(CompletedStatus) && previousStatus != CompletedStatus {
          IssueStat(old(users), old(statCalls), done, next, userId, Completed, now);
        } else if previousStatus == CompletedStatus && status != Some(CompletedStatus) {
          IssueStat(old(users), old(statCalls), done, next, userId, Uncompleted, now);
        }
        assert users == ApplyCalls(old(users), next, now) && statCalls == old(statCalls) + next;
        i := i + 1;
      }
      assert assignees[..i] == assignees;
    }

    /** The loop of PUT over newly assigned users: 'assigned' for each, and
        'completed' right after it when the new status is Completed. */
    method AddedLoop(added: seq<UserId>, completed: bool, now: string)
      modifies this
      ensures tasks == old(tasks)
      ensures users == ApplyCalls(old(users), AddedCalls(added, completed), now)
      ensures statCalls == old(statCalls) + AddedCalls(added, completed)
    {
      var j := 0;
      while j < |added|
        invariant 0 <= j <= |added|
        invariant tasks == old(tasks)
        invariant users == ApplyCalls(old(users), AddedCalls(added[..j], completed), now)
        invariant statCalls == old(statCalls) + AddedCalls(added[..j], completed)
      {
        var userId := added[j];
        ghost var done := AddedCalls(added[..j], completed);
        assert added[..j + 1][..j] == added[..j];
        IssueStat(old(users), old(statCalls), done, done + [StatCall(userId, Assigned)], userId, Assigned, now);
        if completed {
          IssueStat(old(users), old(statCalls), done + [StatCall(userId, Assigned)],
                    done + [StatCall(userId, Assigned)] + [StatCall(userId, Completed)], userId, Completed, now);
          assert AddedCalls(added[..j + 1], completed) == done + [StatCall(userId, Assigned)] + [StatCall(userId, Completed)];
        } else {
          assert AddedCalls(added[..j + 1], completed) == done + [StatCall(userId, Assigned)];
        }
        j := j + 1;
      }
      assert added[..j] == added;
    }

    /** PATCH /api/tasks/:id/status. */
    method UpdateStatus(id: TaskId, status: Option<string>, user: ActingUser, now: string) returns (res: Response)
      modifies this
      ensures !ValidStatus(status) ==> res == BadRequest400(InvalidStatusMessage) && unchanged(this)
      ensures ValidStatus(status) && id !in old(tasks) ==> res == NotFound404(NotFoundMessage) && unchanged(this)
      ensures ValidStatus(status) && id in old(tasks) ==>
                var current := old(tasks)[id];
                var calls := StatusCalls(current.status, status, current.assignedUsers);
                var entry := StatusUpdatedEntry(now, Snapshot(user), current.status, status.value);
                var task := current.(status := status.value, updatedAt := now, lastUpdatedBy := Some(Snapshot(user)),
                                     activityLog := current.activityLog + [entry]);
                && res == Ok200(id, task)
                && tasks == old(tasks)[id := task]
                && users == ApplyCalls(old(users), calls, now)
                && statCalls == old(statCalls) + calls
      ensures KeepsInvariants()
    {
      if !ValidStatus(status) {
        return BadRequest400(InvalidStatusMessage);
      }
      if id !in tasks {
        return NotFound404(NotFoundMessage);
      }
      var current := tasks[id];
      var previousStatus := current.status;
      if status != Some(previousStatus) {
        StatusLoop(previousStatus, status, current.assignedUsers, now);
      }
      var snapshot := Snapshot(user);
      var entry := StatusUpdatedEntry(now, snapshot, previousStatus, status.value);
      var task := current.(status := status.value, updatedAt := now, lastUpdatedBy := Some(snapshot),
                           activityLog := current.activityLog + [entry]);
      StoreKeepsLogs(old(tasks), id, task);
      tasks := tasks[id := task];
      ApplyCallsKeys(old(users), StatusCalls(previousStatus, status, current.assignedUsers), now);
      if old(NonNegative(users)) {
        ApplyCallsNonNegative(old(users), StatusCalls(previousStatus, status, current.assignedUsers), now);
      }
      return Ok200(id, task);
    }

    /** DELETE /api/tasks/:id: appends a 'deleted' entry, then removes the
        document; no counter is touched. */
    method DeleteTask(id: TaskId, user: ActingUser, now: string) returns (res: Response)
      modifies this
      ensures id !in old(tasks) ==> res == NotFound404(NotFoundMessage) && unchanged(this)
      ensures id in old(tasks) ==>
                && res == Deleted200(DeletedMessage)
                && tasks == old(tasks) - {id}
                && users == old(users)
                && statCalls == old(statCalls)
      ensures KeepsInvariants()
    {
      if id !in tasks {
        return NotFound404(NotFoundMessage);
      }
      var current := tasks[id];
      tasks := tasks[id := current.(activityLog := current.activityLog + [DeletedEntry(now, Snapshot(user))])];
      tasks := tasks - {id};
      assert tasks == old(tasks) - {id};
      RemoveKeepsLogs(old(tasks), id);
      return Deleted200(DeletedMessage);
    }

    /** The statistics calls of PUT: the status-change loop over the new
        assigned list, then the loop over newly added users. */
    method PutStats(previousStatus: string, status: Option<string>, previous: seq<UserId>, newAssigned: seq<UserId>, now: string)
      modifies this
      ensures tasks == old(tasks)
      ensures users == ApplyCalls(old(users), PutCalls(previousStatus, status, previous, newAssigned), now)
      ensures statCalls == old(statCalls) + PutCalls(previousStatus, status, previous, newAssigned)
      ensures users.Keys == old(users).Keys
      ensures old(NonNegative(users)) ==> NonNegative(users)
    {
      ghost var statusCalls := StatusCalls(previousStatus, status, newAssigned);
      ghost var added := AddedCalls(UsersToAdd(newAssigned, previous), status == Some(CompletedStatus));
      if status != Some(previousStatus) {
        StatusLoop(previousStatus, status, newAssigned, now);
      } else {
        assert statusCalls == [];
      }
      ghost var mid := statCalls;
      AddedLoop(UsersToAdd(newAssigned, previous), status == Some(CompletedStatus), now);
      AppendCalls(old(statCalls), statusCalls, added);
      ApplyCallsConcat(old(users), statusCalls, added, now);
      ApplyCallsKeys(old(users), statusCalls + added, now);
      if old(NonNegative(users)) {
        ApplyCallsNonNegative(old(users), statusCalls + added, now);
      }
    }

    /** PUT /api/tasks/:id. All statistics calls happen before the due date is
        parsed, so an unparseable date answers 400 with the counters already
        changed and the task document untouched. */
    method UpdateTask(id: TaskId, body: TaskBody, user: ActingUser, now: string, parse: string -> Option<string>)
      returns (res: Response)
      modifies this
      ensures !Truthy(body.title) || !Truthy(body.dueDate) ==>
                res == BadRequest400(RequiredMessage) && unchanged(this)
      ensures Truthy(body.title) && Truthy(body.dueDate) && id !in old(tasks) ==>
                res == NotFound404(NotFoundMessage) && unchanged(this)
      ensures Truthy(body.title) && Truthy(body.dueDate) && id in old(tasks) ==>
                var current := old(tasks)[id];
                var calls := PutCalls(current.status, body.status, current.assignedUsers, AssignedOrEmpty(body.assignedUsers));
                var dueISO := CreateISODate(parse, body.dueDate.value, body.dueTime);
                && users == ApplyCalls(old(users), calls, now)
                && statCalls == old(statCalls) + calls
                && (dueISO.None? ==> res == BadRequest400(InvalidDateMessage) && tasks == old(tasks))
                && (dueISO.Some? ==>
                      var task := UpdatedTask(current, body, user, dueISO.value, now);
                      res == Ok200(id, task) && tasks == old(tasks)[id := task])
      ensures KeepsInvariants()
    {
      if !Truthy(body.title) || !Truthy(body.dueDate) {
        return BadRequest400(RequiredMessage);
      }
      if id !in tasks {
        return NotFound404(NotFoundMessage);
      }
      var current := tasks[id];
      var previousStatus := current.status;
      var previousAssigned := current.assignedUsers;
      var newAssigned := AssignedOrEmpty(body.assignedUsers);
      var usersToAdd := UsersToAdd(newAssigned, previousAssigned);

      PutStats(previousStatus, body.status, previousAssigned, newAssigned, now);

      var dueISO := CreateISODate(parse, body.dueDate.value, body.dueTime);
      if dueISO.None? {
        return BadRequest400(InvalidDateMessage);
      }
      var task := UpdatedTask(current, body, user, dueISO.value, now);
      StoreKeepsLogs(old(tasks), id, task);
      tasks := tasks[id := task];
      return Ok200(id, task);
    }
  }
}
