/** What the statistics calls of each handler do to one user's counters. */
module ServerProps {
  import opened Wrappers
  import opened Entities
  import opened Ledger
  import opened TaskServer

  /** POST adds one to the creator's `tasksCreated` and one to `tasksAssigned`
      per occurrence in the assigned list, and never touches `tasksCompleted`,
      whatever the initial status. */
  lemma CreateEffect(users: map<UserId, UserProfile>, creator: UserId, assignees: seq<UserId>, now: string, x: UserId)
    requires x in users
    ensures var after := StatsOf(ApplyCalls(users, CreateCalls(creator, assignees), now), x);
            && after.tasksCreated == StatsOf(users, x).tasksCreated + (if x == creator then 1 else 0)
            && after.tasksAssigned == StatsOf(users, x).tasksAssigned + multiset(assignees)[x]
            && after.tasksCompleted == StatsOf(users, x).tasksCompleted
  {
    var cs := CreateCalls(creator, assignees);
    CallsForCount(assignees, Assigned, x, Created);
    CallsForCount(assignees, Assigned, x, Assigned);
    CallsForCount(assignees, Assigned, x, Completed);
    CallsForCount(assignees, Assigned, x, Uncompleted);
    assert multiset(cs)[StatCall(x, Uncompleted)] == 0;
    ApplyCallsCounters(users, cs, now, x);
  }

  /** A status change that neither enters nor leaves Completed, or repeats the
      stored status, leaves every user document as it was. */
  lemma StatusNoEffect(users: map<UserId, UserProfile>, previous: string, status: Option<string>, assignees: seq<UserId>, now: string)
    requires status == Some(previous) || (previous != CompletedStatus && status != Some(CompletedStatus))
    ensures ApplyCalls(users, StatusCalls(previous, status, assignees), now) == users
  {
  }

  /** Entering Completed adds one to `tasksCompleted` per occurrence of the
      user in the assigned list and changes no other counter. */
  lemma EnterCompletedEffect(users: map<UserId, UserProfile>, previous: string, assignees: seq<UserId>, now: string, x: UserId)
    requires x in users && previous != CompletedStatus
    ensures var after := StatsOf(ApplyCalls(users, StatusCalls(previous, Some(CompletedStatus), assignees), now), x);
            && after.tasksCompleted == StatsOf(users, x).tasksCompleted + multiset(assignees)[x]
            && after.tasksCreated == StatsOf(users, x).tasksCreated
            && after.tasksAssigned == StatsOf(users, x).tasksAssigned
  {
    var cs := StatusCalls(previous, Some(CompletedStatus), assignees);
    CallsForCount(assignees, Completed, x, Created);
    CallsForCount(assignees, Completed, x, Assigned);
    CallsForCount(assignees, Completed, x, Completed);
    CallsForCount(assignees, Completed, x, Uncompleted);
    assert multiset(cs)[StatCall(x, Uncompleted)] == 0;
    ApplyCallsCounters(users, cs, now, x);
  }

  /** Leaving Completed takes one from `tasksCompleted` per occurrence of the
      user in the assigned list, as long as the counter holds at least that
      many, and changes no other counter. */
  lemma LeaveCompletedEffect(users: map<UserId, UserProfile>, status: Option<string>, assignees: seq<UserId>, now: string, x: UserId)
    requires x in users && status != Some(CompletedStatus)
    requires StatsOf(users, x).tasksCompleted >= multiset(assignees)[x]
    ensures var after := StatsOf(ApplyCalls(users, StatusCalls(CompletedStatus, status, assignees), now), x);
            && after.tasksCompleted == StatsOf(users, x).tasksCompleted - multiset(assignees)[x]
            && after.tasksCreated == StatsOf(users, x).tasksCreated
            && after.tasksAssigned == StatsOf(users, x).tasksAssigned
  {
    var cs := StatusCalls(CompletedStatus, status, assignees);
    CallsForCount(assignees, Uncompleted, x, Created);
    CallsForCount(assignees, Uncompleted, x, Assigned);
    CallsForCount(assignees, Uncompleted, x, Uncompleted);
    UncompleteCounter(users, cs, now, x);
    ApplyCallsCounters(users, cs, now, x);
  }

  /** Completing a task and then moving it back to its earlier status returns
      every counter of every assigned user to where it started. */
  lemma CompleteThenReopen(users: map<UserId, UserProfile>, previous: string, assignees: seq<UserId>, now: string, later: string, x: UserId)
    requires x in users && previous != CompletedStatus && NonNegative(users)
    ensures var mid := ApplyCalls(users, StatusCalls(previous, Some(CompletedStatus), assignees), now);
            var back := ApplyCalls(mid, StatusCalls(CompletedStatus, Some(previous), assignees), later);
            && StatsOf(back, x).tasksCompleted == StatsOf(users, x).tasksCompleted
            && StatsOf(back, x).tasksCreated == StatsOf(users, x).tasksCreated
            && StatsOf(back, x).tasksAssigned == StatsOf(users, x).tasksAssigned
  {
    var mid := ApplyCalls(users, StatusCalls(previous, Some(CompletedStatus), assignees), now);
    EnterCompletedEffect(users, previous, assignees, now, x);
    ApplyCallsKeys(users, StatusCalls(previous, Some(CompletedStatus), assignees), now);
    assert StatsOf(users, x).tasksCompleted >= 0;
    LeaveCompletedEffect(mid, Some(previous), assignees, later, x);
  }

  /** Every call of PUT names a user on the new assigned list. */
  lemma PutCallsUsers(previousStatus: string, status: Option<string>, previous: seq<UserId>, newAssigned: seq<UserId>)
    ensures forall i :: 0 <= i < |PutCalls(previousStatus, status, previous, newAssigned)| ==>
              PutCalls(previousStatus, status, previous, newAssigned)[i].userId in newAssigned
  {
    var added := UsersToAdd(newAssigned, previous);
    AddedCallsUsers(added, status == Some(CompletedStatus));
    var cs := PutCalls(previousStatus, status, previous, newAssigned);
    var sc := StatusCalls(previousStatus, status, newAssigned);
    var ac := AddedCalls(added, status == Some(CompletedStatus));
    forall i | 0 <= i < |cs|
      ensures cs[i].userId in newAssigned
    {
      if i < |sc| {
        assert cs[i] == sc[i];
      } else {
        assert cs[i] == ac[i - |sc|];
        assert ac[i - |sc|].userId in added;
      }
    }
  }

  /** PUT gives a user removed from the task no call at all: no counter of
      theirs goes down. */
  lemma PutRemovedUntouched(users: map<UserId, UserProfile>, previousStatus: string, status: Option<string>,
                            previous: seq<UserId>, newAssigned: seq<UserId>, now: string, x: UserId)
    requires x in users && x !in newAssigned
    ensures x in ApplyCalls(users, PutCalls(previousStatus, status, previous, newAssigned), now)
    ensures ApplyCalls(users, PutCalls(previousStatus, status, previous, newAssigned), now)[x] == users[x]
  {
    var cs := PutCalls(previousStatus, status, previous, newAssigned);
    PutCallsUsers(previousStatus, status, previous, newAssigned);
    assert forall i :: 0 <= i < |cs| ==> cs[i].userId != x by {
      forall i | 0 <= i < |cs| ensures cs[i].userId != x {
        assert cs[i].userId in newAssigned;
      }
    }
    ApplyCallsUntouched(users, cs, now, x);
  }

  /** PUT adds to `tasksAssigned` only for users who were not assigned before,
      once per occurrence on the new list, and never touches `tasksCreated`. */
  lemma PutAssignedEffect(users: map<UserId, UserProfile>, previousStatus: string, status: Option<string>,
                          previous: seq<UserId>, newAssigned: seq<UserId>, now: string, x: UserId)
    requires x in users
    ensures var after := StatsOf(ApplyCalls(users, PutCalls(previousStatus, status, previous, newAssigned), now), x);
            && after.tasksAssigned == StatsOf(users, x).tasksAssigned + (if x in previous then 0 else multiset(newAssigned)[x])
            && after.tasksCreated == StatsOf(users, x).tasksCreated
  {
    var added := UsersToAdd(newAssigned, previous);
    var completed := status == Some(CompletedStatus);
    var cs := PutCalls(previousStatus, status, previous, newAssigned);
    AssignmentDiff(previous, newAssigned, x);
    AddedCallsCount(added, completed, x);
    CallsForCount(newAssigned, Completed, x, Assigned);
    CallsForCount(newAssigned, Completed, x, Created);
    CallsForCount(newAssigned, Uncompleted, x, Assigned);
    CallsForCount(newAssigned, Uncompleted, x, Created);
    assert multiset(cs) == multiset(StatusCalls(previousStatus, status, newAssigned)) + multiset(AddedCalls(added, completed));
    ApplyCallsCounters(users, cs, now, x);
  }

  /** Moving a task into Completed while adding a user gives that user two
      'completed' calls per occurrence: one from the status loop over the new
      list and one from the added-user loop. */
  lemma PutDoubleCount(users: map<UserId, UserProfile>, previousStatus: string, previous: seq<UserId>,
                       newAssigned: seq<UserId>, now: string, x: UserId)
    requires x in users && previousStatus != CompletedStatus && x !in previous
    ensures StatsOf(ApplyCalls(users, PutCalls(previousStatus, Some(CompletedStatus), previous, newAssigned), now), x).tasksCompleted
         == StatsOf(users, x).tasksCompleted + 2 * multiset(newAssigned)[x]
  {
    var added := UsersToAdd(newAssigned, previous);
    var cs := PutCalls(previousStatus, Some(CompletedStatus), previous, newAssigned);
    AssignmentDiff(previous, newAssigned, x);
    AddedCallsCount(added, true, x);
    CallsForCount(newAssigned, Completed, x, Completed);
    CallsForCount(newAssigned, Completed, x, Uncompleted);
    assert multiset(cs) == multiset(CallsFor(newAssigned, Completed)) + multiset(AddedCalls(added, true));
    assert multiset(cs)[StatCall(x, Uncompleted)] == 0;
    ApplyCallsCounters(users, cs, now, x);
  }

  /** The loop over newly added users gives each of them one 'assigned' call
      per occurrence, and as many 'completed' calls when the new status is
      Completed. */
  lemma AddedCallsEffect(users: map<UserId, UserProfile>, added: seq<UserId>, completed: bool, now: string, x: UserId)
    requires x in users
    ensures var after := StatsOf(ApplyCalls(users, AddedCalls(added, completed), now), x);
            && after.tasksAssigned == StatsOf(users, x).tasksAssigned + multiset(added)[x]
            && after.tasksCompleted == StatsOf(users, x).tasksCompleted + (if completed then multiset(added)[x] else 0)
            && after.tasksCreated == StatsOf(users, x).tasksCreated
  {
    AddedCallsCount(added, completed, x);
    ApplyCallsCounters(users, AddedCalls(added, completed), now, x);
  }

  /** PUT on a task that stays Completed gives a newly added user one
      'assigned' and one 'completed' call per occurrence, and none for the
      status loop, which does not run. */
  lemma PutAddToCompletedTask(users: map<UserId, UserProfile>, previous: seq<UserId>, newAssigned: seq<UserId>,
                              now: string, x: UserId)
    requires x in users && x !in previous
    ensures var after := StatsOf(ApplyCalls(users, PutCalls(CompletedStatus, Some(CompletedStatus), previous, newAssigned), now), x);
            && after.tasksAssigned == StatsOf(users, x).tasksAssigned + multiset(newAssigned)[x]
            && after.tasksCompleted == StatsOf(users, x).tasksCompleted + multiset(newAssigned)[x]
            && after.tasksCreated == StatsOf(users, x).tasksCreated
  {
    var added := UsersToAdd(newAssigned, previous);
    var ac := AddedCalls(added, true);
    assert StatusCalls(CompletedStatus, Some(CompletedStatus), newAssigned) == [];
    assert PutCalls(CompletedStatus, Some(CompletedStatus), previous, newAssigned) == [] + ac == ac;
    AssignmentDiff(previous, newAssigned, x);
    AddedCallsEffect(users, added, true, now, x);
  }
}
