/** The documents of the two collections, `tasks` and `users`, and the records
    stored inside them. Timestamps are ISO strings produced outside the model. */
module Entities {
  import opened Wrappers

  type UserId = string
  type TaskId = string

  /** The three statuses the status endpoint accepts. */
  const PendingStatus := "Pending"
  const InProgressStatus := "In Progress"
  const CompletedStatus := "Completed"

  /** The claims of a verified bearer token: `{uid, email, name}`. */
  datatype ActingUser = ActingUser(uid: UserId, email: string, name: Option<string>)

  /** The denormalised `{uid, name, email}` copy of the acting user kept in
      tasks and activity entries. */
  datatype UserSnapshot = UserSnapshot(uid: UserId, name: string, email: string)

  /** `user.name || user.email`. */
  function Snapshot(u: ActingUser): (s: UserSnapshot)
    ensures s.uid == u.uid && s.email == u.email
    ensures u.name.Some? && u.name.value != "" ==> s.name == u.name.value
    ensures u.name.None? || u.name.value == "" ==> s.name == u.email
  {
    UserSnapshot(u.uid, if u.name.Some? && u.name.value != "" then u.name.value else u.email, u.email)
  }

  datatype Change<T> = Change(from: T, to: T)

  datatype AssignmentChange = AssignmentChange(added: seq<UserId>, removed: seq<UserId>, current: seq<UserId>)

  /** The `changes` object of an `updated` entry; an absent field is `None`.
      Values taken from the request body may be `undefined`. */
  datatype Changes = Changes(
    title: Option<Change<string>>,
    description: Option<Change<Option<string>>>,
    status: Option<Change<Option<string>>>,
    dueDate: Option<Change<string>>,
    hasTime: Option<Change<bool>>,
    assignedUsers: Option<AssignmentChange>)

  const NoChanges := Changes(None, None, None, None, None, None)

  /** One activity-log entry; the constructor is its `action`. */
  datatype ActivityEntry =
    | CreatedEntry(timestamp: string, user: UserSnapshot, initialStatus: string, assignedUsers: seq<UserId>)
    | StatusUpdatedEntry(timestamp: string, user: UserSnapshot, previousStatus: string, newStatus: string)
    | UpdatedEntry(timestamp: string, user: UserSnapshot, changes: Changes)
    | DeletedEntry(timestamp: string, user: UserSnapshot)

  /** A task document (its id is the key under which it is stored). */
  datatype Task = Task(
    title: string,
    description: string,
    status: string,
    dueDate: string,
    hasTime: bool,
    createdAt: string,
    updatedAt: string,
    assignedUsers: seq<UserId>,
    createdBy: UserSnapshot,
    lastUpdatedBy: Option<UserSnapshot>,
    activityLog: seq<ActivityEntry>)

  /** The `stats` object of a user document. */
  datatype Stats = Stats(tasksCreated: int, tasksAssigned: int, tasksCompleted: int, lastTaskCompletedAt: Option<string>)

  const ZeroStats := Stats(0, 0, 0, None)

  /** A user document; `stats` is absent until the first statistics update. */
  datatype UserProfile = UserProfile(
    uid: UserId,
    email: string,
    name: string,
    role: string,
    createdAt: string,
    lastLogin: string,
    updatedAt: string,
    stats: Option<Stats>)
}
