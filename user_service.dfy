/** The client-side user service of client/src/services/userService.js over
    an in-memory `users` collection and a snapshot of the `tasks` collection:
    the per-user task counts, the user list, and the create-or-touch and merge
    rules for profiles. */
module UserService {
  import opened Wrappers
  import opened Text
  import opened Seqs
  import opened Entities
  import Ledger

  /** A task document as the client reads it: every field the counting looks
      at may be absent (`None`). */
  datatype TaskDoc = TaskDoc(id: TaskId, createdByUid: Option<UserId>, assignedUsers: Option<seq<UserId>>, status: Option<string>)

  /** The `{created, assigned, completed}` object `getUserTaskStats` returns
      (`assigned` is a reserved word here, hence the `Count` suffixes). */
  datatype TaskCounts = TaskCounts(createdCount: nat, assignedCount: nat, completedCount: nat)

  /** `task.createdBy?.uid === userId`. */
  function CreatedBy(userId: UserId): TaskDoc -> bool {
    (t: TaskDoc) => t.createdByUid == Some(userId)
  }

  /** `task.assignedUsers?.includes(userId)`: a task without the field never counts. */
  function AssignedTo(userId: UserId): TaskDoc -> bool {
    (t: TaskDoc) => t.assignedUsers.Some? && userId in t.assignedUsers.value
  }

  /** Assigned to `userId` and in status 'Completed'. */
  function CompletedFor(userId: UserId): TaskDoc -> bool {
    (t: TaskDoc) => t.assignedUsers.Some? && userId in t.assignedUsers.value && t.status == Some(CompletedStatus)
  }

  /** The three counts over a list of task documents. A completed task is an
      assigned one, so no count exceeds the number of tasks and `completed`
      never exceeds `assigned`. */
  function Counts(tasks: seq<TaskDoc>, userId: UserId): (r: TaskCounts)
    ensures r.completedCount <= r.assignedCount <= |tasks|
    ensures r.createdCount <= |tasks|
  {
    CountMonotone(tasks, AssignedTo(userId), CompletedFor(userId));
    TaskCounts(Count(tasks, CreatedBy(userId)), Count(tasks, AssignedTo(userId)), Count(tasks, CompletedFor(userId)))
  }

  /** One more task document adds one to each count whose condition it meets. */
  lemma CountsSnoc(tasks: seq<TaskDoc>, t: TaskDoc, userId: UserId)
    ensures Counts(tasks + [t], userId).createdCount
         == Counts(tasks, userId).createdCount + (if t.createdByUid == Some(userId) then 1 else 0)
    ensures Counts(tasks + [t], userId).assignedCount
         == Counts(tasks, userId).assignedCount + (if t.assignedUsers.Some? && userId in t.assignedUsers.value then 1 else 0)
    ensures Counts(tasks + [t], userId).completedCount
         == Counts(tasks, userId).completedCount
            + (if t.assignedUsers.Some? && userId in t.assignedUsers.value && t.status == Some(CompletedStatus) then 1 else 0)
  {
    FilterConcat(tasks, [t], CreatedBy(userId));
    FilterConcat(tasks, [t], AssignedTo(userId));
    FilterConcat(tasks, [t], CompletedFor(userId));
    FilterSingleton(t, CreatedBy(userId));
    FilterSingleton(t, AssignedTo(userId));
    FilterSingleton(t, CompletedFor(userId));
  }

  /** The counts depend only on which documents there are, not on the order
      the collection returns them in. */
  lemma CountsPermutation(a: seq<TaskDoc>, b: seq<TaskDoc>, userId: UserId)
    requires multiset(a) == multiset(b)
    ensures Counts(a, userId) == Counts(b, userId)
  {
    CountPermutation(a, b, CreatedBy(userId));
    CountPermutation(a, b, AssignedTo(userId));
    CountPermutation(a, b, CompletedFor(userId));
  }

  /** `getUserTaskStats(userId)`: every document of the snapshot is collected
      once, in order, and the three counts are taken over the collected list. */
  method GetUserTaskStats(snapshot: seq<TaskDoc>, userId: UserId) returns (r: TaskCounts)
    ensures r == Counts(snapshot, userId)
  {
    var tasks: seq<TaskDoc> := [];
    var i := 0;
    while i < |snapshot|
      invariant 0 <= i <= |snapshot|
      invariant tasks == snapshot[..i]
    {
      assert snapshot[..i + 1] == snapshot[..i] + [snapshot[i]];
      tasks := tasks + [snapshot[i]];
      i := i + 1;
    }
    assert snapshot[..i] == snapshot;
    r := TaskCounts(Count(tasks, CreatedBy(userId)), Count(tasks, AssignedTo(userId)), Count(tasks, CompletedFor(userId)));
  }

  /** One entry of the list `getAllUsers` returns. */
  datatype UserEntry = UserEntry(uid: UserId, email: string, name: string)

  /** `{uid: doc.id, email, name: name || email}`. */
  function Entry(id: UserId, doc: UserProfile): (e: UserEntry)
    ensures e.uid == id && e.email == doc.email
    ensures doc.name != "" ==> e.name == doc.name
    ensures doc.name == "" ==> e.name == doc.email
  {
    UserEntry(id, doc.email, Or(Some(doc.name), doc.email))
  }

  /** `getAllUsers()`: one entry per user document, in the order of the snapshot. */
  method GetAllUsers(snapshot: seq<(UserId, UserProfile)>) returns (r: seq<UserEntry>)
    ensures |r| == |snapshot|
    ensures forall i :: 0 <= i < |snapshot| ==> r[i] == Entry(snapshot[i].0, snapshot[i].1)
    ensures forall i :: 0 <= i < |r| ==> r[i].name == "" ==> snapshot[i].1.name == "" && snapshot[i].1.email == ""
  {
    r := [];
    var i := 0;
    while i < |snapshot|
      invariant 0 <= i <= |snapshot|
      invariant |r| == i
      invariant forall k :: 0 <= k < i ==> r[k] == Entry(snapshot[k].0, snapshot[k].1)
    {
      var (id, doc) := snapshot[i];
      r := r + [UserEntry(id, doc.email, Or(Some(doc.name), doc.email))];
      i := i + 1;
    }
  }

  /** The signed-in user as the authentication library reports it. */
  datatype AuthUser = AuthUser(uid: UserId, email: string, displayName: Option<string>)

  /** The optional `additionalData` argument (`{}` by default). */
  datatype AdditionalData = AdditionalData(name: Option<string>, role: Option<string>)

  const DefaultRole := "user"

  /** `createUserProfile(user, additionalData)`. A new uid gets a fresh document
      with no `stats`; an existing one only has `lastLogin` and `updatedAt`
      refreshed. Returns the profile and the new collection. */
  function CreateUserProfile(users: map<UserId, UserProfile>, user: AuthUser, extra: AdditionalData, now: string)
    : (r: (UserProfile, map<UserId, UserProfile>))
    ensures r.1 == users[user.uid := r.0]
    ensures user.uid !in users ==>
              && r.0.uid == user.uid && r.0.email == user.email
              && r.0.name == (if Truthy(extra.name) then extra.name.value
                              else if Truthy(user.displayName) then user.displayName.value else "")
              && r.0.role == (if Truthy(extra.role) then extra.role.value else DefaultRole)
              && r.0.createdAt == now && r.0.lastLogin == now && r.0.updatedAt == now
              && r.0.stats == None
    ensures user.uid in users ==>
              var stored := users[user.uid];
              && r.0.lastLogin == now && r.0.updatedAt == now
              && r.0.uid == stored.uid && r.0.email == stored.email && r.0.name == stored.name && r.0.role == stored.role
              && r.0.createdAt == stored.createdAt && r.0.stats == stored.stats
  {
    if user.uid !in users then
      var profile := UserProfile(
        uid := user.uid,
        email := user.email,
        name := Or(extra.name, Or(user.displayName, "")),
        role := Or(extra.role, DefaultRole),
        createdAt := now,
        lastLogin := now,
        updatedAt := now,
        stats := None);
      (profile, users[user.uid := profile])
    else
      var profile := users[user.uid].(lastLogin := now, updatedAt := now);
      (profile, users[user.uid := profile])
  }

  /** A second sign-in keeps everything the first one stored except the two
      timestamps, whatever additional data it passes. */
  lemma SecondSignIn(users: map<UserId, UserProfile>, user: AuthUser, extra: AdditionalData, extra2: AdditionalData,
                     now: string, later: string)
    ensures var first := CreateUserProfile(users, user, extra, now);
            var second := CreateUserProfile(first.1, user, extra2, later);
            && second.0 == first.0.(lastLogin := later, updatedAt := later)
            && second.1.Keys == first.1.Keys
  {
  }

  /** A freshly created profile has no `stats`, so the server's ledger starts
      it from all zeros, and a new profile always gets a non-empty role. */
  lemma FreshProfileStartsFromZero(users: map<UserId, UserProfile>, user: AuthUser, extra: AdditionalData, now: string)
    requires user.uid !in users
    ensures Ledger.StatsOf(CreateUserProfile(users, user, extra, now).1, user.uid) == ZeroStats
    ensures CreateUserProfile(users, user, extra, now).0.role != ""
  {
  }

  /** The fields an `updateUserProfile` call may carry; `None` is a field the
      caller left out. */
  datatype ProfilePatch = ProfilePatch(name: Option<string>, email: Option<string>, role: Option<string>)

  /** What `updateUserProfile` returns: the patch with `updatedAt` added. */
  datatype ProfileUpdate = ProfileUpdate(patch: ProfilePatch, updatedAt: string)

  /** The store's error when the document to update does not exist. */
  const NoDocumentError := "not-found"

  /** The stored document after merging `patch` and the new `updatedAt`. */
  function Merge(doc: UserProfile, patch: ProfilePatch, now: string): (d: UserProfile)
    ensures d.name == patch.name.GetOr(doc.name)
    ensures d.email == patch.email.GetOr(doc.email)
    ensures d.role == patch.role.GetOr(doc.role)
    ensures d.updatedAt == now
    ensures d.uid == doc.uid && d.createdAt == doc.createdAt && d.lastLogin == doc.lastLogin && d.stats == doc.stats
  {
    doc.(name := patch.name.GetOr(doc.name), email := patch.email.GetOr(doc.email),
         role := patch.role.GetOr(doc.role), updatedAt := now)
  }

  /** `updateUserProfile(uid, data)`: fails with the store's error when no
      document exists; otherwise merges the fields into that one document. */
  function UpdateUserProfile(users: map<UserId, UserProfile>, uid: UserId, patch: ProfilePatch, now: string)
    : (r: Result<(ProfileUpdate, map<UserId, UserProfile>), string>)
    ensures r.Failure? <==> uid !in users
    ensures r.Failure? ==> r.error == NoDocumentError
    ensures r.Success? ==>
              && r.value.0 == ProfileUpdate(patch, now)
              && r.value.1.Keys == users.Keys
              && r.value.1[uid] == Merge(users[uid], patch, now)
              && forall y :: y in users && y != uid ==> r.value.1[y] == users[y]
  {
    if uid !in users then Failure(NoDocumentError)
    else Success((ProfileUpdate(patch, now), users[uid := Merge(users[uid], patch, now)]))
  }

  /** Applying the same update twice stores the same document as applying it once. */
  lemma UpdateIdempotent(users: map<UserId, UserProfile>, uid: UserId, patch: ProfilePatch, now: string)
    requires uid in users
    ensures var once := UpdateUserProfile(users, uid, patch, now).value.1;
            UpdateUserProfile(once, uid, patch, now).value.1 == once
  {
  }
}
