/** The per-user statistics counters kept in each user document, and the
    effect of one `updateUserStats(userId, statType)` call on the `users`
    collection (server/server.js). */
module Ledger {
  import opened Wrappers
  import opened Entities

  /** The `statType` argument: 'created', 'assigned', 'completed', 'uncompleted'. */
  datatype StatType = Created | Assigned | Completed | Uncompleted

  /** One `updateUserStats` call, as issued by a handler. */
  datatype StatCall = StatCall(userId: UserId, statType: StatType)

  /** The stats a user document holds, the all-zero defaults when it has none,
      and zeros for a user without a document. */
  function StatsOf(users: map<UserId, UserProfile>, x: UserId): Stats {
    if x in users then users[x].stats.GetOr(ZeroStats) else ZeroStats
  }

  /** The switch in `updateUserStats`: every kind changes its own counter only;
      'uncompleted' is a decrement guarded by `tasksCompleted > 0`. */
  function Bump(s: Stats, t: StatType, now: string): (r: Stats)
    ensures r.tasksCreated == s.tasksCreated + (if t == Created then 1 else 0)
    ensures r.tasksAssigned == s.tasksAssigned + (if t == Assigned then 1 else 0)
    ensures r.tasksCompleted == (if t == Completed then s.tasksCompleted + 1
                                 else if t == Uncompleted && s.tasksCompleted > 0 then s.tasksCompleted - 1
                                 else s.tasksCompleted)
    ensures r.lastTaskCompletedAt == if t == Completed then Some(now) else s.lastTaskCompletedAt
  {
    match t
    case Created => s.(tasksCreated := s.tasksCreated + 1)
    case Assigned => s.(tasksAssigned := s.tasksAssigned + 1)
    case Completed => s.(tasksCompleted := s.tasksCompleted + 1, lastTaskCompletedAt := Some(now))
    case Uncompleted => if s.tasksCompleted > 0 then s.(tasksCompleted := s.tasksCompleted - 1) else s
  }

  /** The `users` collection after one call: a user without a document is left
      untouched; otherwise only that user's `stats` (starting from zeros when
      absent) and `updatedAt` change. */
  function ApplyStat(users: map<UserId, UserProfile>, c: StatCall, now: string): (r: map<UserId, UserProfile>)
    ensures r.Keys == users.Keys
    ensures forall y :: y in users && y != c.userId ==> r[y] == users[y]
    ensures c.userId in users ==>
      var before, after := users[c.userId], r[c.userId];
      && after.stats == Some(Bump(StatsOf(users, c.userId), c.statType, now))
      && after.updatedAt == now
      && after == before.(stats := after.stats, updatedAt := now)
  {
    if c.userId !in users then users
    else
      var doc := users[c.userId];
      users[c.userId := doc.(stats := Some(Bump(doc.stats.GetOr(ZeroStats), c.statType, now)), updatedAt := now)]
  }

  /** The `users` collection after a sequence of calls made one after another. */
  function ApplyCalls(users: map<UserId, UserProfile>, cs: seq<StatCall>, now: string): map<UserId, UserProfile>
    decreases |cs|
  {
    if cs == [] then users
    else ApplyStat(ApplyCalls(users, cs[..|cs| - 1], now), cs[|cs| - 1], now)
  }

  lemma ApplyCallsSnoc(users: map<UserId, UserProfile>, cs: seq<StatCall>, c: StatCall, now: string)
    ensures ApplyCalls(users, cs + [c], now) == ApplyStat(ApplyCalls(users, cs, now), c, now)
  {
    assert (cs + [c])[..|cs|] == cs;
  }

  /** Running two batches of calls one after the other is running their concatenation. */
  lemma {:induction false} ApplyCallsConcat(users: map<UserId, UserProfile>, a: seq<StatCall>, b: seq<StatCall>, now: string)
    ensures ApplyCalls(users, a + b, now) == ApplyCalls(ApplyCalls(users, a, now), b, now)
    decreases |b|
  {
    if b == [] {
      assert a + b == a;
    } else {
      var init := b[..|b| - 1];
      assert a + b == (a + init) + [b[|b| - 1]];
      assert b == init + [b[|b| - 1]];
      ApplyCallsSnoc(users, a + init, b[|b| - 1], now);
      ApplyCallsSnoc(ApplyCalls(users, a, now), init, b[|b| - 1], now);
      ApplyCallsConcat(users, a, init, now);
    }
  }

  /** Every stored counter is non-negative. */
  ghost predicate NonNegative(users: map<UserId, UserProfile>) {
    forall x :: x in users && users[x].stats.Some? ==>
      var s := users[x].stats.value;
      s.tasksCreated >= 0 && s.tasksAssigned >= 0 && s.tasksCompleted >= 0
  }

  /** No sequence of calls drives a counter below zero. */
  lemma {:induction false} ApplyCallsNonNegative(users: map<UserId, UserProfile>, cs: seq<StatCall>, now: string)
    requires NonNegative(users)
    ensures NonNegative(ApplyCalls(users, cs, now))
    decreases |cs|
  {
    if cs != [] {
      ApplyCallsNonNegative(users, cs[..|cs| - 1], now);
    }
  }

  /** Over any sequence of calls, a user's `tasksCreated` and `tasksAssigned`
      grow by exactly the number of calls of that kind naming the user, and,
      when no 'uncompleted' call is among them, so does `tasksCompleted`. */
  lemma {:induction false} ApplyCallsCounters(users: map<UserId, UserProfile>, cs: seq<StatCall>, now: string, x: UserId)
    requires x in users
    ensures x in ApplyCalls(users, cs, now)
    ensures StatsOf(ApplyCalls(users, cs, now), x).tasksCreated
         == StatsOf(users, x).tasksCreated + multiset(cs)[StatCall(x, Created)]
    ensures StatsOf(ApplyCalls(users, cs, now), x).tasksAssigned
         == StatsOf(users, x).tasksAssigned + multiset(cs)[StatCall(x, Assigned)]
    ensures StatCall(x, Uncompleted) !in cs ==>
              StatsOf(ApplyCalls(users, cs, now), x).tasksCompleted
              == StatsOf(users, x).tasksCompleted + multiset(cs)[StatCall(x, Completed)]
    decreases |cs|
  {
    if cs != [] {
      var init := cs[..|cs| - 1];
      assert cs == init + [cs[|cs| - 1]];
      ApplyCallsCounters(users, init, now, x);
    }
  }

  /** A user no call names keeps their document exactly as it was. */
  lemma {:induction false} ApplyCallsUntouched(users: map<UserId, UserProfile>, cs: seq<StatCall>, now: string, x: UserId)
    requires forall i :: 0 <= i < |cs| ==> cs[i].userId != x
    ensures x in ApplyCalls(users, cs, now) <==> x in users
    ensures x in users ==> ApplyCalls(users, cs, now)[x] == users[x]
    decreases |cs|
  {
    if cs != [] {
      ApplyCallsUntouched(users, cs[..|cs| - 1], now, x);
    }
  }

  /** A run of 'uncompleted' calls lowers `tasksCompleted` by one per call
      naming the user, as long as the counter is large enough for the guard
      never to stop a decrement. */
  lemma {:induction false} UncompleteCounter(users: map<UserId, UserProfile>, cs: seq<StatCall>, now: string, x: UserId)
    requires x in users
    requires forall i :: 0 <= i < |cs| ==> cs[i].statType == Uncompleted
    requires StatsOf(users, x).tasksCompleted >= multiset(cs)[StatCall(x, Uncompleted)]
    ensures StatsOf(ApplyCalls(users, cs, now), x).tasksCompleted
         == StatsOf(users, x).tasksCompleted - multiset(cs)[StatCall(x, Uncompleted)]
    decreases |cs|
  {
    if cs != [] {
      var init := cs[..|cs| - 1];
      assert cs == init + [cs[|cs| - 1]];
      UncompleteCounter(users, init, now, x);
      ApplyCallsKeys(users, init, now);
    }
  }

  /** Statistics calls never add or remove a user document. */
  lemma {:induction false} ApplyCallsKeys(users: map<UserId, UserProfile>, cs: seq<StatCall>, now: string)
    ensures ApplyCalls(users, cs, now).Keys == users.Keys
    decreases |cs|
  {
    if cs != [] {
      ApplyCallsKeys(users, cs[..|cs| - 1], now);
    }
  }

  /** One call of kind `k` per entry of `xs`, in list order (duplicates included). */
  function CallsFor(xs: seq<UserId>, k: StatType): (r: seq<StatCall>)
    ensures |r| == |xs|
    ensures forall i :: 0 <= i < |xs| ==> r[i] == StatCall(xs[i], k)
    decreases |xs|
  {
    if xs == [] then [] else CallsFor(xs[..|xs| - 1], k) + [StatCall(xs[|xs| - 1], k)]
  }

  lemma CallsForSnoc(xs: seq<UserId>, i: nat, k: StatType)
    requires i < |xs|
    ensures CallsFor(xs[..i + 1], k) == CallsFor(xs[..i], k) + [StatCall(xs[i], k)]
  {
    assert xs[..i + 1][..i] == xs[..i];
  }

  /** `CallsFor` names each user once per occurrence in the list, with kind `k` only. */
  lemma {:induction false} CallsForCount(xs: seq<UserId>, k: StatType, x: UserId, k': StatType)
    ensures multiset(CallsFor(xs, k))[StatCall(x, k')] == if k == k' then multiset(xs)[x] else 0
    decreases |xs|
  {
    if xs != [] {
      var init := xs[..|xs| - 1];
      assert xs == init + [xs[|xs| - 1]];
      CallsForCount(init, k, x, k');
    }
  }
}
