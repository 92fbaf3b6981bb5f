/** The task list page of client/src/pages/TaskManager.js: search, status
    filter and sort over the fetched tasks, the checks before adding a task,
    and the list updates after a status change or a delete. Due dates are the
    millisecond values `new Date(dueDate)` yields. */
module TaskManager {
  import opened Wrappers
  import opened Text
  import opened Seqs

  /** A task as the page holds it. */
  datatype ClientTask = ClientTask(id: string, title: string, description: string, status: string, dueDate: int)

  /** The value of the status dropdown that shows every task. */
  const AllStatuses := "All"

  /** The search test: the lower-cased term occurs in the lower-cased title,
      description or status. The term is lower-cased but not trimmed. */
  predicate MatchesSearch(t: ClientTask, searchTerm: string) {
    var needle := Lower(searchTerm);
    Contains(Lower(t.title), needle) || Contains(Lower(t.description), needle) || Contains(Lower(t.status), needle)
  }

  /** A task passes the search when the term trims to empty or it matches. */
  function SearchKeeps(searchTerm: string): ClientTask -> bool {
    (t: ClientTask) => IsBlank(searchTerm) || MatchesSearch(t, searchTerm)
  }

  /** A task passes the status filter when the filter is 'All' or names its status. */
  function StatusKeeps(statusFilter: string): ClientTask -> bool {
    (t: ClientTask) => statusFilter == AllStatuses || t.status == statusFilter
  }

  /** The tasks that pass both filters, in list order. */
  function Visible(tasks: seq<ClientTask>, searchTerm: string, statusFilter: string): seq<ClientTask> {
    Filter(Filter(tasks, SearchKeeps(searchTerm)), StatusKeeps(statusFilter))
  }

  /** The text before the first '-' (all of it when there is none). */
  function BeforeDash(s: string): (r: string)
    ensures r <= s
    ensures '-' !in r
    ensures |r| < |s| ==> s[|r|] == '-'
  {
    if s == [] || s[0] == '-' then [] else [s[0]] + BeforeDash(s[1..])
  }

  /** The text after the first '-', or `None` when there is none. */
  function AfterDash(s: string): (r: Option<string>)
    ensures r.None? <==> '-' !in s
    ensures r.Some? ==> s == BeforeDash(s) + "-" + r.value
  {
    if s == [] then None
    else if s[0] == '-' then Some(s[1..])
    else match AfterDash(s[1..])
      case None => None
      case Some(rest) => Some(rest)
  }

  /** `const [field, direction] = sortBy.split('-')`: the first two pieces;
      `direction` is `undefined` when there is no '-'. */
  function ParseSortBy(sortBy: string): (r: (string, Option<string>))
    ensures r.0 <= sortBy && '-' !in r.0
    ensures r.1.None? <==> '-' !in sortBy
    ensures r.1.None? ==> r.0 == sortBy
    ensures r.1.Some? ==> '-' !in r.1.value && r.0 + "-" + r.1.value <= sortBy
    ensures r.1.Some? ==> var n := |r.0| + 1 + |r.1.value|; n == |sortBy| || sortBy[n] == '-'
  {
    (BeforeDash(sortBy), match AfterDash(sortBy) case None => None case Some(rest) => Some(BeforeDash(rest)))
  }

  /** Splitting a joined `field-direction` value gives back its two parts. */
  lemma {:induction false} ParseSortByJoin(field: string, direction: string)
    requires '-' !in field && '-' !in direction
    ensures ParseSortBy(field + "-" + direction) == (field, Some(direction))
  {
    assert field + "-" + direction == field + ("-" + direction);
    BeforeDashJoin(field, "-" + direction);
    AfterDashJoin(field, direction);
    assert direction + "" == direction;
    BeforeDashJoin(direction, "");
  }

  lemma {:induction false} BeforeDashJoin(a: string, rest: string)
    requires '-' !in a && (rest == [] || rest[0] == '-')
    ensures BeforeDash(a + rest) == a
    decreases |a|
  {
    if a != [] {
      assert (a + rest)[1..] == a[1..] + rest;
      BeforeDashJoin(a[1..], rest);
    }
  }

  lemma {:induction false} AfterDashJoin(a: string, b: string)
    requires '-' !in a
    ensures AfterDash(a + "-" + b) == Some(b)
    decreases |a|
  {
    if a == [] {
      assert a + "-" + b == "-" + b;
    } else {
      assert (a + "-" + b)[1..] == a[1..] + "-" + b;
      AfterDashJoin(a[1..], b);
    }
  }

  /** `statusOrder`: Pending 1, In Progress 2, Completed 3; any other status
      has no rank, which the model counts as 0. */
  function StatusRank(status: string): (r: int)
    ensures 0 <= r <= 3
    ensures status == "Pending" ==> r == 1
    ensures status == "In Progress" ==> r == 2
    ensures status == "Completed" ==> r == 3
    ensures r == 0 <==> status != "Pending" && status != "In Progress" && status != "Completed"
  {
    if status == "Pending" then 1
    else if status == "In Progress" then 2
    else if status == "Completed" then 3
    else 0
  }

  /** The key whose difference the comparator returns: due date or status rank,
      negated unless the direction is 'asc'; every other field compares all
      pairs as equal. */
  function SortKey(sortBy: string): (key: ClientTask -> int)
    ensures ParseSortBy(sortBy) == ("dueDate", Some("asc")) ==> forall t :: key(t) == t.dueDate
    ensures ParseSortBy(sortBy).0 == "dueDate" && ParseSortBy(sortBy).1 != Some("asc") ==> forall t :: key(t) == -t.dueDate
    ensures ParseSortBy(sortBy) == ("status", Some("asc")) ==> forall t :: key(t) == StatusRank(t.status)
    ensures ParseSortBy(sortBy).0 == "status" && ParseSortBy(sortBy).1 != Some("asc") ==> forall t :: key(t) == -StatusRank(t.status)
    ensures ParseSortBy(sortBy).0 != "dueDate" && ParseSortBy(sortBy).0 != "status" ==> forall t :: key(t) == 0
  {
    var (field, direction) := ParseSortBy(sortBy);
    if field == "dueDate" then
      (if direction == Some("asc") then (t: ClientTask) => t.dueDate else (t: ClientTask) => -t.dueDate)
    else if field == "status" then
      (if direction == Some("asc") then (t: ClientTask) => StatusRank(t.status) else (t: ClientTask) => -StatusRank(t.status))
    else (t: ClientTask) => 0
  }

  /** Every visible task comes from `tasks` and passes both filters, and
      every task of `tasks` that passes both is visible. */
  lemma VisibleMembers(tasks: seq<ClientTask>, searchTerm: string, statusFilter: string)
    ensures var v := Visible(tasks, searchTerm, statusFilter);
            forall i :: 0 <= i < |v| ==> v[i] in tasks && SearchKeeps(searchTerm)(v[i]) && StatusKeeps(statusFilter)(v[i])
    ensures var v := Visible(tasks, searchTerm, statusFilter);
            forall i :: 0 <= i < |tasks| && SearchKeeps(searchTerm)(tasks[i]) && StatusKeeps(statusFilter)(tasks[i]) ==> tasks[i] in v
  {
    var mid := Filter(tasks, SearchKeeps(searchTerm));
    var v := Visible(tasks, searchTerm, statusFilter);
    forall i | 0 <= i < |v|
      ensures v[i] in tasks && SearchKeeps(searchTerm)(v[i])
    {
      assert v[i] in mid;
      var j :| 0 <= j < |mid| && mid[j] == v[i];
    }
    forall i | 0 <= i < |tasks| && SearchKeeps(searchTerm)(tasks[i]) && StatusKeeps(statusFilter)(tasks[i])
      ensures tasks[i] in v
    {
      assert tasks[i] in mid;
      var j :| 0 <= j < |mid| && mid[j] == tasks[i];
    }
  }

  /** Sorting keeps exactly the elements it was given. */
  lemma SortedMembers(s: seq<ClientTask>, key: ClientTask -> int)
    ensures forall i :: 0 <= i < |SortByKey(s, key)| ==> SortByKey(s, key)[i] in s
    ensures forall i :: 0 <= i < |s| ==> s[i] in SortByKey(s, key)
  {
    var r := SortByKey(s, key);
    SortByKeyCorrect(s, key);
    forall i | 0 <= i < |r| ensures r[i] in s {
      assert r[i] in multiset(r);
    }
    forall i | 0 <= i < |s| ensures s[i] in r {
      assert s[i] in multiset(s);
    }
  }

  /** `filterAndSortTasks()`: a copy of `tasks` narrowed by the search and the
      status filter, then sorted stably by the chosen key. */
  method FilterAndSortTasks(tasks: seq<ClientTask>, searchTerm: string, statusFilter: string, sortBy: string)
    returns (filtered: seq<ClientTask>)
    ensures multiset(filtered) == multiset(Visible(tasks, searchTerm, statusFilter))
    ensures forall i :: 0 <= i < |filtered| ==>
              filtered[i] in tasks && SearchKeeps(searchTerm)(filtered[i]) && StatusKeeps(statusFilter)(filtered[i])
    ensures forall i :: 0 <= i < |tasks| && SearchKeeps(searchTerm)(tasks[i]) && StatusKeeps(statusFilter)(tasks[i]) ==>
              tasks[i] in filtered
    ensures SortedBy(filtered, SortKey(sortBy))
    ensures forall k :: Filter(filtered, KeyIs(SortKey(sortBy), k)) == Filter(Visible(tasks, searchTerm, statusFilter), KeyIs(SortKey(sortBy), k))
    ensures ParseSortBy(sortBy).0 != "dueDate" && ParseSortBy(sortBy).0 != "status" ==>
              filtered == Visible(tasks, searchTerm, statusFilter)
  {
    filtered := tasks;
    if !IsBlank(searchTerm) {
      filtered := Filter(filtered, SearchKeeps(searchTerm));
    } else {
      FilterKeepsAll(tasks, SearchKeeps(searchTerm));
    }
    if statusFilter != AllStatuses {
      filtered := Filter(filtered, StatusKeeps(statusFilter));
    } else {
      FilterKeepsAll(filtered, StatusKeeps(statusFilter));
    }
    ghost var visible := filtered;
    assert visible == Visible(tasks, searchTerm, statusFilter);
    var key := SortKey(sortBy);
    filtered := SortByKey(filtered, key);
    SortByKeyCorrect(visible, key);
    SortedMembers(visible, key);
    VisibleMembers(tasks, searchTerm, statusFilter);
    if ParseSortBy(sortBy).0 != "dueDate" && ParseSortBy(sortBy).0 != "status" {
      ConstantKeyKeepsOrder(visible, key, 0);
    }
  }

  /** 'dueDate-asc' gives non-decreasing due dates, any other 'dueDate-…'
      value non-increasing ones. */
  lemma DueDateOrder(s: seq<ClientTask>, sortBy: string)
    requires ParseSortBy(sortBy).0 == "dueDate" && SortedBy(s, SortKey(sortBy))
    ensures ParseSortBy(sortBy).1 == Some("asc") ==> forall i, j :: 0 <= i < j < |s| ==> s[i].dueDate <= s[j].dueDate
    ensures ParseSortBy(sortBy).1 != Some("asc") ==> forall i, j :: 0 <= i < j < |s| ==> s[i].dueDate >= s[j].dueDate
  {
    var key := SortKey(sortBy);
    forall i, j | 0 <= i < j < |s|
      ensures if ParseSortBy(sortBy).1 == Some("asc") then s[i].dueDate <= s[j].dueDate else s[i].dueDate >= s[j].dueDate
    {
      assert key(s[i]) <= key(s[j]);
    }
  }

  /** 'status-asc' orders Pending before In Progress before Completed; any
      other 'status-…' value reverses that order. */
  lemma StatusOrder(s: seq<ClientTask>, sortBy: string)
    requires ParseSortBy(sortBy).0 == "status" && SortedBy(s, SortKey(sortBy))
    ensures ParseSortBy(sortBy).1 == Some("asc") ==>
              forall i, j :: 0 <= i < j < |s| ==> StatusRank(s[i].status) <= StatusRank(s[j].status)
    ensures ParseSortBy(sortBy).1 != Some("asc") ==>
              forall i, j :: 0 <= i < j < |s| ==> StatusRank(s[i].status) >= StatusRank(s[j].status)
  {
    var key := SortKey(sortBy);
    forall i, j | 0 <= i < j < |s|
      ensures if ParseSortBy(sortBy).1 == Some("asc") then StatusRank(s[i].status) <= StatusRank(s[j].status)
              else StatusRank(s[i].status) >= StatusRank(s[j].status)
    {
      assert key(s[i]) <= key(s[j]);
    }
  }

  /** A blank search with the 'All' filter shows every task. */
  lemma NoFilterShowsAll(tasks: seq<ClientTask>, searchTerm: string)
    requires IsBlank(searchTerm)
    ensures Visible(tasks, searchTerm, AllStatuses) == tasks
  {
    FilterKeepsAll(tasks, SearchKeeps(searchTerm));
    FilterKeepsAll(tasks, StatusKeeps(AllStatuses));
  }

  /** The search ignores case: an upper-case term finds a mixed-case title. */
  lemma SearchIgnoresCase()
    ensures MatchesSearch(ClientTask("t1", "Buy Milk", "", "Pending", 0), "MILK")
  {
    var hay := Lower("Buy Milk");
    var needle := Lower("MILK");
    assert needle == "milk";
    assert hay == "buy milk";
    assert OccursAt(hay, needle, 4);
  }

  /** The term is not trimmed: a leading space stops " milk" matching a task
      whose text has no space. */
  lemma SearchTermNotTrimmed()
    ensures !IsBlank(" milk")
    ensures !MatchesSearch(ClientTask("t1", "Milk", "", "Pending", 0), " milk")
  {
    assert !IsJsWhitespace(" milk"[1]);
    var needle := Lower(" milk");
    assert needle[0] == ' ';
    var title := Lower("Milk");
    assert |title| < |needle|;
    var status := Lower("Pending");
    assert status == "pending";
    forall i | 0 <= i <= |status| - |needle|
      ensures !OccursAt(status, needle, i)
    {
      assert status[i] != ' ';
      assert status[i..i + |needle|][0] == status[i];
    }
  }

  /** The new-task form. */
  datatype NewTaskForm = NewTaskForm(title: string, description: string, status: string, dueDate: string)

  const TitleRequiredMessage := "Title is required"
  const DueDateRequiredMessage := "Due date is required"
  const InvalidDateFormatMessage := "Invalid date format"

  /** The checks of `handleAddTask` before the create request: a title that
      trims to empty, then an empty due date, then a due date `parse` rejects.
      On success, the parsed due date. */
  function ValidateNewTask(form: NewTaskForm, parse: string -> Option<int>): (r: Result<int, string>)
    ensures r.Success? <==> !IsBlank(form.title) && form.dueDate != "" && parse(form.dueDate).Some?
    ensures IsBlank(form.title) ==> r == Failure(TitleRequiredMessage)
    ensures !IsBlank(form.title) && form.dueDate == "" ==> r == Failure(DueDateRequiredMessage)
    ensures !IsBlank(form.title) && form.dueDate != "" && parse(form.dueDate).None? ==> r == Failure(InvalidDateFormatMessage)
    ensures r.Success? ==> r.value == parse(form.dueDate).value
  {
    if IsBlank(form.title) then Failure(TitleRequiredMessage)
    else if form.dueDate == "" then Failure(DueDateRequiredMessage)
    else match parse(form.dueDate)
      case None => Failure(InvalidDateFormatMessage)
      case Some(d) => Success(d)
  }

  /** `tasks.map(task => task.id === taskId ? updatedTask : task)`. */
  function ReplaceById(tasks: seq<ClientTask>, id: string, updated: ClientTask): (r: seq<ClientTask>)
    ensures |r| == |tasks|
    ensures forall i :: 0 <= i < |tasks| && tasks[i].id != id ==> r[i] == tasks[i]
    ensures forall i :: 0 <= i < |tasks| && tasks[i].id == id ==> r[i] == updated
  {
    seq(|tasks|, i requires 0 <= i < |tasks| => if tasks[i].id == id then updated else tasks[i])
  }

  function IdIsNot(id: string): ClientTask -> bool {
    (t: ClientTask) => t.id != id
  }

  /** `tasks.filter(task => task.id !== taskId)`. */
  function RemoveById(tasks: seq<ClientTask>, id: string): (r: seq<ClientTask>)
    ensures forall i :: 0 <= i < |r| ==> r[i].id != id && r[i] in tasks
    ensures forall i :: 0 <= i < |tasks| && tasks[i].id != id ==> tasks[i] in r
  {
    Filter(tasks, IdIsNot(id))
  }

  /** Deleting after a status update gives the same list as deleting directly,
      when the server returns the task under the same id: the update changed
      only the entries carrying that id. */
  lemma {:induction false} RemoveAfterReplace(tasks: seq<ClientTask>, id: string, updated: ClientTask)
    requires updated.id == id
    ensures RemoveById(ReplaceById(tasks, id, updated), id) == RemoveById(tasks, id)
    decreases |tasks|
  {
    if tasks != [] {
      var init := tasks[..|tasks| - 1];
      var last := tasks[|tasks| - 1];
      assert tasks == init + [last];
      var r := ReplaceById(tasks, id, updated);
      assert r == ReplaceById(init, id, updated) + [r[|tasks| - 1]];
      FilterConcat(init, [last], IdIsNot(id));
      FilterConcat(ReplaceById(init, id, updated), [r[|tasks| - 1]], IdIsNot(id));
      FilterSingleton(last, IdIsNot(id));
      FilterSingleton(r[|tasks| - 1], IdIsNot(id));
      RemoveAfterReplace(init, id, updated);
    }
  }

  /** Deleting twice removes nothing more. */
  lemma RemoveIdempotent(tasks: seq<ClientTask>, id: string)
    ensures RemoveById(RemoveById(tasks, id), id) == RemoveById(tasks, id)
  {
    var r := RemoveById(tasks, id);
    FilterKeepsAll(r, IdIsNot(id));
  }

  /** Deleting an id no task carries leaves the list as it was. */
  lemma RemoveAbsent(tasks: seq<ClientTask>, id: string)
    requires forall i :: 0 <= i < |tasks| ==> tasks[i].id != id
    ensures RemoveById(tasks, id) == tasks
  {
    FilterKeepsAll(tasks, IdIsNot(id));
  }
}
