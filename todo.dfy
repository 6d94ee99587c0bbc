/** The task store of the command-line to-do application: an ordered list of
    task records and the counter that supplies the next task id, together with
    the data logic of adding, completing, editing, deleting, clearing and
    counting tasks. Terminal prompts become parameters of the operations, and
    the branch each operation takes becomes its `Outcome`. */
module TodoApp {
  import opened Util
  import opened PyStr

  const HIGH := "high"
  const MEDIUM := "medium"
  const LOW := "low"

  /** One task record. The priority is the string the record holds; only
      "high", "medium" and "low" are valid, and a loaded file may hold others. */
  datatype Task = Task(
    id: int,
    description: string,
    completed: bool,
    priority: string,
    createdAt: string,
    completedAt: Option<string>)

  /** What is left of the saved file after loading: the `tasks` and `next_id`
      entries, each possibly missing. */
  datatype SavedData = SavedData(tasks: Option<seq<Task>>, nextId: Option<int>)

  /** Which branch an operation took. Most branches print a message;
      `NotConfirmed` is silent. `DisplayError` is the `KeyError` that listing a record with an unknown
      priority raises before the operation reads its input; the menu loop
      reports it and the operation changes nothing. */
  datatype Outcome =
    | Added(id: int)
    | Done
    | Cleared(count: nat)
    | EmptyDescription
    | NoTasks
    | NotFound
    | AlreadyCompleted
    | NotConfirmed
    | NothingToClear
    | DisplayError

  /** The pending tasks of each priority. */
  datatype PriorityCounts = PriorityCounts(high: nat, medium: nat, low: nat)

  /** The completion rate as the exact percentage `num / den`. */
  datatype Rate = Rate(num: nat, den: nat)

  datatype Stats = Stats(
    total: nat,
    completed: nat,
    pending: nat,
    rate: Rate,
    pendingByPriority: Option<PriorityCounts>)

  predicate ValidPriority(p: string)
  {
    p == HIGH || p == MEDIUM || p == LOW
  }

  /** A record is well formed when its priority is valid and it carries a
      completion time exactly when it is completed. */
  predicate WellFormed(t: Task)
  {
    ValidPriority(t.priority) && (t.completedAt.Some? <==> t.completed)
  }

  /** The store invariant: ids are pairwise distinct, every id is below the
      counter, and every record is well formed. */
  ghost predicate StoreInvariant(tasks: seq<Task>, nextId: int)
  {
    && (forall i, j :: 0 <= i < |tasks| && 0 <= j < |tasks| && i != j ==> tasks[i].id != tasks[j].id)
    && (forall i :: 0 <= i < |tasks| ==> tasks[i].id < nextId)
    && (forall i :: 0 <= i < |tasks| ==> WellFormed(tasks[i]))
  }

  /** Listing `list` looks up the icon of every record it shows (with
      `showCompleted` false, only the pending ones); the lookup succeeds
      exactly when each shown record has a valid priority. */
  predicate Displayable(list: seq<Task>, showCompleted: bool)
  {
    forall i :: 0 <= i < |list| && (showCompleted || !list[i].completed) ==> ValidPriority(list[i].priority)
  }

  function IsCompleted(t: Task): bool { t.completed }

  function IsPending(t: Task): bool { !t.completed }

  /** Keeps the tasks whose id differs from `id`. */
  function HasOtherId(id: int): Task -> bool
  {
    (t: Task) => t.id != id
  }

  /** Selects the pending tasks of priority `p`. */
  function PendingWith(p: string): Task -> bool
  {
    (t: Task) => !t.completed && t.priority == p
  }

  /** The priority picked by the stripped menu answer `c`: "1", "2" and "3"
      pick high, medium and low, and anything else falls back to medium. */
  function PriorityFromChoice(c: string): (p: string)
    ensures ValidPriority(p)
  {
    if c == "1" then HIGH
    else if c == "2" then MEDIUM
    else if c == "3" then LOW
    else MEDIUM
  }

  /** Only "1" picks high, only "3" picks low, and every other answer,
      including the empty one, picks medium. */
  lemma PriorityChoices(c: string)
    ensures PriorityFromChoice(c) == HIGH <==> c == "1"
    ensures PriorityFromChoice(c) == LOW <==> c == "3"
    ensures PriorityFromChoice(c) == MEDIUM <==> c != "1" && c != "3"
  {
  }

  /** The position of the first task with id `id`, or None when no task has
      that id. */
  function FindIndex(tasks: seq<Task>, id: int): (r: Option<nat>)
    ensures r.None? ==> forall i :: 0 <= i < |tasks| ==> tasks[i].id != id
    ensures r.Some? ==> r.value < |tasks| && tasks[r.value].id == id
    ensures r.Some? ==> forall j :: 0 <= j < r.value ==> tasks[j].id != id
  {
    if tasks == [] then None
    else if tasks[0].id == id then Some(0)
    else match FindIndex(tasks[1..], id)
      case None => None
      case Some(k) => Some(k + 1)
  }

  /** The completion rate `completed / total * 100`, defined as 0 for an
      empty store. */
  function CompletionRate(completed: nat, total: nat): (r: Rate)
    ensures r.den > 0
    ensures total == 0 ==> r.num == 0
    ensures total > 0 ==> r.num * total == 100 * completed * r.den
    ensures completed <= total ==> r.num <= 100 * r.den
  {
    if total > 0 then Rate(100 * completed, total) else Rate(0, 1)
  }

  /** Every task is either completed or pending. */
  lemma {:induction false} CompletedPendingSplit(tasks: seq<Task>)
    ensures Count(tasks, IsCompleted) + Count(tasks, IsPending) == |tasks|
  {
    if tasks != [] {
      CompletedPendingSplit(tasks[1..]);
    }
  }

  /** When every pending task has a valid priority, the three priority buckets
      together count exactly the pending tasks. */
  lemma {:induction false} PendingBucketsSum(tasks: seq<Task>)
    requires forall i :: 0 <= i < |tasks| && !tasks[i].completed ==> ValidPriority(tasks[i].priority)
    ensures Count(tasks, PendingWith(HIGH)) + Count(tasks, PendingWith(MEDIUM)) + Count(tasks, PendingWith(LOW))
            == Count(tasks, IsPending)
  {
    if tasks != [] {
      PendingBucketsSum(tasks[1..]);
    }
  }

  /** In a valid store every listing succeeds: of all tasks, of the pending
      ones, and of the completed ones. */
  lemma ValidStoreDisplays(tasks: seq<Task>, nextId: int)
    requires StoreInvariant(tasks, nextId)
    ensures Displayable(tasks, true) && Displayable(tasks, false)
    ensures Displayable(Filter(tasks, IsCompleted), true)
  {
    var done := Filter(tasks, IsCompleted);
    forall i | 0 <= i < |done| ensures ValidPriority(done[i].priority) {
      FilterMembership(tasks, IsCompleted, done[i]);
      var m :| 0 <= m < |tasks| && tasks[m] == done[i];
      assert WellFormed(tasks[m]);
    }
  }

  /** Replacing a task by one with the same id does not move any id. */
  lemma {:induction false} FindIndexSameIds(tasks: seq<Task>, k: nat, t: Task, id: int)
    requires k < |tasks| && t.id == tasks[k].id
    ensures FindIndex(tasks[k := t], id) == FindIndex(tasks, id)
  {
    if k > 0 {
      FindIndexSameIds(tasks[1..], k - 1, t, id);
      assert tasks[k := t][1..] == tasks[1..][k - 1 := t];
    }
  }

  /** Removing tasks keeps the invariant: the survivors' ids stay distinct and
      below the counter. */
  lemma {:induction false} FilterKeepsInvariant(tasks: seq<Task>, nextId: int, keep: Task -> bool)
    requires StoreInvariant(tasks, nextId)
    ensures StoreInvariant(Filter(tasks, keep), nextId)
  {
    if tasks != [] {
      var rest := tasks[1..];
      assert StoreInvariant(rest, nextId) by {
        forall i, j | 0 <= i < |rest| && 0 <= j < |rest| && i != j
          ensures rest[i].id != rest[j].id
        {
          assert rest[i] == tasks[i + 1] && rest[j] == tasks[j + 1];
        }
      }
      FilterKeepsInvariant(rest, nextId, keep);
      var fr := Filter(rest, keep);
      forall x | x in fr ensures x in rest { FilterMembership(rest, keep, x); }
      if keep(tasks[0]) {
        var r := [tasks[0]] + fr;
        assert Filter(tasks, keep) == r;
        forall i, j | 0 <= i < |r| && 0 <= j < |r| && i != j
          ensures r[i].id != r[j].id
        {
          if i != 0 && j != 0 {
            assert r[i] == fr[i - 1] && r[j] == fr[j - 1];
          } else {
            var k := if i == 0 then j else i;
            assert r[k] in rest;
            var m :| 0 <= m < |rest| && rest[m] == r[k];
            assert tasks[m + 1] == r[k];
          }
        }
        forall i | 0 <= i < |r| ensures r[i].id < nextId && WellFormed(r[i]) {
          if i != 0 {
            assert r[i] == fr[i - 1];
          }
        }
      }
    }
  }

  /** Appending a well-formed task that takes the counter as its id, and then
      advancing the counter, keeps the invariant; the new task is found at the
      end. */
  lemma AppendKeepsInvariant(tasks: seq<Task>, nextId: int, t: Task)
    requires StoreInvariant(tasks, nextId)
    requires t.id == nextId && WellFormed(t)
    ensures StoreInvariant(tasks + [t], nextId + 1)
    ensures FindIndex(tasks + [t], nextId) == Some(|tasks|)
  {
    var s := tasks + [t];
    assert s[|tasks|] == t;
    forall i | 0 <= i < |tasks| ensures s[i] == tasks[i] { }
  }

  /** Replacing a task by a well-formed one with the same id keeps the
      invariant. */
  lemma ReplaceKeepsInvariant(tasks: seq<Task>, nextId: int, k: nat, t: Task)
    requires StoreInvariant(tasks, nextId)
    requires k < |tasks| && t.id == tasks[k].id && WellFormed(t)
    ensures StoreInvariant(tasks[k := t], nextId)
  {
    var s := tasks[k := t];
    forall i | 0 <= i < |s| ensures s[i].id == tasks[i].id { }
  }

  /** With distinct ids, deleting an id that is present removes exactly the
      one task at its index and keeps the others in their original order. */
  lemma RemoveUniqueId(tasks: seq<Task>, nextId: int, id: int, k: nat)
    requires StoreInvariant(tasks, nextId)
    requires FindIndex(tasks, id) == Some(k)
    ensures Filter(tasks, HasOtherId(id)) == tasks[..k] + tasks[k + 1..]
  {
    forall i | 0 <= i < |tasks| && i != k ensures HasOtherId(id)(tasks[i]) {
      assert tasks[i].id != tasks[k].id;
    }
    FilterDropsOne(tasks, HasOtherId(id), k);
  }

  /** After clearing, no completed task is left and clearing again keeps
      the same list: clearing is idempotent. */
  lemma ClearIsIdempotent(tasks: seq<Task>)
    ensures Count(Filter(tasks, IsPending), IsCompleted) == 0
    ensures Filter(Filter(tasks, IsPending), IsPending) == Filter(tasks, IsPending)
  {
    FilterKeepsNone(Filter(tasks, IsPending), IsCompleted);
    FilterIdempotent(tasks, IsPending);
  }

  /** The application object: `tasks` in display order and `nextId`, the id
      the next added task receives. */
  class CLITodoApp {
    var tasks: seq<Task>
    var nextId: int

    ghost predicate Valid()
      reads this
    {
      StoreInvariant(tasks, nextId)
    }

    /** Start from what loading the saved file produced: with no usable file
        the store is empty and counts from 1; a missing entry takes the same
        default. The file's contents are not checked. */
    constructor Load(saved: Option<SavedData>)
      ensures saved.None? ==> tasks == [] && nextId == 1 && Valid()
      ensures saved.Some? ==> tasks == (if saved.value.tasks.Some? then saved.value.tasks.value else [])
      ensures saved.Some? ==> nextId == (if saved.value.nextId.Some? then saved.value.nextId.value else 1)
    {
      tasks := [];
      nextId := 1;
      if saved.Some? {
        if saved.value.tasks.Some? {
          tasks := saved.value.tasks.value;
        }
        if saved.value.nextId.Some? {
          nextId := saved.value.nextId.value;
        }
      }
    }

    /** Linear search for the first task with id `id`; marking and editing
        update the task at the returned index in place. */
    method FindTaskById(id: int) returns (r: Option<nat>)
      ensures r == FindIndex(tasks, id)
    {
      var i := 0;
      while i < |tasks|
        invariant 0 <= i <= |tasks|
        invariant forall j :: 0 <= j < i ==> tasks[j].id != id
      {
        if tasks[i].id == id {
          return Some(i);
        }
        i := i + 1;
      }
      return None;
    }

    /** Add a task from the typed description, the typed priority choice and
        today's date. A description that is blank after stripping changes
        nothing; otherwise one pending task with the old counter as id is
        appended and the counter grows by one. */
    method AddTask(description: string, priorityChoice: string, today: string) returns (outcome: Outcome)
      modifies this
      ensures Strip(description) == [] ==>
        outcome == EmptyDescription && tasks == old(tasks) && nextId == old(nextId)
      ensures Strip(description) != [] ==>
        && outcome == Added(old(nextId))
        && nextId == old(nextId) + 1
        && tasks == old(tasks) + [Task(old(nextId), Strip(description), false,
                                       PriorityFromChoice(Strip(priorityChoice)), today, None)]
      ensures old(Valid()) ==> Valid()
      ensures old(Valid()) && outcome.Added? ==> FindIndex(tasks, outcome.id) == Some(|old(tasks)|)
    {
      var text := Strip(description);
      if text == [] {
        return EmptyDescription;
      }
      var priority := PriorityFromChoice(Strip(priorityChoice));
      var task := Task(nextId, text, false, priority, today, None);
      if Valid() {
        AppendKeepsInvariant(tasks, nextId, task);
      }
      tasks := tasks + [task];
      nextId := nextId + 1;
      outcome := Added(task.id);
    }

    /** Mark the task with id `id` completed at time `now`. An empty store, a
        pending task that cannot be listed, an unknown id or an already
        completed task changes nothing; otherwise only that task's flag and
        completion time change, and the id still finds it, now completed. */
    method MarkCompleted(id: int, now: string) returns (outcome: Outcome)
      modifies this
      ensures nextId == old(nextId)
      ensures old(tasks) == [] ==> outcome == NoTasks && tasks == old(tasks)
      ensures old(tasks) != [] && !Displayable(old(tasks), false) ==>
        outcome == DisplayError && tasks == old(tasks)
      ensures Displayable(old(tasks), false) && old(tasks) != [] && FindIndex(old(tasks), id).None? ==>
        outcome == NotFound && tasks == old(tasks)
      ensures Displayable(old(tasks), false) && FindIndex(old(tasks), id).Some? ==>
        var k := FindIndex(old(tasks), id).value;
        if old(tasks)[k].completed then
          outcome == AlreadyCompleted && tasks == old(tasks)
        else
          outcome == Done && tasks == old(tasks)[k := old(tasks)[k].(completed := true, completedAt := Some(now))]
      ensures outcome == Done ==>
        && FindIndex(tasks, id) == FindIndex(old(tasks), id)
        && tasks[FindIndex(tasks, id).value].completed
      ensures old(Valid()) ==> Valid() && outcome != DisplayError
    {
      if tasks == [] {
        return NoTasks;
      }
      if Valid() {
        ValidStoreDisplays(tasks, nextId);
      }
      if !Displayable(tasks, false) {
        return DisplayError;
      }
      var found := FindTaskById(id);
      if found.None? {
        return NotFound;
      }
      var k := found.value;
      if tasks[k].completed {
        return AlreadyCompleted;
      }
      var task := tasks[k].(completed := true, completedAt := Some(now));
      if Valid() {
        ReplaceKeepsInvariant(tasks, nextId, k, task);
      }
      FindIndexSameIds(tasks, k, task, id);
      tasks := tasks[k := task];
      outcome := Done;
    }

    /** Delete the task with id `id` once the answer confirms it. An empty
        store, a task that cannot be listed, an unknown id or a refused
        confirmation changes nothing; a confirmed delete removes every task
        with that id and keeps the rest in order. The counter never changes. */
    method DeleteTask(id: int, answer: string) returns (outcome: Outcome)
      modifies this
      ensures nextId == old(nextId)
      ensures old(tasks) == [] ==> outcome == NoTasks && tasks == old(tasks)
      ensures old(tasks) != [] && !Displayable(old(tasks), true) ==>
        outcome == DisplayError && tasks == old(tasks)
      ensures Displayable(old(tasks), true) && old(tasks) != [] && FindIndex(old(tasks), id).None? ==>
        outcome == NotFound && tasks == old(tasks)
      ensures Displayable(old(tasks), true) && FindIndex(old(tasks), id).Some? && !Confirms(answer) ==>
        outcome == NotConfirmed && tasks == old(tasks)
      ensures Displayable(old(tasks), true) && FindIndex(old(tasks), id).Some? && Confirms(answer) ==>
        outcome == Done && tasks == Filter(old(tasks), HasOtherId(id))
      ensures outcome == Done ==> FindIndex(tasks, id).None?
      ensures old(Valid()) && outcome == Done ==>
        var k := FindIndex(old(tasks), id).value;
        tasks == old(tasks)[..k] + old(tasks)[k + 1..]
      ensures old(Valid()) ==> Valid() && outcome != DisplayError
    {
      if tasks == [] {
        return NoTasks;
      }
      if Valid() {
        ValidStoreDisplays(tasks, nextId);
      }
      if !Displayable(tasks, true) {
        return DisplayError;
      }
      var found := FindTaskById(id);
      if found.None? {
        return NotFound;
      }
      if !Confirms(answer) {
        return NotConfirmed;
      }
      if Valid() {
        RemoveUniqueId(tasks, nextId, id, found.value);
        FilterKeepsInvariant(tasks, nextId, HasOtherId(id));
      }
      tasks := Filter(tasks, HasOtherId(id));
      outcome := Done;
    }

    /** Replace the description of the task with id `id` by the stripped new
        text. An empty store, a task that cannot be listed, an unknown id or a
        blank text changes nothing; otherwise only that task's description
        changes. */
    method EditTask(id: int, newDescription: string) returns (outcome: Outcome)
      modifies this
      ensures nextId == old(nextId)
      ensures old(tasks) == [] ==> outcome == NoTasks && tasks == old(tasks)
      ensures old(tasks) != [] && !Displayable(old(tasks), true) ==>
        outcome == DisplayError && tasks == old(tasks)
      ensures Displayable(old(tasks), true) && old(tasks) != [] && FindIndex(old(tasks), id).None? ==>
        outcome == NotFound && tasks == old(tasks)
      ensures Displayable(old(tasks), true) && FindIndex(old(tasks), id).Some? && Strip(newDescription) == [] ==>
        outcome == EmptyDescription && tasks == old(tasks)
      ensures Displayable(old(tasks), true) && FindIndex(old(tasks), id).Some? && Strip(newDescription) != [] ==>
        var k := FindIndex(old(tasks), id).value;
        outcome == Done && tasks == old(tasks)[k := old(tasks)[k].(description := Strip(newDescription))]
      ensures outcome == Done ==> FindIndex(tasks, id) == FindIndex(old(tasks), id)
      ensures old(Valid()) ==> Valid() && outcome != DisplayError
    {
      if tasks == [] {
        return NoTasks;
      }
      if Valid() {
        ValidStoreDisplays(tasks, nextId);
      }
      if !Displayable(tasks, true) {
        return DisplayError;
      }
      var found := FindTaskById(id);
      if found.None? {
        return NotFound;
      }
      var text := Strip(newDescription);
      if text == [] {
        return EmptyDescription;
      }
      var k := found.value;
      var task := tasks[k].(description := text);
      if Valid() {
        ReplaceKeepsInvariant(tasks, nextId, k, task);
      }
      FindIndexSameIds(tasks, k, task, id);
      tasks := tasks[k := task];
      outcome := Done;
    }

    /** Remove every completed task once the answer confirms it. With no
        completed task nothing is asked and nothing changes; a completed task
        that cannot be listed, or a refused confirmation, changes nothing; a
        confirmed clear keeps exactly the pending tasks in order and reports
        how many were removed, after which no completed task is left. */
    method ClearCompleted(answer: string) returns (outcome: Outcome)
      modifies this
      ensures nextId == old(nextId)
      ensures Count(old(tasks), IsCompleted) == 0 ==>
        outcome == NothingToClear && tasks == old(tasks)
      ensures Count(old(tasks), IsCompleted) > 0 && !Displayable(Filter(old(tasks), IsCompleted), true) ==>
        outcome == DisplayError && tasks == old(tasks)
      ensures Count(old(tasks), IsCompleted) > 0 && Displayable(Filter(old(tasks), IsCompleted), true) && !Confirms(answer) ==>
        outcome == NotConfirmed && tasks == old(tasks)
      ensures Count(old(tasks), IsCompleted) > 0 && Displayable(Filter(old(tasks), IsCompleted), true) && Confirms(answer) ==>
        && outcome == Cleared(Count(old(tasks), IsCompleted))
        && tasks == Filter(old(tasks), IsPending)
        && |tasks| == |old(tasks)| - outcome.count
        && Count(tasks, IsCompleted) == 0
      ensures old(Valid()) ==> Valid() && outcome != DisplayError
    {
      var completedTasks := Filter(tasks, IsCompleted);
      if |completedTasks| == 0 {
        return NothingToClear;
      }
      if Valid() {
        ValidStoreDisplays(tasks, nextId);
      }
      if !Displayable(completedTasks, true) {
        return DisplayError;
      }
      if !Confirms(answer) {
        return NotConfirmed;
      }
      CompletedPendingSplit(tasks);
      ClearIsIdempotent(tasks);
      if Valid() {
        FilterKeepsInvariant(tasks, nextId, IsPending);
      }
      tasks := Filter(tasks, IsPending);
      outcome := Cleared(|completedTasks|);
    }

    /** Count the tasks: total, completed, pending, the completion rate, and
        the pending tasks per priority. A pending task with a priority outside
        the three buckets makes the per-priority breakdown fail. */
    method ShowStatistics() returns (stats: Stats)
      ensures stats.total == |tasks|
      ensures stats.completed == Count(tasks, IsCompleted)
      ensures stats.pending == stats.total - stats.completed == Count(tasks, IsPending)
      ensures stats.rate == CompletionRate(stats.completed, stats.total)
      ensures stats.pendingByPriority.Some? <==>
        forall i :: 0 <= i < |tasks| && !tasks[i].completed ==> ValidPriority(tasks[i].priority)
      ensures Valid() ==> stats.pendingByPriority.Some?
      ensures stats.pendingByPriority.Some? ==>
        var b := stats.pendingByPriority.value;
        && b.high == Count(tasks, PendingWith(HIGH))
        && b.medium == Count(tasks, PendingWith(MEDIUM))
        && b.low == Count(tasks, PendingWith(LOW))
        && b.high + b.medium + b.low == stats.pending
    {
      var total := |tasks|;
      var completed := Count(tasks, IsCompleted);
      CompletedPendingSplit(tasks);
      var pending := total - completed;
      var rate := CompletionRate(completed, total);

      var high, medium, low := 0, 0, 0;
      var i := 0;
      while i < |tasks|
        invariant 0 <= i <= |tasks|
        invariant forall j :: 0 <= j < i && !tasks[j].completed ==> ValidPriority(tasks[j].priority)
        invariant high == Count(tasks[..i], PendingWith(HIGH))
        invariant medium == Count(tasks[..i], PendingWith(MEDIUM))
        invariant low == Count(tasks[..i], PendingWith(LOW))
      {
        var t := tasks[i];
        if !t.completed && !ValidPriority(t.priority) {
          return Stats(total, completed, pending, rate, None);
        }
        assert tasks[..i + 1] == tasks[..i] + [t];
        CountSnoc(tasks[..i], t, PendingWith(HIGH));
        CountSnoc(tasks[..i], t, PendingWith(MEDIUM));
        CountSnoc(tasks[..i], t, PendingWith(LOW));
        if !t.completed {
          if t.priority == HIGH {
            high := high + 1;
          } else if t.priority == MEDIUM {
            medium := medium + 1;
          } else {
            low := low + 1;
          }
        }
        i := i + 1;
      }
      assert tasks[..i] == tasks;
      PendingBucketsSum(tasks);
      stats := Stats(total, completed, pending, rate, Some(PriorityCounts(high, medium, low)));
    }
  }
}
