# Task store of the command-line to-do list

This project models the task store of `CLITodoApp`, the terminal to-do list
application in `todoapp/app.py`. The store is an ordered list of task records
(`tasks`) and a counter (`next_id`) that hands out the id of the next task.
Five menu actions change that state:

- add a task;
- mark a task completed;
- edit a task's description;
- delete a task;
- clear all completed tasks.

A sixth, show statistics, only reads it. Marking, editing and deleting find
their task by linear search on the id (`find_task_by_id`).

The model is the class `TodoApp.CLITodoApp`, with fields `tasks: seq<Task>` and
`nextId: int`. Its methods update those fields the way the Python methods do.
Each method takes the values the Python code reads from the terminal or the
clock as parameters:

- the typed description and priority choice;
- the task id, already parsed as an integer;
- the `y`/`n` answer to a confirmation prompt;
- the current date or time, as an opaque string.

Each method returns an `Outcome` that names the branch it took: `Added(id)`,
`Done`, `Cleared(n)`, `EmptyDescription`, `NoTasks`, `NotFound`,
`AlreadyCompleted`, `NotConfirmed`, `NothingToClear` or `DisplayError`. Most
branches print a message. `NotConfirmed` is silent: a refused confirmation
prints nothing.
`find_task_by_id` returns the live record. `mark_completed` and `edit_task`
change that record. `delete_task` only reads its description and then rebuilds
the list. The model returns the record's index instead, and marking and editing
replace the element at that index.

Files:

- `util.dfy` (module `Util`) holds `Option` and the order-preserving `Filter`,
  which is what the list comprehensions in `delete_task` and `clear_completed`
  compute. It also holds `Count` and their lemmas: concatenation, membership,
  idempotence, and dropping exactly one element.
- `pystr.dfy` (module `PyStr`) models Python's argument-less `str.strip()`
  (whitespace as `str.isspace()` defines it) and the confirmation test
  `input(...).lower() == 'y'`. Only the answers `y` and `Y` pass that test.
- `todo.dfy` (module `TodoApp`) holds the task record, the store invariant,
  the class and the lemmas about the store.
- `scenario.dfy` (module `Scenario`) is a client. It walks through a short
  session: adding three tasks, completing one twice, computing statistics,
  clearing twice and deleting. Its assertions about outcomes and new states
  follow from the operations' contracts. Its assertions about `Filter`, `Strip`
  and `Displayable` on small literal lists evaluate those functions step by
  step.

The store invariant is `StoreInvariant`, which `CLITodoApp.Valid()` applies to
the fields. It says:

- ids are pairwise distinct;
- every id is below `nextId`;
- every priority is `high`, `medium` or `low`;
- a task has a completion time exactly when it is completed.

Loading does not check any of this. The methods therefore do not require the
invariant. Each one promises `old(Valid()) ==> Valid()`, so a store that starts
valid stays valid. The empty store that loading falls back to is valid.

The model follows the code in four places where its behaviour is easy to
misread:

- Deleting removes every task with the given id. It removes exactly one task
  whenever the id occurs once, which the invariant guarantees
  (`RemoveUniqueId`).
- An unknown priority on a pending task makes the statistics' per-priority
  breakdown fail, because the dictionary lookup raises. The priority is not
  replaced by `medium`.
- Clearing with no completed tasks asks nothing and reports that there is
  nothing to clear.
- Marking, deleting and editing first list the tasks (marking lists only the
  pending ones), and clearing first lists the completed ones. The listing looks
  up each shown record's priority icon in a dictionary, so an unknown priority
  raises `KeyError` before any input is read, and the menu loop reports the
  error. The model returns `DisplayError` and changes nothing. A valid store
  never takes this path.

## Model

| member | source | states |
|---|---|---|
| `TodoApp.CLITodoApp.Load` | todoapp/app.py:6-23 | with no readable file the store is empty, the counter is 1 and the invariant holds; otherwise `tasks` and `nextId` are the file's entries, with `[]` and 1 standing in for missing ones |
| `TodoApp.FindIndex` | todoapp/app.py:231-236 | the result is the index of the first task with the id (every earlier task has another id), or None exactly when no task has it |
| `TodoApp.CLITodoApp.FindTaskById` | todoapp/app.py:231-236 | the loop returns the index of the first task with the id, or None when there is none; the state is not changed |
| `TodoApp.PriorityFromChoice` | todoapp/app.py:96-98 | the priority picked by a menu answer is always one of high, medium, low |
| `TodoApp.PriorityChoices` | todoapp/app.py:97-98 | only "1" picks high, only "3" picks low, and every other answer (including "2", "" and unknown text) picks medium |
| `TodoApp.CLITodoApp.AddTask` | todoapp/app.py:82-110 | a description that is blank after stripping changes neither list nor counter; otherwise exactly one pending task is appended at the end, with no completion time, the stripped text, the old counter as id and the chosen priority, and the counter grows by one; the new task is then found at the end, and the invariant is kept |
| `TodoApp.AppendKeepsInvariant` | todoapp/app.py:100-110 | appending a well-formed task whose id is the counter, and advancing the counter, keeps ids distinct and below the counter, and the new id is found at the last index |
| `TodoApp.ValidStoreDisplays` | todoapp/app.py:66-71 | in a valid store the listing of all tasks, of the pending tasks and of the completed tasks never raises |
| `TodoApp.CLITodoApp.MarkCompleted` | todoapp/app.py:114-137 | an empty store, a pending task whose priority has no icon (`DisplayError`), an unknown id or an already completed task leave every task unchanged; otherwise only the found task changes, and only its flag (to true) and its completion time (to the given time), after which the id still finds it at the same index and it is completed, so a second call reports it as already completed; the counter never changes, the invariant is kept and a valid store never reports `DisplayError` |
| `TodoApp.FindIndexSameIds` | todoapp/app.py:127-133 | replacing a task by one with the same id leaves the result of the search for every id unchanged |
| `TodoApp.ReplaceKeepsInvariant` | todoapp/app.py:127-133 | replacing one task by a well-formed task with the same id keeps the invariant |
| `TodoApp.CLITodoApp.DeleteTask` | todoapp/app.py:139-160 | an empty store, a task whose priority has no icon (`DisplayError`, never in a valid store), an unknown id or an answer other than y/Y leave the list unchanged; a confirmed delete keeps exactly the tasks with other ids in their original order, after which the id is not found; under the invariant exactly the one task at the found index disappears; the counter never changes |
| `Util.Filter` | todoapp/app.py:156 | the filtered list is no longer than the input and every element in it satisfies the predicate |
| `Util.FilterConcat` | todoapp/app.py:156 | filtering distributes over concatenation, so the kept elements keep their relative order |
| `Util.FilterMembership` | todoapp/app.py:202 | an element is in the filtered list exactly when it is in the input and satisfies the predicate |
| `Util.FilterDropsOne` | todoapp/app.py:156 | a filter that rejects exactly one position removes that element and keeps all others in order |
| `TodoApp.RemoveUniqueId` | todoapp/app.py:152-156 | with distinct ids, removing the id found at index k gives the list with just that element removed |
| `TodoApp.FilterKeepsInvariant` | todoapp/app.py:156 | any filtering of a valid list (delete, clear) keeps ids distinct and below the counter, and every record well formed |
| `TodoApp.CLITodoApp.EditTask` | todoapp/app.py:162-187 | an empty store, a task whose priority has no icon (`DisplayError`, never in a valid store), an unknown id or a new text that is blank after stripping leave every task unchanged; otherwise only the found task's description changes, to the stripped text, and the id still finds it at the same index; the counter never changes and the invariant is kept |
| `TodoApp.CLITodoApp.ClearCompleted` | todoapp/app.py:189-204 | with no completed task nothing is asked and nothing changes; a completed task whose priority has no icon (`DisplayError`, never in a valid store) or an answer other than y/Y changes nothing; a confirmed clear keeps exactly the pending tasks in their order, reports the number of completed tasks that were there, shrinks the list by that number and leaves no completed task, so a second call finds nothing to clear |
| `TodoApp.ClearIsIdempotent` | todoapp/app.py:191-202 | after keeping only pending tasks there are no completed ones, and filtering again changes nothing |
| `TodoApp.CLITodoApp.ShowStatistics` | todoapp/app.py:206-224 | total is the list length, completed counts the completed tasks, pending is total minus completed and equals the number of pending tasks, the rate is the completion rate; the per-priority breakdown exists exactly when every pending task has a valid priority, which a valid store guarantees, and then its three buckets count the pending tasks of each priority and add up to pending |
| `TodoApp.CompletionRate` | todoapp/app.py:212 | the rate is the exact percentage completed/total·100 as a fraction with a positive denominator, 0 for an empty store, and at most 100 when completed ≤ total |
| `TodoApp.CompletedPendingSplit` | todoapp/app.py:208-210 | completed and pending tasks together are all tasks |
| `TodoApp.PendingBucketsSum` | todoapp/app.py:221-224 | when every pending task has a valid priority, the high, medium and low buckets sum to the number of pending tasks |
| `Util.Count` | todoapp/app.py:209 | the number of elements satisfying the predicate is at most the length |
| `Util.CountZero` | todoapp/app.py:191-195 | the count is zero exactly when no element satisfies the predicate, so "no completed tasks" is the empty comprehension |
| `Util.CountSnoc` | todoapp/app.py:222-224 | counting over a list extended by one element adds one exactly when the element is counted |
| `Util.FilterIdempotent` | todoapp/app.py:202 | filtering twice by the same predicate is the same as filtering once |
| `PyStr.Strip` | todoapp/app.py:85 | the stripped text is no longer than the input |
| `PyStr.TrimStartSpec` | todoapp/app.py:85 | left-stripping removes a prefix made only of whitespace and leaves a string that does not start with whitespace |
| `PyStr.TrimEndSpec` | todoapp/app.py:85 | right-stripping removes a suffix made only of whitespace and leaves a string that does not end with whitespace |
| `PyStr.StripSpec` | todoapp/app.py:85-87 | `strip()` returns the contiguous piece of its input left once a whitespace-only prefix and a whitespace-only suffix are removed; it is empty exactly when the input is all whitespace, and otherwise starts and ends with non-whitespace |
| `PyStr.StripIdempotent` | todoapp/app.py:178-180 | stripping a stripped text changes nothing |
| `PyStr.Lower` | todoapp/app.py:154 | lower-casing keeps the length |
| `PyStr.ConfirmsSpec` | todoapp/app.py:154-155 | an answer whose lower-cased form is `y` is exactly `y` or `Y` |

## Left out

- Terminal I/O is not modelled. This covers `display_menu`, `display_tasks`
  (column layout, truncation of long descriptions, the priority icons), every
  prompt and message text, and the `run` loop with its handlers for
  `KeyboardInterrupt` and other exceptions. Only the branch each operation
  takes is kept, as its `Outcome`.
- `display_tasks` contains `print("-"*80")` (line 80). That line is not valid
  Python, so the module as written does not even load. The model keeps only
  the one effect of the listing on the data, the `KeyError` of the icon lookup
  (`Displayable`).
- `load_tasks` and `save_tasks` are file I/O and JSON (de)serialisation, so
  they are not modelled. `CLITodoApp.Load` receives what loading produced:
  None for a missing or unreadable file, otherwise the `tasks` and `next_id`
  entries, each possibly absent. The save that follows every change, and its
  error message, are not modelled.
- `TodoApp.CLITodoApp.Load` does not establish the invariant for a loaded file,
  because the source does not check the file's contents. A hand-edited file can
  give duplicate ids or a `next_id` that is too small. The invariant is proved
  only for the empty fallback store, and is proved kept by every operation.
- Records in a hand-edited file can lack a key or have a value of the wrong
  type; the source then raises `KeyError` or behaves in other ways. These
  records are not modelled: every `Task` has all six fields, with an integer
  id and a boolean flag.
- `datetime.now()` and its formats are not modelled. The creation date and the
  completion time are strings passed in by the caller.
- The floating-point completion percentage and its one-decimal formatting are
  not modelled. The rate is the exact fraction `Rate(100 * completed, total)`,
  or 0 for an empty store.
- `TodoApp.CLITodoApp.ShowStatistics`: the source prints the totals and then
  raises `KeyError` on a pending task with an unknown priority. The model
  returns the totals and no per-priority breakdown. It does not model the
  partly printed output.
- Parsing the typed id with `int(input(...))`, and its `ValueError` message,
  are not modelled. The id is an `int` parameter.
- `PyStr.Lower` lower-cases only the letters A to Z. Python's Unicode case
  mappings for other characters are not modelled. None of them yields `y`,
  so the confirmation test is unaffected.
- `PyStr.Strip`: its own contract only bounds the length. What it returns is
  stated by `PyStr.StripSpec`, because stating it on the function made every
  caller's proof much more expensive.
- `Util.Count`: its own contract only bounds the count. What it counts is
  stated by `Util.CountZero`, `Util.CountSnoc` and the statistics lemmas.
