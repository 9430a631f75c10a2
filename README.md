# In-memory record stores and the task API, in Dafny

This project models the core of a small task-tracking service and its user
registry. The source has three copies of one **record store**: an ordered
list of records, each keyed by a string `id`.

- The Python `TodoManager` holds `Todo` records. It offers add, delete by
  id, lookup by id, list, count, title update and completion toggle.
- The Python `UserManager` holds `User` records. It offers add, delete,
  lookup, list and count.
- The TypeScript `UserManager` offers the same operations. Its list lives in
  a `UserDatabase` object that the caller passes in and may share.

The Flask handlers of `app.py` sit on top of the task store. They validate
the JSON body, call the store and answer with a status code.

The model does not assume that ids are unique, because `add` never rejects a
duplicate id:

- lookup returns the first match in list order;
- delete removes every match;
- update and toggle build one new record from the first match and write it
  over every match.

## Layout

- `record_store.dfy`, module `RecordStore`: the store logic shared by all
  three managers. It is written once, generic over the record type and a
  key function: `FirstIndex`, `Find`, `Without` (delete), `ReplaceAll`
  (update and toggle). The lemmas cover order, idempotence and id uniqueness.
- `text.dfy`, module `Text`: Python's `str.strip()` as `Trim`.
- `todo_manager.dfy`, module `TodoManagement`: the `Todo` record and the
  class `TodoManager`. Its `todos: seq<Todo>` field is reassigned by every
  mutating method. The lemmas cover update and double toggle, and a method
  replays the run of the todo example script.
- `user_manager.dfy`, module `UserManagement`: the Python `User` record and
  class `UserManager`, plus the run of the user example script.
- `user_manager_ts.dfy`, module `UserManagementTs`: class `UserDatabase`
  (field `users`) and class `UserManager`. Each manager holds a reference
  to a `UserDatabase` and updates the database through it. The
  `SharedDatabaseRun` method shows that two managers built over one
  database see each other's changes.
- `todo_api.dfy`, module `TodoApi`: the handlers as methods over an
  explicitly passed `TodoManager`. The pure request checks and the stats
  count are functions. There is also a scenario for stats and delete.

The external inputs are parameters:

- the new id from `uuid.uuid4()` is `newId`;
- the time from `datetime.now()` is `now`, an opaque integer. Nothing is
  proved about how two timestamps are ordered.

## Duplicate ids and invariants the code does not enforce

- Delete removes every record with the id, not only the first
  (todo_management/todo_manager.py:58, user_management/user_manager.py:56,
  user_management/src/userManager.ts:22). `Without` does the same.
- The code enforces neither unique ids nor `updated_at >= created_at`. The
  model proves that uniqueness is preserved when a fresh id is added
  (`TodoApi.CreateTodo`, `RecordStore.AppendKeepsUnique`) and when records
  are deleted or replaced. It assumes uniqueness only in lemmas that say so
  in their `requires`.
- A `title` that is present but not a string (a number, a list, or `null`
  in a create request) makes `.strip()` raise. Flask answers an unhandled
  exception with 500, and `CheckCreate` and `CheckUpdate` return 500 in that
  case. In a PATCH request a `null` title is the same as a missing one,
  because `dict.get` returns `None` for both.

## Model

| member | source | states |
|---|---|---|
| `RecordStore.FirstIndex` | todo_management/todo_manager.py:69-72 | the result is the least index whose record has the id, or the length when none has it |
| `RecordStore.Find` | todo_management/todo_manager.py:61-72 | `None` iff no record has the id; otherwise the record at the first matching position |
| `RecordStore.Without` | todo_management/todo_manager.py:57-59 | never longer than the input; keeps every record whose id differs and no other; strictly shorter iff the id was present; unchanged if the id was absent; no record with the id remains |
| `RecordStore.ReplaceAll` | todo_management/todo_manager.py:113 | same length; each position with the id holds the new record; every other position is unchanged |
| `RecordStore.WithoutKeepsCopies` | todo_management/todo_manager.py:58 | every record whose id differs keeps as many copies after the filter as before |
| `RecordStore.FindAppendFresh` | app.py:76-85 | after appending a record under an id no record had, looking that id up finds the appended record |
| `RecordStore.WithoutAppend` | todo_management/todo_manager.py:58 | filtering distributes over concatenation, so the kept records keep their relative order |
| `RecordStore.WithoutIdempotent` | user_management/user_manager.py:56 | deleting the same id a second time changes nothing |
| `RecordStore.ReplaceAllKeepsFirstIndex` | todo_management/todo_manager.py:139 | after replacing with a record that has the same id, the first match is still at the same index |
| `RecordStore.ReplaceAllTwice` | todo_management/todo_manager.py:139 | a second replacement at the same id completely overrides the first |
| `RecordStore.ReplaceAllUnique` | todo_management/todo_manager.py:113 | when ids are unique, replacing at an id is the update of that one position |
| `RecordStore.AppendKeepsUnique` | app.py:76-85 | appending a record whose id is absent keeps ids unique |
| `RecordStore.WithoutKeepsUnique` | todo_management/todo_manager.py:58 | deleting keeps ids unique |
| `RecordStore.ReplaceAllKeepsUnique` | todo_management/todo_manager.py:139 | replacing with a record that has the same id keeps ids unique |
| `Text.LeadingSpace` | app.py:70 | the count of leading whitespace characters: all of them are whitespace and the next one is not |
| `Text.TrailingSpace` | app.py:70 | the count of trailing whitespace characters: all of them are whitespace and the one before is not |
| `Text.Trim` | app.py:70 | the result is a contiguous slice of the input, everything outside it is whitespace, and it neither starts nor ends with whitespace |
| `Text.TrimEmptyIff` | app.py:72 | a string strips to "" iff every character is whitespace |
| `Text.TrimIdempotent` | app.py:134 | stripping a stripped title changes nothing |
| `TodoManagement.TodoManager.constructor` | todo_management/todo_manager.py:36-37 | a new manager holds no todos |
| `TodoManagement.TodoManager.AddTodo` | todo_management/todo_manager.py:39-47 | the new list is the old list followed by the todo; the count grows by one |
| `TodoManagement.TodoManager.DeleteTodo` | todo_management/todo_manager.py:49-59 | returns true iff some todo had the id; afterwards none has it; the list is the order-preserving filter; an absent id leaves the list unchanged |
| `TodoManagement.TodoManager.GetTodoById` | todo_management/todo_manager.py:61-72 | `None` iff no todo has the id; otherwise the first match in list order; the list is not modified (the search loop's invariant: no earlier todo matched) |
| `TodoManagement.TodoManager.GetAllTodos` | todo_management/todo_manager.py:74-80 | the result has the stored todos in the stored order; it is a value, so later store changes cannot alter it |
| `TodoManagement.TodoManager.GetTodoCount` | todo_management/todo_manager.py:82-88 | the count is the length of the list |
| `TodoManagement.TodoManager.UpdateTodo` | todo_management/todo_manager.py:90-116 | an absent id gives `None` and no change; no title gives the existing first match and no change; a title replaces every match with the first match retitled and stamped `now`, and that record is returned |
| `TodoManagement.TodoManager.ToggleTodo` | todo_management/todo_manager.py:118-140 | an absent id gives `None` and no change; otherwise every match is replaced by the first match with `completed` negated and stamped `now`, and that record is returned |
| `TodoManagement.UpdateReplacesMatches` | todo_management/todo_manager.py:103-114 | after a title update, length and order are kept; each match holds the new title, the time `now`, and the first match's id, completion and creation time; every other todo is unchanged; lookup returns the new record |
| `TodoManagement.ToggleTwiceRestoresCompleted` | todo_management/todo_manager.py:126-140 | the second toggle finds the record the first one stored; the second toggle gives the first match back with its original `completed`, id, title and creation time, and only the update time differs |
| `TodoManagement.ToggleTwiceUnique` | todo_management/todo_manager.py:126-140 | with unique ids, two toggles restore the original list except for one update time |
| `TodoManagement.ExampleRun` | todo_management/example.py:36-68 | the example's run: count 3; the toggled todo is completed; deleting todo_1 succeeds and leaves 2; deleting todo_999 fails and leaves 2 |
| `TodoManagement.ExampleDeletes` | todo_management/example.py:58-68 | the two deletions of that run |
| `UserManagement.UserManager.constructor` | user_management/user_manager.py:34-35 | a new manager holds no users |
| `UserManagement.UserManager.AddUser` | user_management/user_manager.py:37-45 | the user is appended at the end; the count grows by one |
| `UserManagement.UserManager.DeleteUser` | user_management/user_manager.py:47-57 | returns true iff some user had the id; afterwards none has it; the others keep their order; an absent id leaves the list unchanged |
| `UserManagement.UserManager.GetUserById` | user_management/user_manager.py:59-70 | `None` iff no user has the id; otherwise the first match; the list is not modified |
| `UserManagement.UserManager.GetAllUsers` | user_management/user_manager.py:72-78 | the stored users in the stored order |
| `UserManagement.UserManager.GetUserCount` | user_management/user_manager.py:80-86 | the length of the list |
| `UserManagement.ExampleRun` | user_management/example.py:27-47 | the example's run: count 2; deleting user_1 returns true and leaves 1; deleting user_999 returns false and leaves 1 |
| `UserManagementTs.UserDatabase.constructor` | user_management/src/types.ts:8-10 | the database holds the given list |
| `UserManagementTs.UserManager.constructor` | user_management/src/userManager.ts:6-8 | the manager refers to the database it was given, not a copy |
| `UserManagementTs.UserManager.AddUser` | user_management/src/userManager.ts:13-15 | the shared database's list is the old list plus the user |
| `UserManagementTs.UserManager.DeleteUser` | user_management/src/userManager.ts:20-24 | the shared list becomes the order-preserving filter; the result is true iff the id was present; an absent id leaves the list unchanged |
| `UserManagementTs.UserManager.GetUserById` | user_management/src/userManager.ts:29-31 | `None` (for `undefined`) iff no user has the id; otherwise the first match; the database is not modified |
| `UserManagementTs.UserManager.GetAllUsers` | user_management/src/userManager.ts:36-38 | a freshly allocated array with the same users in the same order |
| `UserManagementTs.UserManager.GetUserCount` | user_management/src/userManager.ts:43-45 | the length of the shared list |
| `UserManagementTs.SharedDatabaseRun` | user_management/src/userManager.ts:4-8 | a push through one manager is seen by a second manager over the same database, and a delete through the second is seen by the first |
| `TodoApi.CheckCreate` | app.py:65-73 | 400 iff the body is false in Python's truth test, lacks `title`, or has a title made only of whitespace; 500 iff the title is not a string; accepted iff the body is non-empty and its title is a string with a non-whitespace character, and then the title is the stripped, non-empty string; no other status |
| `TodoApi.CheckUpdate` | app.py:126-136 | 400 iff the body is false in Python's truth test or the title is a string made only of whitespace; 500 iff the title is neither string nor null; no title iff it is missing or null; a new title iff the title is a string with a non-whitespace character, and then it is the stripped, non-empty string; no other status |
| `TodoApi.CountCompleted` | app.py:200 | at most the number of todos; 0 iff none is completed; equal to the number of todos iff all are completed |
| `TodoApi.CountCompletedAppend` | app.py:200 | the completed count of a concatenation is the sum of the counts |
| `TodoApi.GetAllTodos` | app.py:40-56 | 200 with the stored list in order |
| `TodoApi.CreateTodo` | app.py:59-96 | 201 iff the checks pass; on 201 exactly one todo is appended, with the stripped title, `completed` false and `created_at == updated_at == now`; the completed count is unchanged; when the new id is fresh, unique ids stay unique and looking the id up returns the created todo; otherwise 400 or 500 with the store unchanged |
| `TodoApi.GetTodo` | app.py:99-117 | 404 iff no todo has the id; otherwise 200 with the first match |
| `TodoApi.UpdateTodo` | app.py:120-152 | the body checks come first (400 or 500, store unchanged); then 404 iff the id is absent, with the store unchanged; 200 with the unchanged first match when no title is given, or with the retitled record written over every match |
| `TodoApi.DeleteTodo` | app.py:155-168 | 200 echoing the id iff some todo had it, otherwise 404; the store is the filtered list |
| `TodoApi.ToggleTodo` | app.py:171-190 | 404 iff the id is absent, with the store unchanged; otherwise 200 with the toggled first match written over every match |
| `TodoApi.GetTodoStats` | app.py:193-207 | total is the count, completed is the number of completed todos, and pending is their difference; so total == completed + pending, both are non-negative, and pending is 0 iff every todo is completed |
| `TodoApi.StatsRun` | app.py:193-207 | with A, B (completed) and C stored, the list is A, B, C and the stats are 3/1/2; after deleting B they are A, C and 2/0/2 |
| `TodoApi.StatsRunDelete` | app.py:155-168 | the deletion half of that run |

## Left out

- Flask itself is not modelled: routing, `jsonify`, the home endpoint's
  fixed message, and `.isoformat()` rendering of timestamps. A handler
  returns its status code and the record its response would carry.
- Request bodies that decode to a JSON array, number, string or boolean
  are not modelled, and neither is Flask's own rejection of a non-JSON content type.
  `Body` is either missing or a JSON object.
- The id generator `uuid.uuid4()` and the clock `datetime.now()` are
  parameters. `updated_at >= created_at` and monotonic time are not claimed.
- Text.IsSpace: only the ASCII characters that Python's `str.isspace`
  accepts are whitespace. Non-ASCII whitespace such as U+00A0 or U+2000 is
  not stripped by the model.
- The process-wide store of app.py and concurrent requests are not
  modelled. Each handler takes the store as an argument and runs to
  completion.
- Python's list aliasing is not modelled. `todos` is a sequence value, so
  the in-place `append` and the reassignment after filtering look the same.
- UserManagementTs: `users` is a sequence field of the shared database. A
  caller that kept a reference to the old array object would see a push
  but not a delete. The model follows the database object, not that array.
- The placeholders `update_user` and `search_users` are named in a comment
  but have no code.
- The README-generation scripts are not part of this model, and neither are
  the print statements of the example scripts.
