/**
  The task store of todo_management/todo_manager.py: a `Todo` record and a
  `TodoManager` whose list of todos is appended to in place and replaced
  wholesale by delete, update and toggle. The clock is a parameter: every
  operation that stamps `updated_at` receives the time as `now`.
 */
module TodoManagement {
  import opened RecordStore

  /** A point in time as the wall clock reports it; no ordering is relied upon. */
  type Timestamp = int

  datatype Todo = Todo(id: string, title: string, completed: bool, createdAt: Timestamp, updatedAt: Timestamp)

  /** The key under which the store files a todo. */
  function TodoKey(t: Todo): string
  {
    t.id
  }

  /** The record `update_todo` builds: new title and time, everything else from `t`. */
  function Retitled(t: Todo, title: string, now: Timestamp): Todo
  {
    Todo(t.id, title, t.completed, t.createdAt, now)
  }

  /** The record `toggle_todo` builds: completion flipped, time refreshed, everything else from `t`. */
  function Toggled(t: Todo, now: Timestamp): Todo
  {
    Todo(t.id, t.title, !t.completed, t.createdAt, now)
  }

  class TodoManager {
    var todos: seq<Todo>

    constructor ()
      ensures todos == []
    {
      todos := [];
    }

    /** Appends `todo`; duplicates of an existing id are not rejected. */
    method AddTodo(todo: Todo)
      modifies this
      ensures todos == old(todos) + [todo]
      ensures |todos| == |old(todos)| + 1
    {
      todos := todos + [todo];
    }

    /** Removes every todo with the given id; reports whether the list got shorter. */
    method DeleteTodo(id: string) returns (deleted: bool)
      modifies this
      ensures todos == Without(old(todos), TodoKey, id)
      ensures deleted <==> HasId(old(todos), TodoKey, id)
      ensures !HasId(todos, TodoKey, id)
      ensures !deleted ==> todos == old(todos)
    {
      var initialLength := |todos|;
      todos := Without(todos, TodoKey, id);
      deleted := |todos| < initialLength;
    }

    /** The first todo with the given id, in list order, or `None`. */
    method GetTodoById(id: string) returns (r: Option<Todo>)
      ensures r.None? <==> !HasId(todos, TodoKey, id)
      ensures r.Some? ==> exists i :: FirstMatch(todos, TodoKey, id, i) && todos[i] == r.value
      ensures r == Find(todos, TodoKey, id)
    {
      var i := 0;
      while i < |todos|
        invariant 0 <= i <= |todos|
        invariant forall j :: 0 <= j < i ==> todos[j].id != id
      {
        if todos[i].id == id {
          assert FirstMatch(todos, TodoKey, id, i);
          return Some(todos[i]);
        }
        i := i + 1;
      }
      return None;
    }

    /** A copy of the list: the same todos in the same order. */
    method GetAllTodos() returns (s: seq<Todo>)
      ensures s == todos
    {
      s := todos;
    }

    method GetTodoCount() returns (n: nat)
      ensures n == |todos|
    {
      n := |todos|;
    }

    /**
      With an absent id: `None`, nothing changes. With no title: the first
      match, nothing changes. Otherwise every todo with the id is replaced by
      the first match retitled and stamped `now`, which is also returned.
     */
    method UpdateTodo(id: string, title: Option<string>, now: Timestamp) returns (r: Option<Todo>)
      modifies this
      ensures r.None? <==> !HasId(old(todos), TodoKey, id)
      ensures r.None? || title.None? ==> todos == old(todos)
      ensures title.None? ==> r == Find(old(todos), TodoKey, id)
      ensures r.Some? && title.Some? ==>
                r == Some(Retitled(Find(old(todos), TodoKey, id).value, title.value, now)) &&
                todos == ReplaceAll(old(todos), TodoKey, id, r.value)
      ensures r.Some? ==> r.value.id == id
    {
      var todo := GetTodoById(id);
      if todo.None? {
        return None;
      }
      if title.Some? {
        var updated := Retitled(todo.value, title.value, now);
        todos := ReplaceAll(todos, TodoKey, id, updated);
        return Some(updated);
      }
      return todo;
    }

    /**
      With an absent id: `None`, nothing changes. Otherwise every todo with
      the id is replaced by the first match with its completion flipped and
      stamped `now`, which is also returned.
     */
    method ToggleTodo(id: string, now: Timestamp) returns (r: Option<Todo>)
      modifies this
      ensures r.None? <==> !HasId(old(todos), TodoKey, id)
      ensures r.None? ==> todos == old(todos)
      ensures r.Some? ==>
                r.value == Toggled(Find(old(todos), TodoKey, id).value, now) &&
                todos == ReplaceAll(old(todos), TodoKey, id, r.value)
      ensures r.Some? ==> r.value.id == id
    {
      var todo := GetTodoById(id);
      if todo.None? {
        return None;
      }
      var updated := Toggled(todo.value, now);
      todos := ReplaceAll(todos, TodoKey, id, updated);
      return Some(updated);
    }
  }

  /**
    What the store holds after a title update of a present id: the same
    length and order, every todo with the id now the first match retitled,
    every other todo untouched, and the id still found at the same place.
   */
  lemma UpdateReplacesMatches(s: seq<Todo>, id: string, title: string, now: Timestamp)
    requires HasId(s, TodoKey, id)
    ensures var first := Find(s, TodoKey, id).value;
            var s' := ReplaceAll(s, TodoKey, id, Retitled(first, title, now));
            && |s'| == |s|
            && (forall i :: 0 <= i < |s| && s[i].id == id ==>
                  s'[i] == Todo(id, title, first.completed, first.createdAt, now))
            && (forall i :: 0 <= i < |s| && s[i].id != id ==> s'[i] == s[i])
            && Find(s', TodoKey, id) == Some(Retitled(first, title, now))
  {
    var first := Find(s, TodoKey, id).value;
    var rec := Retitled(first, title, now);
    ReplaceAllKeepsFirstIndex(s, TodoKey, id, rec);
  }

  /**
    Toggling the same id twice: the second toggle finds the record the first
    one stored, so the first match's completion flag, id, title and creation
    time are back and only the update time differs; every match holds that record.
   */
  lemma ToggleTwiceRestoresCompleted(s: seq<Todo>, id: string, now1: Timestamp, now2: Timestamp)
    requires HasId(s, TodoKey, id)
    ensures var first := Find(s, TodoKey, id).value;
            var t1 := Toggled(first, now1);
            var s1 := ReplaceAll(s, TodoKey, id, t1);
            && Find(s1, TodoKey, id) == Some(t1)
            && Toggled(t1, now2) == first.(updatedAt := now2)
            && ReplaceAll(s1, TodoKey, id, Toggled(t1, now2)) == ReplaceAll(s, TodoKey, id, first.(updatedAt := now2))
  {
    var first := Find(s, TodoKey, id).value;
    var t1 := Toggled(first, now1);
    ReplaceAllKeepsFirstIndex(s, TodoKey, id, t1);
    ReplaceAllTwice(s, TodoKey, id, t1, first.(updatedAt := now2));
  }

  /** With unique ids, two toggles give back the original list except for one update time. */
  lemma ToggleTwiceUnique(s: seq<Todo>, id: string, now1: Timestamp, now2: Timestamp, k: nat)
    requires UniqueIds(s, TodoKey)
    requires FirstMatch(s, TodoKey, id, k)
    ensures var t1 := Toggled(s[k], now1);
            var s1 := ReplaceAll(s, TodoKey, id, t1);
            ReplaceAll(s1, TodoKey, id, Toggled(t1, now2)) == s[k := s[k].(updatedAt := now2)]
  {
    assert HasId(s, TodoKey, id);
    ToggleTwiceRestoresCompleted(s, id, now1, now2);
    ReplaceAllUnique(s, TodoKey, id, s[k].(updatedAt := now2), k);
  }

  /**
    The run of todo_management/example.py: three todos added, the first
    retitled, the second toggled, the first deleted, an unknown id deleted.
   */
  method ExampleRun(now: Timestamp)
    returns (count1: nat, toggledCompleted: bool, deleted1: bool, count2: nat, deleted999: bool, count3: nat)
    ensures count1 == 3 && toggledCompleted && deleted1 && count2 == 2 && !deleted999 && count3 == 2
  {
    var t1 := Todo("todo_1", "Pythonの勉強", false, now, now);
    var t2 := Todo("todo_2", "買い物に行く", false, now, now);
    var t3 := Todo("todo_3", "レポートを書く", true, now, now);
    var manager := new TodoManager();
    manager.AddTodo(t1);
    manager.AddTodo(t2);
    manager.AddTodo(t3);
    assert manager.todos == [t1, t2, t3];
    count1 := manager.GetTodoCount();

    assert FirstMatch(manager.todos, TodoKey, "todo_1", 0);
    var updated := manager.UpdateTodo("todo_1", Some("Flaskの勉強"), now);
    var u1 := Retitled(t1, "Flaskの勉強", now);
    assert manager.todos == [u1, t2, t3];

    assert FirstMatch(manager.todos, TodoKey, "todo_2", 1);
    var toggled := manager.ToggleTodo("todo_2", now);
    assert toggled == Some(Toggled(t2, now));
    toggledCompleted := toggled.Some? && toggled.value.completed;
    assert manager.todos == [u1, Toggled(t2, now), t3];

    deleted1, count2, deleted999, count3 := ExampleDeletes(manager);
  }

  /** The second half of ExampleRun: deleting "todo_1", then the unknown "todo_999". */
  method ExampleDeletes(manager: TodoManager) returns (deleted1: bool, count2: nat, deleted999: bool, count3: nat)
    requires |manager.todos| == 3
    requires manager.todos[0].id == "todo_1" && manager.todos[1].id == "todo_2" && manager.todos[2].id == "todo_3"
    modifies manager
    ensures deleted1 && count2 == 2 && !deleted999 && count3 == 2
  {
    ghost var s := manager.todos;
    assert FirstMatch(s, TodoKey, "todo_1", 0);
    assert Without(s[2..], TodoKey, "todo_1") == s[2..];
    assert Without(s[1..], TodoKey, "todo_1") == s[1..] by {
      assert s[1..][1..] == s[2..];
    }
    deleted1 := manager.DeleteTodo("todo_1");
    assert manager.todos == s[1..];
    count2 := manager.GetTodoCount();
    assert manager.todos[0].id[5] != "todo_999"[5] && manager.todos[1].id[5] != "todo_999"[5];
    deleted999 := manager.DeleteTodo("todo_999");
    count3 := manager.GetTodoCount();
  }
}
