/**
  The HTTP handlers of app.py over the task store, without Flask: each
  handler takes the store explicitly, the decoded JSON body as a value, and
  the id generator's and the clock's results as parameters, and returns the
  status code together with the record the response would carry.
 */
module TodoApi {
  import opened RecordStore
  import opened Text
  import opened TodoManagement

  /** A JSON value as far as the handlers look at it: a string, `null`, or anything else. */
  datatype Value = Str(s: string) | Null | Other

  /** The decoded request body: nothing (a JSON `null` or no JSON at all), or a JSON object. */
  datatype Body = Missing | Object(fields: map<string, Value>)

  /** The body is false in Python's truth test: no body at all, or an object with no members. */
  predicate Falsy(body: Body)
  {
    body.Missing? || |body.fields| == 0
  }

  /** The `title` member of the body, if the body has one. */
  function TitleOf(body: Body): Option<Value>
  {
    if body.Object? && "title" in body.fields then Some(body.fields["title"]) else None
  }

  datatype CreateCheck = Accept(title: string) | Reject(status: int)

  /**
    The checks `create_todo` makes before building a todo: 400 for a falsy
    body, a missing title or a title that strips to nothing; a title that is
    not a string makes `.strip()` raise, which the framework answers with 500.
   */
  function CheckCreate(body: Body): (r: CreateCheck)
    ensures r == Reject(400) <==>
              Falsy(body) || TitleOf(body).None? || (TitleOf(body).value.Str? && AllSpace(TitleOf(body).value.s))
    ensures r == Reject(500) <==> !Falsy(body) && TitleOf(body).Some? && !TitleOf(body).value.Str?
    ensures r.Accept? <==>
              !Falsy(body) && TitleOf(body).Some? && TitleOf(body).value.Str? && !AllSpace(TitleOf(body).value.s)
    ensures r.Reject? ==> r.status == 400 || r.status == 500
    ensures r.Accept? ==>
              TitleOf(body).Some? && TitleOf(body).value.Str? &&
              r.title == Trim(TitleOf(body).value.s) && r.title != []
  {
    if Falsy(body) || "title" !in body.fields then Reject(400)
    else match body.fields["title"]
      case Str(s) =>
        TrimEmptyIff(s);
        var title := Trim(s);
        if title == [] then Reject(400) else Accept(title)
      case _ => Reject(500)
  }

  datatype UpdateCheck = Proceed(title: Option<string>) | Refuse(status: int)

  /**
    The checks `update_todo` makes before calling the store: 400 for a falsy
    body or a string title that strips to nothing; a `null` or missing title
    means "no title"; a title of any other type makes `.strip()` raise (500).
   */
  function CheckUpdate(body: Body): (r: UpdateCheck)
    ensures r == Refuse(400) <==>
              Falsy(body) || (TitleOf(body).Some? && TitleOf(body).value.Str? && AllSpace(TitleOf(body).value.s))
    ensures r == Refuse(500) <==> !Falsy(body) && TitleOf(body).Some? && TitleOf(body).value.Other?
    ensures r == Proceed(None) <==> !Falsy(body) && (TitleOf(body).None? || TitleOf(body).value.Null?)
    ensures (r.Proceed? && r.title.Some?) <==>
              !Falsy(body) && TitleOf(body).Some? && TitleOf(body).value.Str? && !AllSpace(TitleOf(body).value.s)
    ensures r.Refuse? ==> r.status == 400 || r.status == 500
    ensures r.Proceed? && r.title.Some? ==>
              TitleOf(body).Some? && TitleOf(body).value.Str? &&
              r.title.value == Trim(TitleOf(body).value.s) && r.title.value != []
  {
    if Falsy(body) then Refuse(400)
    else match TitleOf(body)
      case None => Proceed(None)
      case Some(Null) => Proceed(None)
      case Some(Other) => Refuse(500)
      case Some(Str(s)) =>
        TrimEmptyIff(s);
        var title := Trim(s);
        if title == [] then Refuse(400) else Proceed(Some(title))
  }

  /** The number of completed todos, as the stats handler sums them. */
  function CountCompleted(todos: seq<Todo>): (n: nat)
    ensures n <= |todos|
    ensures n == 0 <==> forall i :: 0 <= i < |todos| ==> !todos[i].completed
    ensures n == |todos| <==> forall i :: 0 <= i < |todos| ==> todos[i].completed
  {
    if todos == [] then 0
    else
      var rest := CountCompleted(todos[1..]);
      assert forall i :: 1 <= i < |todos| ==> todos[i] == todos[1..][i - 1];
      (if todos[0].completed then 1 else 0) + rest
  }

  /** Counting completed todos distributes over concatenation. */
  lemma {:induction false} CountCompletedAppend(a: seq<Todo>, b: seq<Todo>)
    ensures CountCompleted(a + b) == CountCompleted(a) + CountCompleted(b)
  {
    if a == [] {
      assert a + b == b;
    } else {
      assert (a + b)[1..] == a[1..] + b;
      CountCompletedAppend(a[1..], b);
    }
  }

  datatype Stats = Stats(total: int, completed: int, pending: int)

  /** GET /api/todos: the whole list, in order. */
  method GetAllTodos(m: TodoManager) returns (status: int, todos: seq<Todo>)
    ensures status == 200 && todos == m.todos
  {
    todos := m.GetAllTodos();
    status := 200;
  }

  /** POST /api/todos: validate, then append one new todo built from `newId` and `now`. */
  method CreateTodo(m: TodoManager, body: Body, newId: string, now: Timestamp)
    returns (status: int, created: Option<Todo>)
    modifies m
    ensures status == 201 <==> CheckCreate(body).Accept?
    ensures status != 201 ==> status == CheckCreate(body).status && created.None? && m.todos == old(m.todos)
    ensures status == 201 ==>
              created == Some(Todo(newId, CheckCreate(body).title, false, now, now)) &&
              m.todos == old(m.todos) + [created.value]
    ensures status == 201 ==> CountCompleted(m.todos) == CountCompleted(old(m.todos))
    ensures status == 201 && UniqueIds(old(m.todos), TodoKey) && !HasId(old(m.todos), TodoKey, newId) ==>
              UniqueIds(m.todos, TodoKey)
    ensures status == 201 && !HasId(old(m.todos), TodoKey, newId) ==> Find(m.todos, TodoKey, newId) == created
  {
    var check := CheckCreate(body);
    if check.Reject? {
      return check.status, None;
    }
    var todo := Todo(newId, check.title, false, now, now);
    m.AddTodo(todo);
    CountCompletedAppend(old(m.todos), [todo]);
    if UniqueIds(old(m.todos), TodoKey) && !HasId(old(m.todos), TodoKey, newId) {
      AppendKeepsUnique(old(m.todos), TodoKey, todo);
    }
    if !HasId(old(m.todos), TodoKey, newId) {
      FindAppendFresh(old(m.todos), TodoKey, todo);
    }
    return 201, Some(todo);
  }

  /** GET /api/todos/<id>: the first todo with the id, or 404. */
  method GetTodo(m: TodoManager, id: string) returns (status: int, todo: Option<Todo>)
    ensures status == 404 <==> !HasId(m.todos, TodoKey, id)
    ensures status == 200 <==> HasId(m.todos, TodoKey, id)
    ensures status == 200 ==> todo.Some? && exists i :: FirstMatch(m.todos, TodoKey, id, i) && m.todos[i] == todo.value
  {
    todo := m.GetTodoById(id);
    status := if todo.None? then 404 else 200;
  }

  /** PATCH /api/todos/<id>: validate the body, then update the title or leave the todo as it is. */
  method UpdateTodo(m: TodoManager, id: string, body: Body, now: Timestamp) returns (status: int, todo: Option<Todo>)
    modifies m
    ensures CheckUpdate(body).Refuse? ==> status == CheckUpdate(body).status
    ensures CheckUpdate(body).Proceed? ==> (status == 404 <==> !HasId(old(m.todos), TodoKey, id))
    ensures CheckUpdate(body).Proceed? ==> (status == 200 <==> HasId(old(m.todos), TodoKey, id))
    ensures status != 200 ==> todo.None? && m.todos == old(m.todos)
    ensures status == 200 && CheckUpdate(body).title.None? ==>
              todo == Find(old(m.todos), TodoKey, id) && m.todos == old(m.todos)
    ensures status == 200 && CheckUpdate(body).title.Some? ==>
              todo == Some(Retitled(Find(old(m.todos), TodoKey, id).value, CheckUpdate(body).title.value, now)) &&
              m.todos == ReplaceAll(old(m.todos), TodoKey, id, todo.value)
  {
    var check := CheckUpdate(body);
    if check.Refuse? {
      return check.status, None;
    }
    todo := m.UpdateTodo(id, check.title, now);
    status := if todo.None? then 404 else 200;
  }

  /** DELETE /api/todos/<id>: 200 echoing the id iff some todo had it, else 404. */
  method DeleteTodo(m: TodoManager, id: string) returns (status: int, echoed: Option<string>)
    modifies m
    ensures status == 200 <==> HasId(old(m.todos), TodoKey, id)
    ensures status == 404 <==> !HasId(old(m.todos), TodoKey, id)
    ensures echoed == if status == 200 then Some(id) else None
    ensures m.todos == Without(old(m.todos), TodoKey, id)
  {
    var success := m.DeleteTodo(id);
    if !success {
      return 404, None;
    }
    return 200, Some(id);
  }

  /** POST /api/todos/<id>/toggle: flip the completion of the todo, or 404. */
  method ToggleTodo(m: TodoManager, id: string, now: Timestamp) returns (status: int, todo: Option<Todo>)
    modifies m
    ensures status == 404 <==> !HasId(old(m.todos), TodoKey, id)
    ensures status == 200 <==> HasId(old(m.todos), TodoKey, id)
    ensures status == 404 ==> todo.None? && m.todos == old(m.todos)
    ensures status == 200 ==>
              todo == Some(Toggled(Find(old(m.todos), TodoKey, id).value, now)) &&
              m.todos == ReplaceAll(old(m.todos), TodoKey, id, todo.value)
  {
    todo := m.ToggleTodo(id, now);
    status := if todo.None? then 404 else 200;
  }

  /** GET /api/todos/stats: total, completed and pending counts of the store. */
  method GetTodoStats(m: TodoManager) returns (stats: Stats)
    ensures stats.total == |m.todos|
    ensures stats.completed == CountCompleted(m.todos)
    ensures stats.total == stats.completed + stats.pending
    ensures 0 <= stats.completed && 0 <= stats.pending
    ensures stats.pending == 0 <==> forall i :: 0 <= i < |m.todos| ==> m.todos[i].completed
  {
    var allTodos := m.GetAllTodos();
    var totalCount := |allTodos|;
    var completedCount := CountCompleted(allTodos);
    var pendingCount := totalCount - completedCount;
    stats := Stats(totalCount, completedCount, pendingCount);
  }

  /**
    Three todos "A", "B" (completed) and "C" in the store: the list comes
    back in insertion order, the stats are 3 / 1 / 2, and after deleting "B"
    the list is "A", "C" with stats 2 / 0 / 2.
   */
  method StatsRun(now: Timestamp) returns (before: Stats, listed: seq<string>, after: Stats, remaining: seq<string>)
    ensures before == Stats(3, 1, 2) && listed == ["A", "B", "C"]
    ensures after == Stats(2, 0, 2) && remaining == ["A", "C"]
  {
    var a := Todo("id-a", "A", false, now, now);
    var b := Todo("id-b", "B", true, now, now);
    var c := Todo("id-c", "C", false, now, now);
    var m := new TodoManager();
    m.AddTodo(a);
    m.AddTodo(b);
    m.AddTodo(c);
    assert m.todos == [a, b, c];
    var status, all := GetAllTodos(m);
    listed := [all[0].title, all[1].title, all[2].title];
    assert CountCompleted([c]) == 0;
    assert CountCompleted([b, c]) == 1 by {
      assert [b, c][1..] == [c];
    }
    assert [a, b, c][1..] == [b, c];
    before := GetTodoStats(m);
    after, remaining := StatsRunDelete(m);
  }

  /** The second half of StatsRun: deleting the completed todo from the middle. */
  method StatsRunDelete(m: TodoManager) returns (after: Stats, remaining: seq<string>)
    requires |m.todos| == 3 && m.todos[1].id == "id-b" && m.todos[1].completed
    requires m.todos[0].id == "id-a" && !m.todos[0].completed && m.todos[0].title == "A"
    requires m.todos[2].id == "id-c" && !m.todos[2].completed && m.todos[2].title == "C"
    modifies m
    ensures after == Stats(2, 0, 2) && remaining == ["A", "C"]
  {
    ghost var s := m.todos;
    assert s[0].id[3] != 'b' && s[2].id[3] != 'b';
    assert Without(s[2..], TodoKey, "id-b") == s[2..];
    assert Without(s[1..], TodoKey, "id-b") == s[2..] by {
      assert s[1..][1..] == s[2..];
    }
    var deleted, echoed := DeleteTodo(m, "id-b");
    assert m.todos == [s[0], s[2]];
    var rest := m.GetAllTodos();
    remaining := [rest[0].title, rest[1].title];
    after := GetTodoStats(m);
  }
}
