/**
 * The request handlers of the front router, each as one sequential transition
 * of the collection. Every handler answers with a redirect to the home page,
 * except a create whose save is rejected: that one only logs the error and
 * sends nothing.
 */
module Front {
  import opened Common
  import opened Store
  import TodoSchema

  const HomePath: string := "/"

  datatype Response = Redirect(location: string) | NoResponse

  /** The record POST / builds: only `task` is given, the rest is defaulted. */
  function Submitted(task: Option<string>, freshId: Id, now: Timestamp): Todo {
    NewTodo(TodoData(None, task, None, None), freshId, now)
  }

  /** The list after POST /: the new record is saved only when the schema accepts its task. */
  function Posted(s: seq<Todo>, task: Option<string>, freshId: Id, now: Timestamp): seq<Todo> {
    if TodoSchema.TaskError(task).None? then Upsert(s, Submitted(task, freshId, now)) else s
  }

  /** The list after POST /todo/destroy. */
  function Destroyed(s: seq<Todo>, key: Option<Id>): seq<Todo> {
    RemoveFirst(s, [IdIs(key)])
  }

  /** The list after POST /todo/edit: an update of `task` alone. */
  function Edited(s: seq<Todo>, key: Option<Id>, task: Option<string>): seq<Todo> {
    UpdateById(s, key, Patch(task, None))
  }

  /** The list after POST /todo/toggle: look the record up, flip the copy, save it. */
  function Toggled(s: seq<Todo>, key: Option<Id>): seq<Todo> {
    var k := FirstMatch(s, [IdIs(key)]);
    if k == -1 then s else Upsert(s, s[k].(completed := !s[k].completed))
  }

  /** GET /: every stored task, in list order; the collection is only read. */
  method Index(store: TodoStore) returns (tasks: seq<Todo>)
    ensures tasks == store.docs
  {
    tasks := store.Find([]);
  }

  /** POST /: build the record from the submitted `task` and save it. */
  method PostTask(store: TodoStore, task: Option<string>, freshId: Id, now: Timestamp) returns (resp: Response)
    requires store.Valid() && freshId != ""
    modifies store
    ensures store.Valid()
    ensures store.docs == Posted(old(store.docs), task, freshId, now)
    ensures resp == (if TodoSchema.ValidTask(task) then Redirect(HomePath) else NoResponse)
  {
    var newTask := Submitted(task, freshId, now);
    if TodoSchema.TaskError(task).None? {
      store.Save(newTask);
      resp := Redirect(HomePath);
    } else {
      // the rejected save is logged; no response is sent
      resp := NoResponse;
    }
  }

  /** POST /todo/destroy: remove the record with the key, if there is one. */
  method Destroy(store: TodoStore, key: Option<Id>) returns (resp: Response)
    requires store.Valid()
    modifies store
    ensures store.Valid()
    ensures store.docs == Destroyed(old(store.docs), key)
    ensures resp == Redirect(HomePath)
  {
    var _ := store.FindOneAndRemove([IdIs(key)]);
    resp := Redirect(HomePath);
  }

  /** POST /todo/edit: replace the task of the record with the key, if there is one. */
  method Edit(store: TodoStore, key: Option<Id>, task: Option<string>) returns (resp: Response)
    requires store.Valid()
    modifies store
    ensures store.Valid()
    ensures store.docs == Edited(old(store.docs), key, task)
    ensures resp == Redirect(HomePath)
  {
    var _ := store.FindByIdAndUpdate(key, Patch(task, None));
    resp := Redirect(HomePath);
  }

  /** POST /todo/toggle: flip `completed` of the record with the key, if there is one. */
  method Toggle(store: TodoStore, key: Option<Id>) returns (resp: Response)
    requires store.Valid()
    modifies store
    ensures store.Valid()
    ensures store.docs == Toggled(old(store.docs), key)
    ensures resp == Redirect(HomePath)
  {
    var todo := store.FindById(key);
    if todo.Some? {
      var flipped := todo.value.(completed := !todo.value.completed);
      store.Save(flipped);
    }
    resp := Redirect(HomePath);
  }

  /** A valid task is appended as a new, not completed record; any other task changes nothing. */
  lemma PostedShape(s: seq<Todo>, task: Option<string>, freshId: Id, now: Timestamp)
    requires freshId != "" && !HasId(s, freshId)
    ensures TodoSchema.ValidTask(task) ==> Posted(s, task, freshId, now) == s + [Todo(freshId, task, false, now)]
    ensures !TodoSchema.ValidTask(task) ==> Posted(s, task, freshId, now) == s
  {
  }

  /** Toggle flips `completed` of the keyed record only; an unknown key changes nothing. */
  lemma ToggleFlipsOnlyKeyed(s: seq<Todo>, key: Option<Id>)
    ensures !(exists j :: 0 <= j < |s| && key == Some(s[j].id)) ==> Toggled(s, key) == s
    ensures |Toggled(s, key)| == |s|
    ensures forall j :: 0 <= j < |s| ==> Toggled(s, key)[j].id == s[j].id
    ensures FirstMatch(s, [IdIs(key)]) >= 0 ==>
      var k := FirstMatch(s, [IdIs(key)]);
      && key == Some(s[k].id)
      && Toggled(s, key)[k] == s[k].(completed := !s[k].completed)
      && forall j :: 0 <= j < |s| && j != k ==> Toggled(s, key)[j] == s[j]
  {
    var k := FirstMatch(s, [IdIs(key)]);
    if k == -1 {
      forall j | 0 <= j < |s| ensures key != Some(s[j].id) {
        IdQuery(s[j], key);
      }
    } else {
      IdQuery(s[k], key);
      var d := s[k].(completed := !s[k].completed);
      forall j | 0 <= j < |s| ensures (Matches(s[j], [IdIs(Some(d.id))]) <==> Matches(s[j], [IdIs(key)])) {
        IdQuery(s[j], key);
        IdQuery(s[j], Some(d.id));
      }
      assert IndexOfId(s, d.id) == k;
    }
  }

  /** Toggling the same key twice restores the list exactly. */
  lemma ToggleTwiceRestores(s: seq<Todo>, key: Option<Id>)
    ensures Toggled(Toggled(s, key), key) == s
  {
    ToggleFlipsOnlyKeyed(s, key);
    var t := Toggled(s, key);
    FirstMatchByIdOnlySeesIds(s, t, key);
    ToggleFlipsOnlyKeyed(t, key);
    var k := FirstMatch(s, [IdIs(key)]);
    if k >= 0 {
      assert Toggled(t, key)[k] == s[k];
      assert forall j :: 0 <= j < |s| ==> Toggled(t, key)[j] == s[j];
    }
  }

  /** Destroy removes the keyed record, so a second destroy of the same key changes nothing. */
  lemma DestroyTwiceIsNoop(s: seq<Todo>, key: Option<Id>)
    requires ValidIds(s)
    ensures key.Some? ==> !HasId(Destroyed(s, key), key.value)
    ensures Destroyed(Destroyed(s, key), key) == Destroyed(s, key)
  {
    var k := FirstMatch(s, [IdIs(key)]);
    var r := Destroyed(s, key);
    if k == -1 {
      assert r == s;
      if key.Some? {
        forall j | 0 <= j < |s| ensures s[j].id != key.value {
          IdQuery(s[j], key);
        }
      }
    } else {
      RemoveFirstKeepsValidIds(s, [IdIs(key)]);
      IdQuery(s[k], key);
      assert !HasId(r, key.value);
      forall j | 0 <= j < |r| ensures !Matches(r[j], [IdIs(key)]) {
        IdQuery(r[j], key);
      }
      assert FirstMatch(r, [IdIs(key)]) == -1;
    }
  }

  /**
   * Edit replaces the task of the keyed record and nothing else; it neither
   * creates nor removes a record, so an unknown key changes nothing.
   */
  lemma EditReplacesOnlyTask(s: seq<Todo>, key: Option<Id>, task: Option<string>)
    ensures FirstMatch(s, [IdIs(key)]) == -1 ==> Edited(s, key, task) == s
    ensures task.None? ==> Edited(s, key, task) == s
    ensures |Edited(s, key, task)| == |s|
    ensures forall id :: HasId(Edited(s, key, task), id) <==> HasId(s, id)
    ensures FirstMatch(s, [IdIs(key)]) >= 0 ==>
      var k := FirstMatch(s, [IdIs(key)]);
      && key == Some(s[k].id)
      && Edited(s, key, task)[k] == (if task.Some? then s[k].(task := task) else s[k])
      && forall j :: 0 <= j < |s| && j != k ==> Edited(s, key, task)[j] == s[j]
  {
    UpdateByIdInPlace(s, key, Patch(task, None));
    var r := Edited(s, key, task);
    var k := FirstMatch(s, [IdIs(key)]);
    if k >= 0 {
      IdQuery(s[k], key);
    }
    forall id ensures HasId(r, id) <==> HasId(s, id) {
      if HasId(r, id) {
        var i :| 0 <= i < |r| && r[i].id == id;
        assert s[i].id == id;
      }
      if HasId(s, id) {
        var i :| 0 <= i < |s| && s[i].id == id;
        assert r[i].id == id;
      }
    }
  }

  /**
   * Clearing the completed tasks, as the store does it for `{completed: true}`:
   * exactly the not completed tasks stay, in their order, and a second
   * clearing changes nothing.
   */
  lemma ClearCompletedKeepsExactlyOpen(s: seq<Todo>)
    ensures forall d :: d in Without(s, [CompletedIs(true)]) <==> d in s && !d.completed
    ensures Subsequence(Without(s, [CompletedIs(true)]), s)
    ensures Without(Without(s, [CompletedIs(true)]), [CompletedIs(true)]) == Without(s, [CompletedIs(true)])
  {
    WithoutExactly(s, [CompletedIs(true)]);
    WithoutIdempotent(s, [CompletedIs(true)]);
  }
}
