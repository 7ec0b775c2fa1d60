/**
 * The CRUD scenarios the HTTP tests walk through, each run against a fresh,
 * empty collection. Identifiers and dates the tests leave to the collection
 * are fixed values here.
 */
module CrudScenarios {
  import opened Common
  import opened Store
  import opened Front

  /** POST / with `task = "Buy milk"` redirects, and the task is then stored, not completed. */
  method CreatesTodo() returns (resp: Response, found: Option<Todo>)
    ensures resp == Redirect("/")
    ensures found.Some? && found.value.task == Some("Buy milk") && !found.value.completed
  {
    var store := new TodoStore();
    resp := PostTask(store, Some("Buy milk"), "a1", 0);
    found := store.FindOne([TaskIs(Some("Buy milk"))]);
  }

  /** POST /todo/edit redirects, and the record then holds the new task. */
  method EditsTodo() returns (resp: Response, updated: Option<Todo>)
    ensures resp == Redirect("/")
    ensures updated.Some? && updated.value.task == Some("New task")
  {
    var store := new TodoStore();
    var created := store.Create(TodoData(None, Some("Old task"), None, None), "a1", 0);
    resp := Edit(store, Some(created.id), Some("New task"));
    updated := store.FindById(Some(created.id));
  }

  /** POST /todo/toggle redirects, and the new record is then completed. */
  method TogglesTodo() returns (resp: Response, toggled: Option<Todo>)
    ensures resp == Redirect("/")
    ensures toggled.Some? && toggled.value.completed
  {
    var store := new TodoStore();
    var created := store.Create(TodoData(None, Some("Toggle me"), None, None), "a1", 0);
    resp := Toggle(store, Some(created.id));
    toggled := store.FindById(Some(created.id));
  }

  /** POST /todo/destroy redirects, and the record is then gone. */
  method DestroysTodo() returns (resp: Response, found: Option<Todo>)
    ensures resp == Redirect("/")
    ensures found.None?
  {
    var store := new TodoStore();
    var created := store.Create(TodoData(None, Some("Delete me"), None, None), "a1", 0);
    resp := Destroy(store, Some(created.id));
    found := store.FindById(Some(created.id));
  }

  /**
   * The clear-completed scenario at the level of the collection: removing every
   * record matching `{completed: true}` from two completed tasks and one open
   * task leaves the open one alone.
   */
  method ClearsCompleted() returns (remaining: seq<Todo>)
    ensures |remaining| == 1
    ensures remaining[0].task == Some("Incomplete task") && !remaining[0].completed
  {
    var store := new TodoStore();
    var first := store.Create(TodoData(None, Some("Completed task 1"), Some(true), None), "a1", 0);
    var open := store.Create(TodoData(None, Some("Incomplete task"), Some(false), None), "a2", 0);
    assert store.docs == [first, open];
    var second := store.Create(TodoData(None, Some("Completed task 2"), Some(true), None), "a3", 0);
    assert store.docs == [first, open, second];
    var done := [CompletedIs(true)];
    assert Matches(first, done) && !Matches(open, done) && Matches(second, done);
    ghost var all := store.docs;
    assert all[1..] == [open, second] && all[1..][1..] == [second] && all[1..][1..][1..] == [];
    assert Without(all[1..][1..], done) == [];
    assert Without(all[1..], done) == [open];
    assert Without(all, done) == [open];
    store.DeleteMany(Some(done));
    remaining := store.Find([]);
  }
}
