/**
 * The in-memory `todos` collection: a module-level list of records and the
 * model operations over it (`save`, `find`, `findOne`, `findById`,
 * `findByIdAndUpdate`, `findOneAndRemove`, `deleteMany`, `_reset`).
 *
 * The functions before the class are the specification of the list: what each
 * operation leaves behind, as a function of the list before it.
 */
module Store {
  import opened Common

  type Id = string

  /** A stored record: exactly the four fields a copy carries. */
  datatype Todo = Todo(id: Id, task: Option<string>, completed: bool, createdAt: Timestamp)

  /** What the record constructor is given: every field may be left out. */
  datatype TodoData = TodoData(
    id: Option<Id>,
    task: Option<string>,
    completed: Option<bool>,
    createdAt: Option<Timestamp>)

  /**
   * The record constructor. `freshId` stands for the random hex identifier and
   * `now` for the current date: each is used only when the data leaves the field out.
   * An empty identifier is falsy, so it is replaced as well.
   */
  function NewTodo(data: TodoData, freshId: Id, now: Timestamp): (d: Todo)
    ensures data.id.Some? && data.id.value != "" ==> d.id == data.id.value
    ensures data.id.None? || data.id.value == "" ==> d.id == freshId
    ensures d.task == data.task
    ensures data.completed.None? ==> !d.completed
    ensures data.completed.Some? ==> d.completed == data.completed.value
    ensures data.createdAt.None? ==> d.createdAt == now
    ensures data.createdAt.Some? ==> d.createdAt == data.createdAt.value
  {
    Todo(if data.id.Some? && data.id.value != "" then data.id.value else freshId,
         data.task,
         data.completed.GetOr(false),
         data.createdAt.GetOr(now))
  }

  function DataOf(d: Todo): TodoData {
    TodoData(Some(d.id), d.task, Some(d.completed), Some(d.createdAt))
  }

  /**
   * Copying a stored record through the constructor, as every lookup does,
   * gives back the same four fields: nothing is defaulted again.
   */
  lemma CopyPreserves(d: Todo, freshId: Id, now: Timestamp)
    requires d.id != ""
    ensures NewTodo(DataOf(d), freshId, now) == d
  {
  }

  /** One `key: value` entry of a query object, compared with `===`. */
  datatype Criterion =
    | IdIs(id: Option<Id>)
    | TaskIs(task: Option<string>)
    | CompletedIs(completed: bool)

  /** A query object, as the list of its entries. */
  type Query = seq<Criterion>

  predicate Satisfies(d: Todo, c: Criterion) {
    match c
    case IdIs(v) => v == Some(d.id)
    case TaskIs(v) => v == d.task
    case CompletedIs(b) => b == d.completed
  }

  /** Every entry of the query holds of the record; the empty query holds of every record. */
  function Matches(d: Todo, q: Query): (r: bool)
    ensures r <==> forall i :: 0 <= i < |q| ==> Satisfies(d, q[i])
    ensures q == [] ==> r
  {
    if q == [] then true
    else
      assert forall i :: 1 <= i < |q| ==> q[i] == q[1..][i - 1];
      Satisfies(d, q[0]) && Matches(d, q[1..])
  }

  lemma IdQuery(d: Todo, key: Option<Id>)
    ensures Matches(d, [IdIs(key)]) <==> key == Some(d.id)
  {
  }

  /** The index of the first record the query matches, or -1 (`findIndex`). */
  function FirstMatch(s: seq<Todo>, q: Query): (k: int)
    ensures -1 <= k < |s|
    ensures k == -1 <==> forall j :: 0 <= j < |s| ==> !Matches(s[j], q)
    ensures 0 <= k ==> Matches(s[k], q) && forall j :: 0 <= j < k ==> !Matches(s[j], q)
  {
    if s == [] then -1
    else if Matches(s[0], q) then 0
    else
      var k := FirstMatch(s[1..], q);
      assert forall j :: 1 <= j < |s| ==> s[j] == s[1..][j - 1];
      if k == -1 then -1 else k + 1
  }

  predicate HasId(s: seq<Todo>, id: Id) {
    exists i :: 0 <= i < |s| && s[i].id == id
  }

  /** Every stored identifier is non-empty and no two records share one. */
  predicate ValidIds(s: seq<Todo>) {
    && (forall i :: 0 <= i < |s| ==> s[i].id != "")
    && (forall i, j :: 0 <= i < j < |s| ==> s[i].id != s[j].id)
  }

  function IndexOfId(s: seq<Todo>, id: Id): (k: int)
    ensures -1 <= k < |s|
    ensures k == -1 <==> !HasId(s, id)
    ensures 0 <= k ==> s[k].id == id && forall j :: 0 <= j < k ==> s[j].id != id
  {
    var k := FirstMatch(s, [IdIs(Some(id))]);
    assert forall j :: 0 <= j < |s| ==> (Matches(s[j], [IdIs(Some(id))]) <==> s[j].id == id) by {
      forall j | 0 <= j < |s| { IdQuery(s[j], Some(id)); }
    }
    k
  }

  /** `save`: replace the record with the same identifier in place, or append. */
  function Upsert(s: seq<Todo>, d: Todo): seq<Todo> {
    var k := IndexOfId(s, d.id);
    if k == -1 then s + [d] else s[k := d]
  }

  lemma UpsertShape(s: seq<Todo>, d: Todo)
    ensures !HasId(s, d.id) ==> Upsert(s, d) == s + [d]
    ensures HasId(s, d.id) ==>
      var k := IndexOfId(s, d.id);
      && |Upsert(s, d)| == |s|
      && s[k].id == d.id
      && Upsert(s, d)[k] == d
      && forall j :: 0 <= j < |s| && j != k ==> Upsert(s, d)[j] == s[j]
  {
  }

  lemma UpsertKeepsValidIds(s: seq<Todo>, d: Todo)
    requires ValidIds(s) && d.id != ""
    ensures ValidIds(Upsert(s, d))
    ensures forall id :: HasId(Upsert(s, d), id) <==> HasId(s, id) || id == d.id
  {
    var r := Upsert(s, d);
    var k := IndexOfId(s, d.id);
    if k == -1 {
      assert r == s + [d];
      forall id ensures HasId(r, id) <==> HasId(s, id) || id == d.id {
        if HasId(r, id) {
          var i :| 0 <= i < |r| && r[i].id == id;
          if i < |s| { assert s[i].id == id; }
        }
        if id == d.id { assert r[|s|].id == id; }
        if HasId(s, id) {
          var i :| 0 <= i < |s| && s[i].id == id;
          assert r[i].id == id;
        }
      }
    } else {
      assert forall i :: 0 <= i < |s| ==> r[i].id == s[i].id;
      forall id ensures HasId(r, id) <==> HasId(s, id) || id == d.id {
        if HasId(r, id) {
          var i :| 0 <= i < |r| && r[i].id == id;
          assert s[i].id == id;
        }
        if id == d.id { assert r[k].id == id; }
        if HasId(s, id) {
          var i :| 0 <= i < |s| && s[i].id == id;
          assert r[i].id == id;
        }
      }
    }
  }

  /** The records the query matches, in list order (`filter`). */
  function Filter(s: seq<Todo>, q: Query): (r: seq<Todo>)
    ensures |r| <= |s|
  {
    if s == [] then []
    else if Matches(s[0], q) then [s[0]] + Filter(s[1..], q)
    else Filter(s[1..], q)
  }

  /** The records the query does not match, in list order: what `deleteMany` keeps. */
  function Without(s: seq<Todo>, q: Query): (r: seq<Todo>)
    ensures |r| <= |s|
  {
    if s == [] then []
    else if Matches(s[0], q) then Without(s[1..], q)
    else [s[0]] + Without(s[1..], q)
  }

  /** `a` is `b` with some elements left out and the rest in their order. */
  predicate Subsequence<T(==)>(a: seq<T>, b: seq<T>)
    decreases |b|
  {
    if a == [] then true
    else if b == [] then false
    else (a[0] == b[0] && Subsequence(a[1..], b[1..])) || Subsequence(a, b[1..])
  }

  lemma {:induction false} FilterExactly(s: seq<Todo>, q: Query)
    ensures forall d :: d in Filter(s, q) <==> d in s && Matches(d, q)
    ensures Subsequence(Filter(s, q), s)
  {
    if s != [] {
      FilterExactly(s[1..], q);
      assert s == [s[0]] + s[1..];
      if Matches(s[0], q) {
        assert Filter(s, q)[1..] == Filter(s[1..], q);
      }
    }
  }

  lemma {:induction false} FilterAll(s: seq<Todo>)
    ensures Filter(s, []) == s
  {
    if s != [] {
      FilterAll(s[1..]);
      assert s == [s[0]] + s[1..];
    }
  }

  lemma {:induction false} WithoutExactly(s: seq<Todo>, q: Query)
    ensures forall d :: d in Without(s, q) <==> d in s && !Matches(d, q)
    ensures Subsequence(Without(s, q), s)
    ensures |Filter(s, q)| + |Without(s, q)| == |s|
  {
    if s != [] {
      WithoutExactly(s[1..], q);
      assert s == [s[0]] + s[1..];
      if !Matches(s[0], q) {
        assert Without(s, q)[1..] == Without(s[1..], q);
      }
    }
  }

  lemma {:induction false} WithoutIdempotent(s: seq<Todo>, q: Query)
    ensures Without(Without(s, q), q) == Without(s, q)
  {
    if s != [] {
      WithoutIdempotent(s[1..], q);
      if !Matches(s[0], q) {
        var w := Without(s, q);
        assert w[0] == s[0] && w[1..] == Without(s[1..], q);
      }
    }
  }

  lemma {:induction false} SubsequenceKeepsValidIds(a: seq<Todo>, b: seq<Todo>)
    requires Subsequence(a, b) && ValidIds(b)
    ensures ValidIds(a)
    ensures forall id :: HasId(a, id) ==> HasId(b, id)
    decreases |b|
  {
    if a != [] {
      assert forall i :: 1 <= i < |b| ==> b[i] == b[1..][i - 1];
      if a[0] == b[0] && Subsequence(a[1..], b[1..]) {
        SubsequenceKeepsValidIds(a[1..], b[1..]);
        assert forall i :: 1 <= i < |a| ==> a[i] == a[1..][i - 1];
        forall i | 1 <= i < |a| ensures a[i].id != a[0].id {
          assert HasId(b[1..], a[i].id);
        }
        forall id | HasId(a, id) ensures HasId(b, id) {
          var i :| 0 <= i < |a| && a[i].id == id;
          if i == 0 {
            assert b[0].id == id;
          } else {
            assert HasId(a[1..], id);
            var j :| 0 <= j < |b[1..]| && b[1..][j].id == id;
            assert b[j + 1].id == id;
          }
        }
      } else {
        SubsequenceKeepsValidIds(a, b[1..]);
      }
    }
  }

  /**
   * One step of the backwards walk: with `cur` holding the untouched prefix up to
   * `i` and the kept suffix after it, splicing out the record at `i` exactly when
   * it matches leaves the untouched prefix before `i` and the kept suffix from `i`.
   */
  lemma SpliceStep(before: seq<Todo>, i: nat, q: Query, cur: seq<Todo>)
    requires i < |before|
    requires cur == before[..i + 1] + Without(before[i + 1..], q)
    ensures cur[i] == before[i]
    ensures Matches(before[i], q) ==> cur[..i] + cur[i + 1..] == before[..i] + Without(before[i..], q)
    ensures !Matches(before[i], q) ==> cur == before[..i] + Without(before[i..], q)
  {
    assert before[i..][1..] == before[i + 1..];
    assert before[..i + 1] == before[..i] + [before[i]];
    if Matches(before[i], q) {
      assert cur[..i] == before[..i];
      assert cur[i + 1..] == Without(before[i + 1..], q);
    }
  }

  lemma WithoutKeepsValidIds(s: seq<Todo>, q: Query)
    requires ValidIds(s)
    ensures ValidIds(Without(s, q))
  {
    WithoutExactly(s, q);
    SubsequenceKeepsValidIds(Without(s, q), s);
  }

  /** `findOneAndRemove`: take out the first record the query matches, if any. */
  function RemoveFirst(s: seq<Todo>, q: Query): seq<Todo> {
    var k := FirstMatch(s, q);
    if k == -1 then s else s[..k] + s[k + 1..]
  }

  lemma RemoveFirstShape(s: seq<Todo>, q: Query)
    ensures FirstMatch(s, q) == -1 ==> RemoveFirst(s, q) == s
    ensures FirstMatch(s, q) >= 0 ==>
      var k := FirstMatch(s, q);
      && |RemoveFirst(s, q)| == |s| - 1
      && (forall j :: 0 <= j < k ==> RemoveFirst(s, q)[j] == s[j])
      && (forall j :: k < j < |s| ==> RemoveFirst(s, q)[j - 1] == s[j])
  {
  }

  lemma RemoveAtKeepsValidIds(s: seq<Todo>, k: nat)
    requires ValidIds(s) && k < |s|
    ensures ValidIds(s[..k] + s[k + 1..])
    ensures !HasId(s[..k] + s[k + 1..], s[k].id)
  {
    var r := s[..k] + s[k + 1..];
    forall j | 0 <= j < |r| ensures r[j] == s[if j < k then j else j + 1] {
    }
    forall i, j | 0 <= i < j < |r| ensures r[i].id != r[j].id {
      assert r[i] == s[if i < k then i else i + 1];
    }
  }

  lemma RemoveFirstKeepsValidIds(s: seq<Todo>, q: Query)
    requires ValidIds(s)
    ensures ValidIds(RemoveFirst(s, q))
    ensures FirstMatch(s, q) >= 0 ==> !HasId(RemoveFirst(s, q), s[FirstMatch(s, q)].id)
  {
    var k := FirstMatch(s, q);
    if k >= 0 {
      assert RemoveFirst(s, q) == s[..k] + s[k + 1..];
      RemoveAtKeepsValidIds(s, k);
    } else {
      assert RemoveFirst(s, q) == s;
    }
  }

  /** A lookup by identifier sees only identifiers: lists that agree on them agree on its answer. */
  lemma FirstMatchByIdOnlySeesIds(s: seq<Todo>, t: seq<Todo>, key: Option<Id>)
    requires |s| == |t|
    requires forall j :: 0 <= j < |s| ==> s[j].id == t[j].id
    ensures FirstMatch(s, [IdIs(key)]) == FirstMatch(t, [IdIs(key)])
  {
    forall j | 0 <= j < |s| ensures Matches(s[j], [IdIs(key)]) <==> Matches(t[j], [IdIs(key)]) {
      IdQuery(s[j], key);
      IdQuery(t[j], key);
    }
  }

  /** The `task`/`completed` fields of an update object; a missing one is left alone. */
  datatype Patch = Patch(task: Option<string>, completed: Option<bool>)

  function Patched(d: Todo, p: Patch): (e: Todo)
    ensures e.id == d.id && e.createdAt == d.createdAt
    ensures p.task.None? ==> e.task == d.task
    ensures p.task.Some? ==> e.task == p.task
    ensures p.completed.None? ==> e.completed == d.completed
    ensures p.completed.Some? ==> e.completed == p.completed.value
  {
    Todo(d.id, if p.task.Some? then p.task else d.task, p.completed.GetOr(d.completed), d.createdAt)
  }

  /** `findByIdAndUpdate`: look the record up, patch the copy and save it. */
  function UpdateById(s: seq<Todo>, id: Option<Id>, p: Patch): seq<Todo> {
    var k := FirstMatch(s, [IdIs(id)]);
    if k == -1 then s else Upsert(s, Patched(s[k], p))
  }

  /** The update lands on the record's own position: nothing moves, nothing else changes. */
  lemma UpdateByIdInPlace(s: seq<Todo>, id: Option<Id>, p: Patch)
    ensures FirstMatch(s, [IdIs(id)]) == -1 ==> UpdateById(s, id, p) == s
    ensures FirstMatch(s, [IdIs(id)]) >= 0 ==>
      UpdateById(s, id, p) == s[FirstMatch(s, [IdIs(id)]) := Patched(s[FirstMatch(s, [IdIs(id)])], p)]
    ensures |UpdateById(s, id, p)| == |s|
    ensures forall j :: 0 <= j < |s| ==> UpdateById(s, id, p)[j].id == s[j].id
  {
    var k := FirstMatch(s, [IdIs(id)]);
    if k >= 0 {
      IdQuery(s[k], id);
      var d := Patched(s[k], p);
      forall j | 0 <= j < |s| ensures (Matches(s[j], [IdIs(Some(d.id))]) <==> Matches(s[j], [IdIs(id)])) {
        IdQuery(s[j], id);
        IdQuery(s[j], Some(d.id));
      }
      assert IndexOfId(s, d.id) == k;
    }
  }

  /**
   * The collection: `docs` is the module-level list. Every record reaches it
   * through `save`, which keeps identifiers unique.
   */
  class TodoStore {
    var docs: seq<Todo>

    ghost predicate Valid()
      reads this
    {
      ValidIds(docs)
    }

    constructor ()
      ensures Valid() && docs == []
    {
      docs := [];
    }

    /** `_reset`: empty the list. */
    method Reset()
      modifies this
      ensures Valid() && docs == []
    {
      docs := [];
    }

    /** `save`: the list after it is `Upsert` of the list before. */
    method Save(doc: Todo)
      requires Valid() && doc.id != ""
      modifies this
      ensures Valid()
      ensures docs == Upsert(old(docs), doc)
    {
      UpsertKeepsValidIds(docs, doc);
      var existing := IndexOfId(docs, doc.id);
      if existing == -1 {
        docs := docs + [doc];
      } else {
        docs := docs[existing := doc];
      }
    }

    /** `create`: construct a record and save it. */
    method Create(data: TodoData, freshId: Id, now: Timestamp) returns (doc: Todo)
      requires Valid() && freshId != ""
      modifies this
      ensures Valid()
      ensures doc == NewTodo(data, freshId, now)
      ensures docs == Upsert(old(docs), doc)
    {
      doc := NewTodo(data, freshId, now);
      Save(doc);
    }

    /** `find`: the matching records, in list order; the list itself is only read. */
    function Find(q: Query): (r: seq<Todo>)
      reads this
      ensures forall d :: d in r <==> d in docs && Matches(d, q)
      ensures Subsequence(r, docs)
      ensures q == [] ==> r == docs
    {
      FilterExactly(docs, q);
      FilterAll(docs);
      Filter(docs, q)
    }

    /** `findOne`: the first matching record, or null. */
    function FindOne(q: Query): (r: Option<Todo>)
      reads this
      ensures r.None? <==> forall j :: 0 <= j < |docs| ==> !Matches(docs[j], q)
      ensures r.Some? ==> exists k :: 0 <= k < |docs| && docs[k] == r.value && Matches(r.value, q)
                                      && forall j :: 0 <= j < k ==> !Matches(docs[j], q)
    {
      var k := FirstMatch(docs, q);
      if k == -1 then None else Some(docs[k])
    }

    /** `findById`: the first record whose identifier is `id`, or null. */
    function FindById(id: Option<Id>): (r: Option<Todo>)
      reads this
      ensures r.None? <==> id.None? || !HasId(docs, id.value)
      ensures r.Some? ==> id == Some(r.value.id) && r.value in docs
      ensures r.Some? ==> exists k :: 0 <= k < |docs| && docs[k] == r.value && forall j :: 0 <= j < k ==> docs[j].id != r.value.id
    {
      var k := FirstMatch(docs, [IdIs(id)]);
      assert forall j :: 0 <= j < |docs| ==> (Matches(docs[j], [IdIs(id)]) <==> id == Some(docs[j].id)) by {
        forall j | 0 <= j < |docs| { IdQuery(docs[j], id); }
      }
      if k == -1 then None else Some(docs[k])
    }

    /** `findByIdAndUpdate`: null and no change on an unknown id; else the patched record. */
    method FindByIdAndUpdate(id: Option<Id>, update: Patch) returns (r: Option<Todo>)
      requires Valid()
      modifies this
      ensures Valid()
      ensures docs == UpdateById(old(docs), id, update)
      ensures r.None? <==> old(FindById(id)).None?
      ensures r.Some? ==> r.value == Patched(old(FindById(id)).value, update)
    {
      var doc := FindById(id);
      if doc.None? {
        return None;
      }
      var d := doc.value;
      if update.task.Some? {
        d := d.(task := update.task);
      }
      if update.completed.Some? {
        d := d.(completed := update.completed.value);
      }
      Save(d);
      r := Some(d);
    }

    /** `findOneAndRemove`: remove the first match and return it, or null. */
    method FindOneAndRemove(q: Query) returns (r: Option<Todo>)
      requires Valid()
      modifies this
      ensures Valid()
      ensures docs == RemoveFirst(old(docs), q)
      ensures r.None? <==> FirstMatch(old(docs), q) == -1
      ensures r.Some? ==> r.value == old(docs)[FirstMatch(old(docs), q)]
    {
      RemoveFirstKeepsValidIds(docs, q);
      var index := FirstMatch(docs, q);
      if index == -1 {
        return None;
      }
      var removed := docs[index];
      docs := docs[..index] + docs[index + 1..];
      r := Some(removed);
    }

    /**
     * `deleteMany`: walk the list from the back and splice out every match.
     * A missing filter is the empty query, which matches every record.
     */
    method DeleteMany(filter: Option<Query>)
      requires Valid()
      modifies this
      ensures Valid()
      ensures docs == Without(old(docs), filter.GetOr([]))
    {
      var q := filter.GetOr([]);
      ghost var before := docs;
      var i := |docs| - 1;
      while i >= 0
        invariant -1 <= i < |before|
        invariant docs == before[..i + 1] + Without(before[i + 1..], q)
      {
        SpliceStep(before, i, q, docs);
        if Matches(docs[i], q) {
          docs := docs[..i] + docs[i + 1..];
        }
        i := i - 1;
      }
      assert before[..0] == [] && before[0..] == before;
      WithoutKeepsValidIds(before, q);
    }
  }
}
