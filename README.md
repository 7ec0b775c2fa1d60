# To-do list: task schema, in-memory collection and request handlers

This project models the core of a small server-rendered to-do list. Tasks live
in a `todos` collection. The front router has six routes; five of them are
modelled:

- GET `/` lists the tasks;
- POST `/` creates one;
- POST `/todo/destroy`, `/todo/edit` and `/todo/toggle` remove, rename or flip
  the task whose `_key` they are given.

Three parts are modelled, one module each:

- `TodoSchema` (app/models/Todo.js): the validators of `task` and the defaults
  of `completed`, `priority`, `user` and `created_at`. These are pure functions
  over a `TodoInput`, plus lemmas.
- `Store` (the in-memory collection of app/tests/todos.test.js): a class
  `TodoStore` whose field `docs: seq<Todo>` is the module-level list. Its
  methods reassign `docs` as `save`, `findByIdAndUpdate`, `findOneAndRemove`,
  `deleteMany` and `_reset` do. `deleteMany` keeps its backwards loop with
  splicing. The lookups (`find`, `findOne`, `findById`) are functions that read
  the list. Beside the class, specification functions (`Upsert`, `Filter`,
  `Without`, `RemoveFirst`, `UpdateById`) give the list after each operation.
  Lemmas prove what those leave behind. The class invariant `Valid()` says that
  identifiers are non-empty and unique.
- `Front` (app/routes/front.js): each handler is a method over a `TodoStore`.
  It returns `Redirect("/")` or `NoResponse`, and its `ensures` gives the new
  list through a specification function (`Posted`, `Destroyed`, `Edited`,
  `Toggled`). Lemmas about those functions state the handler properties.

`CrudScenarios` replays the five HTTP tests as methods on a fresh collection.

JavaScript's `undefined` is `None` of `Option`, both for missing request
fields and for missing record fields. A query object is the list of its
`key: value` entries (`Criterion`). Every entry is compared with `===`, so a
query with an undefined `_id` matches nothing. The empty query matches
everything.

The handlers do only what the code does:

- no handler answers 400 or 404. Toggle of an unknown key and edit of an
  unknown key both redirect and change nothing;
- no input is trimmed or escaped;
- edit applies no length or character rule: it goes through `findByIdAndUpdate`
  and does not run the schema's validators;
- there is no clear-completed route. The test posting to
  `/todo/clear-completed` asserts the collection-level `deleteMany({completed: true})`
  behaviour, and only that behaviour is modelled.

POST `/` saves the new record only when the schema's `task` validators accept
it. When they reject it, the error is logged, the list is unchanged and no
response is sent. The in-memory test double's own `save` never rejects. The
rejection condition of POST `/` is therefore the schema's, as with the Mongoose
model.

Identifiers and dates the code draws itself (`crypto.randomBytes`, `new Date()`)
are parameters: `freshId` and `now`.

## Model

| member | source | states |
|---|---|---|
| `TodoSchema.PatternAcceptsExactly` | app/models/Todo.js:10 | the pattern `^[^<>]*$` accepts a string exactly when no character of it is `<` or `>` |
| `TodoSchema.Utf16Length` | app/models/Todo.js:8-9 | the length the bounds compare is counted in UTF-16 code units: at least one and at most two per character |
| `TodoSchema.Utf16LengthOfBmp` | app/models/Todo.js:8-9 | a string of Basic Multilingual Plane characters has exactly one code unit per character |
| `TodoSchema.Utf16LengthOfAstral` | app/models/Todo.js:8-9 | a string of characters outside the Basic Multilingual Plane has exactly two code units per character |
| `TodoSchema.AstralTaskTooLong` | app/models/Todo.js:9 | 51 characters outside the Basic Multilingual Plane are 102 code units, so `maxlength: 100` rejects them |
| `TodoSchema.TaskError` | app/models/Todo.js:5-11 | the validators run in order and the first failure is reported; none fails exactly when the task is present, 1 to 100 code units long and free of `<`/`>`; `required` fails exactly on a missing or empty task, so `minlength` never fails; `maxlength` fails exactly above 100 code units; the pattern fails exactly on a non-empty task within the bound that holds a `<` or `>` |
| `TodoSchema.ParsePriority` | app/models/Todo.js:17-21 | only `low`, `medium` and `high` are accepted, and each parses to the priority of that name |
| `TodoSchema.PriorityRoundTrip` | app/models/Todo.js:17-21 | printing a priority and parsing it back gives the same priority |
| `TodoSchema.Build` | app/models/Todo.js:4-33 | a document is built exactly when the task is valid and a given priority is in the enum; a rejected one reports the first failed `task` validator exactly when the task is invalid (and no other `task` failure), and the enum failure exactly when the given priority is not in the enum; `completed` defaults to false, `priority` to medium, `user` to "unassigned", `created_at` to the schema's build-time value; given values are kept |
| `TodoSchema.DefaultsOfMinimalInput` | app/models/Todo.js:12-32 | a document built from a valid task alone is not completed, medium priority, without due date, owned by "unassigned" and stamped with the schema's time |
| `TodoSchema.DefaultCreatedAtShared` | app/models/Todo.js:29-32 | every document stamped by the default shares the one `created_at` computed when the schema was built |
| `Store.NewTodo` | app/tests/todos.test.js:20-25 | the constructor keeps a given non-empty id, else takes the fresh one; keeps `task`; sets `completed` to false when not supplied and keeps an explicit value; takes `now` only when no date is supplied |
| `Store.CopyPreserves` | app/tests/todos.test.js:9-14 | copying a stored record through the constructor returns exactly its `_id`, `task`, `completed` and `created_at` |
| `Store.Matches` | app/tests/todos.test.js:16-17 | a record matches exactly when every entry of the query holds of it; the empty query matches every record |
| `Store.FirstMatch` | app/tests/todos.test.js:29 | the result is -1 exactly when no record matches; otherwise it is the index of a matching record with no match before it |
| `Store.UpsertShape` | app/tests/todos.test.js:27-33 | saving a record with a new id appends it at the end; saving one whose id is stored replaces the record at that index, keeps the length, and changes no other record |
| `Store.UpsertKeepsValidIds` | app/tests/todos.test.js:27-33 | saving keeps the stored ids non-empty and pairwise distinct, and the ids afterwards are those before plus the saved one |
| `Store.Filter` | app/tests/todos.test.js:50 | the filtered list is no longer than the list |
| `Store.FilterExactly` | app/tests/todos.test.js:49-54 | a record is in the filtered list exactly when it is stored and matches; the filtered list keeps list order |
| `Store.FilterAll` | app/tests/todos.test.js:49-54 | filtering by the empty query returns the whole list |
| `Store.Without` | app/tests/todos.test.js:82-89 | the list kept by deletion is no longer than the list |
| `Store.WithoutExactly` | app/tests/todos.test.js:82-89 | a record is kept exactly when it is stored and does not match; kept records keep their relative order; kept and matching records together account for the whole list |
| `Store.WithoutIdempotent` | app/tests/todos.test.js:82-89 | deleting the same matches a second time changes nothing |
| `Store.SubsequenceKeepsValidIds` | app/tests/todos.test.js:82-89 | a list obtained by leaving records out keeps ids unique and non-empty and has no id the original lacks |
| `Store.RemoveFirstShape` | app/tests/todos.test.js:75-80 | with no match the list is unchanged; otherwise it shrinks by exactly one, the records before the first match stay in place and those after it move up by one |
| `Store.RemoveFirstKeepsValidIds` | app/tests/todos.test.js:75-80 | removal keeps ids unique, and the removed record's id is no longer stored |
| `Store.FirstMatchByIdOnlySeesIds` | app/tests/todos.test.js:61-64 | a lookup by id gives the same index on two lists that agree on their ids |
| `Store.Patched` | app/tests/todos.test.js:69-70 | an update changes `task` only when it defines one and `completed` only when it defines one; `_id` and `created_at` are kept |
| `Store.UpdateByIdInPlace` | app/tests/todos.test.js:66-73 | on an unknown id the list is unchanged; otherwise only the found record is replaced by its patched copy, at the same index; length and every id are kept |
| `Store.TodoStore.constructor` | app/tests/todos.test.js:7 | the collection starts empty |
| `Store.TodoStore.Reset` | app/tests/todos.test.js:39-41 | the list is emptied |
| `Store.TodoStore.Save` | app/tests/todos.test.js:27-33 | the new list is `Upsert` of the old one, and ids stay unique |
| `Store.TodoStore.Create` | app/tests/todos.test.js:43-47 | the constructed record is saved and returned |
| `Store.TodoStore.Find` | app/tests/todos.test.js:49-54 | returns exactly the stored records the query matches, in list order; the empty query returns the whole list; the list is only read |
| `Store.TodoStore.FindOne` | app/tests/todos.test.js:56-59 | null exactly when nothing matches; otherwise the first matching stored record |
| `Store.TodoStore.FindById` | app/tests/todos.test.js:61-64 | null exactly when the id is undefined or not stored; otherwise the first stored record with that id |
| `Store.TodoStore.FindByIdAndUpdate` | app/tests/todos.test.js:66-73 | null and no change on an unknown id; otherwise returns the patched record, and the list is `UpdateById` of the old one |
| `Store.TodoStore.FindOneAndRemove` | app/tests/todos.test.js:75-80 | null and no change when nothing matches; otherwise returns the first match, and the list is the old one without it |
| `Store.TodoStore.DeleteMany` | app/tests/todos.test.js:82-89 | the backwards splicing loop leaves exactly `Without` of the old list; a missing filter removes every record |
| `Front.Index` | app/routes/front.js:7-12 | GET / lists every stored task in list order and changes nothing |
| `Front.PostTask` | app/routes/front.js:20-29 | redirects exactly when the task is valid; the list becomes `Posted` of the old one |
| `Front.PostedShape` | app/routes/front.js:20-29 | a valid task is appended as one new record holding that task, not completed; any other task leaves the list unchanged |
| `Front.Destroy` | app/routes/front.js:32-36 | always redirects; the list becomes `Destroyed` of the old one |
| `Front.DestroyTwiceIsNoop` | app/routes/front.js:32-36 | after a destroy the key is no longer stored, so a second destroy of the same key changes nothing |
| `Front.Edit` | app/routes/front.js:39-44 | always redirects; the list becomes `Edited` of the old one |
| `Front.EditReplacesOnlyTask` | app/routes/front.js:39-44 | only the keyed record's `task` is replaced, in place; an unknown key or a missing task changes nothing; no record is created or removed |
| `Front.Toggle` | app/routes/front.js:47-55 | always redirects; the list becomes `Toggled` of the old one |
| `Front.ToggleFlipsOnlyKeyed` | app/routes/front.js:47-55 | an unknown key changes nothing; otherwise only the keyed record's `completed` is negated, in place, and every other record is unchanged |
| `Front.ToggleTwiceRestores` | app/routes/front.js:47-55 | toggling the same key twice restores the list exactly |
| `Front.ClearCompletedKeepsExactlyOpen` | app/tests/todos.test.js:159-175 | deleting `{completed: true}` keeps exactly the not completed records, in their order; doing it twice is the same as once |
| `CrudScenarios.CreatesTodo` | app/tests/todos.test.js:103-115 | POST / with "Buy milk" redirects, and a stored record then holds "Buy milk", not completed |
| `CrudScenarios.EditsTodo` | app/tests/todos.test.js:117-129 | POST /todo/edit redirects, and the record then holds "New task" |
| `CrudScenarios.TogglesTodo` | app/tests/todos.test.js:131-143 | POST /todo/toggle redirects, and the new record is then completed |
| `CrudScenarios.DestroysTodo` | app/tests/todos.test.js:145-157 | POST /todo/destroy redirects, and the record is then gone |
| `CrudScenarios.ClearsCompleted` | app/tests/todos.test.js:159-175 | of two completed tasks and one open task, only the open one remains after deleting `{completed: true}` |

## Left out

- Express wiring, body parsing, live reload, the database connection and `listen` (app/server.js) are I/O plumbing. So are the smoke-test client (app/scripts/smoke.js) and the configuration files.
- GET `/health`, EJS rendering and every HTTP status other than "redirect sent" or "nothing sent" are left out. `Front.Index` returns the list as it is; the `{}` that GET `/` substitutes for an empty result only affects rendering, which is left out.
- Promises and `await`: every store call is one sequential step.
- `crypto.randomBytes` and `new Date()` are the caller-supplied `freshId` and `now`. A `freshId` that collides with a stored id is not excluded; the model then upserts, as the code would.
- `clone` and `lean` are the identity on a record value: a `Todo` has exactly the four copied fields, and copies cannot alias. `Store.CopyPreserves` states the copy property.
- Query keys other than `_id`, `task` and `completed` are left out. This includes `created_at`, whose `===` compares `Date` objects by reference.
- Mongoose internals are left out: casting `_key` to an ObjectId and `CastError`; casting a non-boolean `completed`; whether validators run on `findByIdAndUpdate` and on the save inside toggle. The model runs none there.
- `Front.PostTask` stamps the new record with `now`, as the in-memory constructor does. The Mongoose model would stamp it with the schema's build-time value, which `TodoSchema.Build` models.
- `due_date` is carried by `TodoSchema.TodoDoc` but never set by a handler.
- `Store.Filter`: its own contract states only the length bound. Membership and order are in `Store.FilterExactly`.
- `Store.Without`: its own contract states only the length bound. Membership, order and idempotence are in `Store.WithoutExactly` and `Store.WithoutIdempotent`.
