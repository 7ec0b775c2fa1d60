/**
 * The `todos` document schema: the field constraints on `task` and the
 * defaults of `completed`, `priority`, `user` and `created_at`.
 */
module TodoSchema {
  import opened Common

  const MinTaskLength: nat := 1
  const MaxTaskLength: nat := 100
  const DefaultUser: string := "unassigned"

  datatype Priority = Low | Medium | High

  /** One failed validator; a rejected document reports the first failure of each path. */
  datatype Violation =
    | TaskRequired       // `required: true`
    | TaskTooShort       // `minlength: 1`
    | TaskTooLong        // `maxlength: 100`
    | TaskPattern        // `match: /^[^<>]*$/`
    | PriorityNotInEnum  // `enum: ['low', 'medium', 'high']`

  /**
   * The schema object. Its `created_at` default is `Date.now()` evaluated once,
   * when the schema is built, so it is a value of the schema, not of a document.
   */
  datatype Schema = Schema(builtAt: Timestamp)

  /** What `new Todo(data)` is given: every field may be left out. */
  datatype TodoInput = TodoInput(
    task: Option<string>,
    completed: Option<bool>,
    priority: Option<string>,
    dueDate: Option<Timestamp>,
    user: Option<string>,
    createdAt: Option<Timestamp>)

  /** A document that passed validation, with every default filled in. */
  datatype TodoDoc = TodoDoc(
    task: string,
    completed: bool,
    priority: Priority,
    dueDate: Option<Timestamp>,
    user: string,
    createdAt: Timestamp)

  predicate Forbidden(c: char) {
    c == '<' || c == '>'
  }

  /** The number of UTF-16 code units of `c`: two for a character outside the Basic Multilingual Plane. */
  function Utf16Units(c: char): nat {
    if c as int >= 0x1_0000 then 2 else 1
  }

  /**
   * The JavaScript `length` of `s`, which the length validators compare: it
   * counts UTF-16 code units, not characters.
   */
  function Utf16Length(s: string): (n: nat)
    ensures |s| <= n <= 2 * |s|
  {
    if s == [] then 0 else Utf16Units(s[0]) + Utf16Length(s[1..])
  }

  /** A string of characters of the Basic Multilingual Plane has one code unit per character. */
  lemma {:induction false} Utf16LengthOfBmp(s: string)
    requires forall i :: 0 <= i < |s| ==> s[i] as int < 0x1_0000
    ensures Utf16Length(s) == |s|
  {
    if s != [] {
      assert forall i :: 0 <= i < |s[1..]| ==> s[1..][i] == s[i + 1];
      Utf16LengthOfBmp(s[1..]);
    }
  }

  /** A string made only of characters outside the Basic Multilingual Plane has two code units per character. */
  lemma {:induction false} Utf16LengthOfAstral(s: string)
    requires forall i :: 0 <= i < |s| ==> s[i] as int >= 0x1_0000
    ensures Utf16Length(s) == 2 * |s|
  {
    if s != [] {
      assert forall i :: 0 <= i < |s[1..]| ==> s[1..][i] == s[i + 1];
      Utf16LengthOfAstral(s[1..]);
    }
  }

  /**
   * The reference definition of an acceptable task: present, 1 to 100 UTF-16
   * code units long, no `<` or `>`.
   */
  predicate ValidTask(task: Option<string>) {
    && task.Some?
    && MinTaskLength <= Utf16Length(task.value) <= MaxTaskLength
    && forall i :: 0 <= i < |task.value| ==> !Forbidden(task.value[i])
  }

  /**
   * Whether the anchored pattern `^[^<>]*$` matches `s`: the character class
   * `[^<>]` is matched against each character in turn, from the first to the last.
   * Neither half of a surrogate pair is `<` or `>`, so matching by character and
   * matching by code unit agree.
   */
  function PatternAccepts(s: string): bool {
    s == [] || (!Forbidden(s[0]) && PatternAccepts(s[1..]))
  }

  lemma {:induction false} PatternAcceptsExactly(s: string)
    ensures PatternAccepts(s) <==> forall i :: 0 <= i < |s| ==> !Forbidden(s[i])
  {
    if s != [] {
      PatternAcceptsExactly(s[1..]);
      assert forall i :: 1 <= i < |s| ==> s[i] == s[1..][i - 1];
    }
  }

  /**
   * The validators of `task`, run in their order (`required`, `minlength`,
   * `maxlength`, `match`) up to the first that fails, which is the one reported.
   * `required` on a string rejects a missing value and the empty string, so
   * `minlength: 1` never gets to fail.
   */
  function TaskError(task: Option<string>): (e: Option<Violation>)
    ensures e.None? <==> ValidTask(task)
    ensures e == Some(TaskRequired) <==> task.None? || task.value == ""
    ensures e != Some(TaskTooShort)
    ensures e == Some(TaskTooLong) <==> task.Some? && Utf16Length(task.value) > MaxTaskLength
    ensures e == Some(TaskPattern) <==>
      && task.Some? && task.value != "" && Utf16Length(task.value) <= MaxTaskLength
      && exists i :: 0 <= i < |task.value| && Forbidden(task.value[i])
    ensures e != Some(PriorityNotInEnum)
  {
    match task
    case None => Some(TaskRequired)
    case Some(t) =>
      PatternAcceptsExactly(t);
      if t == "" then Some(TaskRequired)
      else if Utf16Length(t) < MinTaskLength then Some(TaskTooShort)
      else if Utf16Length(t) > MaxTaskLength then Some(TaskTooLong)
      else if !PatternAccepts(t) then Some(TaskPattern)
      else None
  }

  /**
   * The length bounds count code units: 51 characters outside the Basic
   * Multilingual Plane are 102 code units, so such a task is too long.
   */
  lemma AstralTaskTooLong(t: string)
    requires |t| == 51 && forall i :: 0 <= i < |t| ==> t[i] as int >= 0x1_0000
    ensures Utf16Length(t) == 102
    ensures !ValidTask(Some(t)) && TaskError(Some(t)) == Some(TaskTooLong)
  {
    Utf16LengthOfAstral(t);
  }

  function PriorityName(p: Priority): string {
    match p
    case Low => "low"
    case Medium => "medium"
    case High => "high"
  }

  /** The `enum` validator of `priority`: only the three names are accepted. */
  function ParsePriority(s: string): (r: Option<Priority>)
    ensures r.Some? <==> s == "low" || s == "medium" || s == "high"
    ensures r.Some? ==> PriorityName(r.value) == s
  {
    if s == "low" then Some(Low)
    else if s == "medium" then Some(Medium)
    else if s == "high" then Some(High)
    else None
  }

  lemma PriorityRoundTrip(p: Priority)
    ensures ParsePriority(PriorityName(p)) == Some(p)
  {
  }

  /** The failures of one validation: at most one per path, from `task` and from `priority`. */
  function Violations(input: TodoInput): set<Violation> {
    (if TaskError(input.task).Some? then {TaskError(input.task).value} else {})
    + (if input.priority.Some? && ParsePriority(input.priority.value).None? then {PriorityNotInEnum} else {})
  }

  /**
   * `new Todo(input)` followed by validation: the document with its defaults,
   * or the failed validator of each path that has one.
   */
  function Build(schema: Schema, input: TodoInput): (r: Result<TodoDoc, set<Violation>>)
    ensures r.Ok? <==> ValidTask(input.task) && (input.priority.Some? ==> ParsePriority(input.priority.value).Some?)
    ensures r.Err? ==> r.error != {}
    ensures r.Err? && !ValidTask(input.task) ==> TaskError(input.task).value in r.error
    ensures r.Err? ==> (PriorityNotInEnum in r.error <==> input.priority.Some? && ParsePriority(input.priority.value).None?)
    ensures r.Err? ==> forall v, w :: v in r.error && w in r.error && v != PriorityNotInEnum && w != PriorityNotInEnum ==> v == w
    ensures r.Err? ==> forall v :: v in r.error && v != PriorityNotInEnum ==> TaskError(input.task) == Some(v)
    ensures r.Ok? ==> Some(r.value.task) == input.task && ValidTask(Some(r.value.task))
    ensures r.Ok? && input.completed.None? ==> !r.value.completed
    ensures r.Ok? && input.completed.Some? ==> r.value.completed == input.completed.value
    ensures r.Ok? && input.priority.None? ==> r.value.priority == Medium
    ensures r.Ok? && input.priority.Some? ==> PriorityName(r.value.priority) == input.priority.value
    ensures r.Ok? ==> r.value.dueDate == input.dueDate
    ensures r.Ok? && input.user.None? ==> r.value.user == DefaultUser
    ensures r.Ok? && input.user.Some? ==> r.value.user == input.user.value
    ensures r.Ok? && input.createdAt.None? ==> r.value.createdAt == schema.builtAt
    ensures r.Ok? && input.createdAt.Some? ==> r.value.createdAt == input.createdAt.value
  {
    var v := Violations(input);
    if v != {} then Err(v)
    else
      Ok(TodoDoc(
        input.task.value,
        input.completed.GetOr(false),
        if input.priority.Some? then ParsePriority(input.priority.value).value else Medium,
        input.dueDate,
        input.user.GetOr(DefaultUser),
        input.createdAt.GetOr(schema.builtAt)))
  }

  /** A document built from nothing but a task gets every default. */
  lemma DefaultsOfMinimalInput(schema: Schema, task: string)
    requires ValidTask(Some(task))
    ensures Build(schema, TodoInput(Some(task), None, None, None, None, None))
            == Ok(TodoDoc(task, false, Medium, None, DefaultUser, schema.builtAt))
  {
  }

  /** Every document stamped by the default shares the one `created_at` of its schema. */
  lemma DefaultCreatedAtShared(schema: Schema, a: TodoInput, b: TodoInput)
    requires Build(schema, a).Ok? && Build(schema, b).Ok?
    requires a.createdAt.None? && b.createdAt.None?
    ensures Build(schema, a).value.createdAt == Build(schema, b).value.createdAt == schema.builtAt
  {
  }
}
