/** The task schema (server/src/models/Task.js): the fields of a task, the
    `trim` setters and the validators Mongoose runs before a task is written. */
module TaskModel {
  import opened Common

  const TitleMax: nat := 200
  const DescriptionMax: nat := 1000

  /** `default: 'not-started'` of the progress path. */
  const DefaultProgress: Progress := NotStarted

  /** A stored task document; `createdAt` and `updatedAt` come from `timestamps: true`. */
  datatype Task = Task(
    id: Id,
    userId: Id,
    title: string,
    description: string,
    dueDate: Option<string>,
    progress: Progress,
    createdAt: nat,
    updatedAt: nat)

  /** The paths of a task a request may write; the owner is an ObjectId and the
      progress an enum value, so `required` and `enum` on them cannot fail. */
  datatype TaskFields = TaskFields(
    userId: Id,
    title: string,
    description: string,
    dueDate: Option<string>,
    progress: Progress)

  function FieldsOf(t: Task): TaskFields
  {
    TaskFields(t.userId, t.title, t.description, t.dueDate, t.progress)
  }

  /** The messages of the failing validators, in path order, for values the
      setters have already produced. `maxlength` counts UTF-16 code units. */
  function SchemaErrors(f: TaskFields): (errs: seq<string>)
    ensures errs == [] <==> f.title != "" && Utf16Length(f.title) <= TitleMax && Utf16Length(f.description) <= DescriptionMax
    ensures |errs| <= 2
  {
    (if f.title == "" then ["Title is required"]
     else if Utf16Length(f.title) > TitleMax then ["Title cannot exceed 200 characters"]
     else [])
    + (if Utf16Length(f.description) > DescriptionMax then ["Description cannot exceed 1000 characters"] else [])
  }

  /** Mongoose's validation of a task: the `trim` setters run, then the
      validators; the document is admitted or the messages are returned. */
  function Validate(f: TaskFields): (r: Result<TaskFields, seq<string>>)
    ensures r.Ok? ==> FieldsValid(r.value) && r.value == f.(title := Trim(f.title), description := Trim(f.description))
    ensures r.Err? ==> r.error != [] && !FieldsValid(f.(title := Trim(f.title), description := Trim(f.description)))
  {
    var cast := f.(title := Trim(f.title), description := Trim(f.description));
    var errs := SchemaErrors(cast);
    if errs == [] then Ok(cast) else Err(errs)
  }

  /** Field values the schema admits and its setters leave unchanged. */
  predicate FieldsValid(f: TaskFields)
  {
    && IsTrimmed(f.title) && f.title != "" && Utf16Length(f.title) <= TitleMax
    && IsTrimmed(f.description) && Utf16Length(f.description) <= DescriptionMax
  }

  /** Values the schema admits are admitted unchanged. */
  lemma ValidateKeepsValid(f: TaskFields)
    requires FieldsValid(f)
    ensures Validate(f) == Ok(f)
  {
    TrimOfTrimmed(f.title);
    TrimOfTrimmed(f.description);
  }

  /** A stored task as the schema admits it. */
  predicate WellFormed(t: Task)
  {
    FieldsValid(FieldsOf(t)) && t.createdAt <= t.updatedAt
  }
}
