/** Shared data model of the todo application: records, inputs, the response envelope,
    the sort configuration, and the values a `catch` block can receive. */
module Types {

  datatype Option<T> = None | Some(value: T) {
    function GetOr(default: T): T {
      match this
      case Some(v) => v
      case None => default
    }
  }

  datatype Result<T, E> = Success(value: T) | Failure(error: E)

  /** The three priorities, in the order the validation messages list them. */
  datatype Priority = High | Medium | Low

  /** The four statuses, in the order the validation messages list them. */
  datatype Status = NotStarted | InProgress | Done | Canceled

  const PriorityNames: seq<string> := ["High", "Medium", "Low"]
  const StatusNames: seq<string> := ["Not Started", "In Progress", "Done", "Canceled"]

  function PriorityName(p: Priority): (s: string)
    ensures s in PriorityNames
  {
    match p
    case High => "High"
    case Medium => "Medium"
    case Low => "Low"
  }

  function StatusName(st: Status): (s: string)
    ensures s in StatusNames
  {
    match st
    case NotStarted => "Not Started"
    case InProgress => "In Progress"
    case Done => "Done"
    case Canceled => "Canceled"
  }

  /** Reads a priority from its wire name; exactly the three names are accepted. */
  function ParsePriority(s: string): (r: Option<Priority>)
    ensures r.Some? <==> s in PriorityNames
    ensures r.Some? ==> PriorityName(r.value) == s
  {
    if s == "High" then Some(High)
    else if s == "Medium" then Some(Medium)
    else if s == "Low" then Some(Low)
    else None
  }

  /** Reads a status from its wire name; exactly the four names are accepted. */
  function ParseStatus(s: string): (r: Option<Status>)
    ensures r.Some? <==> s in StatusNames
    ensures r.Some? ==> StatusName(r.value) == s
  {
    if s == "Not Started" then Some(NotStarted)
    else if s == "In Progress" then Some(InProgress)
    else if s == "Done" then Some(Done)
    else if s == "Canceled" then Some(Canceled)
    else None
  }

  /** Names and values correspond one to one: there are exactly three priorities
      and four statuses, each with its own name. */
  lemma NamesRoundTrip(p: Priority, st: Status)
    ensures ParsePriority(PriorityName(p)) == Some(p)
    ensures ParseStatus(StatusName(st)) == Some(st)
    ensures |PriorityNames| == 3 && |StatusNames| == 4
    ensures forall i, j :: 0 <= i < j < |PriorityNames| ==> PriorityNames[i] != PriorityNames[j]
    ensures forall i, j :: 0 <= i < j < |StatusNames| ==> StatusNames[i] != StatusNames[j]
  {
  }

  /** A stored todo record; dates are ISO 8601 strings. */
  datatype TodoItem = TodoItem(
    id: string,
    description: string,
    dueDate: string,
    priority: Priority,
    status: Status,
    createdAt: string,
    updatedAt: string)

  /** A todo record without its server-assigned id and timestamps. */
  datatype CreateTodoInput = CreateTodoInput(
    description: string,
    dueDate: string,
    priority: Priority,
    status: Status)

  /** A partial update: `None` is a field the caller left undefined. */
  datatype UpdateTodoInput = UpdateTodoInput(
    description: Option<string>,
    dueDate: Option<string>,
    priority: Option<Priority>,
    status: Option<Status>)

  /** The JSON-like values that appear under `details`. */
  datatype Value =
    | Str(s: string)
    | List(items: seq<Value>)
    | Record(fields: seq<Field>)
    | Raised(error: Thrown)           // the caught error object itself

  datatype Field = Field(key: string, value: Value)

  /** What a `catch` block can receive.
      - ErrorInstance: an `Error` (or subclass) instance; `name` and `message` always resolve,
        through the prototype chain if not as own properties; `code` is an own property if any.
      - PlainObject: any other non-null object; `None` is a key that is absent.
      - NonObject: null, undefined, a string, a number...; `text` is `String(value)`. */
  datatype Thrown =
    | ErrorInstance(name: string, message: string, code: Option<string>, stack: Option<string>)
    | PlainObject(objName: Option<string>, objMessage: Option<string>, objCode: Option<string>,
                  objDetails: Option<Value>, objStack: Option<string>)
    | NonObject(text: string)

  /** `String(value)`: `Error.prototype.toString` for errors, `[object Object]` for plain
      objects, the value's own text otherwise. */
  function StringOf(e: Thrown): string {
    match e
    case ErrorInstance(name, message, _, _) =>
      if message == "" then name else if name == "" then message else name + ": " + message
    case PlainObject(_, _, _, _, _) => "[object Object]"
    case NonObject(text) => text
  }

  /** The code given to errors of no known kind. */
  const UnknownCode: string := "UNKNOWN_ERROR"

  /** The error half of the envelope; only `message` is mandatory. */
  datatype ApiError = ApiError(message: string, code: Option<string>, details: Option<Value>,
                               stack: Option<string>)
  {
    /** The value a `throw apiError` hands to the enclosing `catch`: a plain object
        with no `name` key. */
    function AsThrown(): (t: Thrown)
      ensures t.PlainObject? && t.objName.None?
      ensures t.objMessage == Some(message) && t.objCode == code
    {
      PlainObject(None, Some(message), code, details, stack)
    }
  }

  /** The uniform response envelope. */
  datatype ApiResponse<T> = ApiResponse(success: bool, data: Option<T>, error: Option<ApiError>)

  datatype ExportResponse = ExportResponse(downloadUrl: string, expiresAt: string, fileName: string)

  /** The five sortable columns and the two directions. */
  datatype SortField = ByDescription | ByDueDate | ByPriority | ByStatus | ByCreatedAt
  datatype SortDirection = Asc | Desc
  datatype SortConfig = SortConfig(field: SortField, direction: SortDirection)

  type FeatureFlags = map<string, bool>
}
