/** The `/api/todos` handlers: `GET` lists the table, `POST` validates a body in a fixed
    order and creates a todo. The JSON body, the date parser, the uuid and the clock are
    parameters. */
module TodosRoute {
  import opened Types
  import AwsErrors
  import ErrorHandler
  import DynamoDb

  /** The parsed request body; `None` is an absent key, `keys` is `Object.keys(body)`. */
  datatype CreateBody = CreateBody(description: Option<string>, dueDate: Option<string>,
                                   priority: Option<string>, status: Option<string>,
                                   keys: seq<string>)

  /** `!body.x` for a string field: absent or empty. */
  predicate Falsy(field: Option<string>) {
    field.None? || field.value == ""
  }

  predicate AllPresent(body: CreateBody) {
    !Falsy(body.description) && !Falsy(body.dueDate) && !Falsy(body.priority) && !Falsy(body.status)
  }

  /** `new Date(s)` followed by `toISOString()`: the canonical form, `None` for an
      unparsable date. */
  type DateParser = string -> Option<string>

  const ValidationCode: string := "VALIDATION_ERROR"
  const MissingFieldsMessage: string := "Missing required fields"
  const InvalidPriorityMessage: string := "Invalid priority value"
  const InvalidStatusMessage: string := "Invalid status value"
  const InvalidDateMessage: string := "Invalid due date format"
  const RequiredFields: seq<string> := ["description", "dueDate", "priority", "status"]

  function Strs(names: seq<string>): (v: Value)
    ensures v.List? && |v.items| == |names|
  {
    List(seq(|names|, i requires 0 <= i < |names| => Str(names[i])))
  }

  function ValidationError(message: string, details: seq<Field>): ApiError {
    ApiError(message, Some(ValidationCode), Some(Record(details)), None)
  }

  function MissingFields(body: CreateBody): ApiError {
    ValidationError(MissingFieldsMessage, [Field("required", Strs(RequiredFields)), Field("received", Strs(body.keys))])
  }

  function InvalidPriority(received: string): ApiError {
    ValidationError(InvalidPriorityMessage, [Field("valid", Strs(PriorityNames)), Field("received", Str(received))])
  }

  function InvalidStatus(received: string): ApiError {
    ValidationError(InvalidStatusMessage, [Field("valid", Strs(StatusNames)), Field("received", Str(received))])
  }

  function InvalidDate(received: string): ApiError {
    ValidationError(InvalidDateMessage,
                    [Field("hint", Str("Please provide a valid ISO 8601 date string")), Field("received", Str(received))])
  }

  /** The validation chain of `POST`: required fields, then priority, then status, then
      the date; the first failing check decides. */
  function ValidateCreate(body: CreateBody, parseDate: DateParser): (r: Result<CreateTodoInput, ApiError>)
    ensures !AllPresent(body) ==> r == Failure(MissingFields(body))
    ensures AllPresent(body) && body.priority.value !in PriorityNames ==>
      r == Failure(InvalidPriority(body.priority.value))
    ensures AllPresent(body) && body.priority.value in PriorityNames && body.status.value !in StatusNames ==>
      r == Failure(InvalidStatus(body.status.value))
    ensures AllPresent(body) && body.priority.value in PriorityNames && body.status.value in StatusNames
            && parseDate(body.dueDate.value).None? ==>
      r == Failure(InvalidDate(body.dueDate.value))
    ensures r.Success? <==>
      AllPresent(body) && body.priority.value in PriorityNames && body.status.value in StatusNames
      && parseDate(body.dueDate.value).Some?
    ensures r.Failure? ==> r.error.code == Some(ValidationCode)
    ensures r.Success? ==>
      && r.value.description == body.description.value
      && r.value.dueDate == parseDate(body.dueDate.value).value
      && PriorityName(r.value.priority) == body.priority.value
      && StatusName(r.value.status) == body.status.value
  {
    if !AllPresent(body) then Failure(MissingFields(body))
    else
      match (ParsePriority(body.priority.value), ParseStatus(body.status.value), parseDate(body.dueDate.value))
      case (None, _, _) => Failure(InvalidPriority(body.priority.value))
      case (Some(_), None, _) => Failure(InvalidStatus(body.status.value))
      case (Some(_), Some(_), None) => Failure(InvalidDate(body.dueDate.value))
      case (Some(p), Some(s), Some(iso)) => Success(CreateTodoInput(body.description.value, iso, p, s))
  }

  /** A validation error goes through `createErrorResponse(…, 400)` unchanged. */
  lemma ValidationEnvelope(e: ApiError, development: bool)
    requires e.code == Some(ValidationCode)
    ensures ErrorHandler.CreateErrorResponse<TodoItem>(e.AsThrown(), 400, development).body.error == Some(e)
  {
    ErrorHandler.ApiErrorPassesThrough(e, development);
  }

  /** `POST /api/todos`. `body` is the outcome of `request.json()`. */
  method PostTodos(store: DynamoDb.RecordStore, body: Result<CreateBody, Thrown>, parseDate: DateParser,
                   newId: string, now: string, fault: Option<Thrown>)
    returns (resp: ErrorHandler.Response<TodoItem>)
    requires store.Valid()
    modifies store
    ensures store.Valid()
    ensures body.Failure? ==>
      store.items == old(store.items)
      && resp == ErrorHandler.CreateErrorResponse(body.error, 500, store.development)
    ensures body.Success? && ValidateCreate(body.value, parseDate).Failure? ==>
      store.items == old(store.items)
      && resp == ErrorHandler.Response(400, ApiResponse(false, None, Some(ValidateCreate(body.value, parseDate).error)))
    ensures body.Success? && ValidateCreate(body.value, parseDate).Success? ==>
      var input := ValidateCreate(body.value, parseDate).value;
      && (fault.None? && newId !in old(store.items) ==>
            store.items == old(store.items)[newId := DynamoDb.NewTodo(input, newId, now)]
            && resp == ErrorHandler.Response(201, ApiResponse(true, Some(DynamoDb.NewTodo(input, newId, now)), None)))
      && (fault.None? && newId in old(store.items) ==>
            store.items == old(store.items)
            && resp == ErrorHandler.Response(500, ApiResponse(false, None,
                         Some(AwsErrors.Normalized(DynamoDb.ConditionalCheckFailed, DynamoDb.DynamoTexts, store.development)))))
      && (fault.Some? ==>
            store.items == old(store.items)
            && resp == ErrorHandler.Response(500, ApiResponse(false, None,
                         Some(AwsErrors.Normalized(fault.value, DynamoDb.DynamoTexts, store.development)))))
  {
    if body.Failure? {
      return ErrorHandler.CreateErrorResponse(body.error, ErrorHandler.DefaultErrorStatus, store.development);
    }
    var checked := ValidateCreate(body.value, parseDate);
    if checked.Failure? {
      ValidationEnvelope(checked.error, store.development);
      return ErrorHandler.CreateErrorResponse(checked.error.AsThrown(), 400, store.development);
    }
    var created := store.CreateTodo(checked.value, newId, now, fault);
    match created {
      case Success(todo) =>
        resp := ErrorHandler.CreateSuccessResponse(todo, 201);
      case Failure(e) =>
        ErrorHandler.ApiErrorPassesThrough(e, store.development);
        resp := ErrorHandler.CreateErrorResponse(e.AsThrown(), ErrorHandler.DefaultErrorStatus, store.development);
    }
  }

  /** `GET /api/todos`: 200 with every stored todo, or 500 with the normalised error. */
  method GetTodos(store: DynamoDb.RecordStore, fault: Option<Thrown>)
    returns (resp: ErrorHandler.Response<seq<TodoItem>>)
    requires store.Valid()
    ensures fault.None? ==>
      resp.status == 200 && resp.body.success && resp.body.data.Some? && resp.body.error.None?
      && DynamoDb.Lists(resp.body.data.value, store.items)
    ensures fault.Some? ==>
      resp == ErrorHandler.Response(500, ApiResponse(false, None,
                Some(AwsErrors.Normalized(fault.value, DynamoDb.DynamoTexts, store.development))))
  {
    var todos := store.GetAllTodos(fault);
    match todos {
      case Success(list) =>
        resp := ErrorHandler.CreateSuccessResponse(list, ErrorHandler.DefaultSuccessStatus);
      case Failure(e) =>
        ErrorHandler.ApiErrorPassesThrough(e, store.development);
        resp := ErrorHandler.CreateErrorResponse(e.AsThrown(), ErrorHandler.DefaultErrorStatus, store.development);
    }
  }
}
