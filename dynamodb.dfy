/** The record-store adapter over a DynamoDB table keyed by `id`. The table is modelled as a
    map held in a class; every call to the service may instead throw, which the methods
    take as a `fault` parameter (`None`: the service answered). */
module DynamoDb {
  import opened Types
  import opened Strings
  import AwsErrors

  const DynamoTexts: AwsErrors.ErrorTexts :=
    AwsErrors.ErrorTexts("Database operation failed", "AWS service error occurred",
                         "An unexpected error occurred")

  const ConditionalCheckFailedName: string := "ConditionalCheckFailedException"

  /** What the SDK throws when a write's condition expression is false. */
  const ConditionalCheckFailed: Thrown :=
    ErrorInstance(ConditionalCheckFailedName, "The conditional request failed", None, None)

  /** The test in the `catch` of update and delete. */
  predicate IsConditionalCheckFailure(e: Thrown) {
    e.ErrorInstance? && e.name == ConditionalCheckFailedName
  }

  /** `handleDynamoDBError`: starts from a default error and overwrites its fields. */
  method HandleDynamoDBError(error: Thrown, development: bool) returns (apiError: ApiError)
    ensures apiError == AwsErrors.Normalized(error, DynamoTexts, development)
  {
    apiError := ApiError(DynamoTexts.initial, Some(UnknownCode), Some(Record([])), None);
    if AwsErrors.IsAwsError(error) {
      apiError := apiError.(code := Some(AwsErrors.NameOf(error)));
      apiError := apiError.(message := AwsErrors.MessageOr(error, DynamoTexts.awsFallback));
      apiError := apiError.(details := Some(Raised(error)));
      if development {
        apiError := apiError.(stack := AwsErrors.StackOf(error));
      }
    } else if error.ErrorInstance? {
      // `error instanceof Error`: every Error instance has already passed `IsAwsError`.
      assert false;
    } else {
      apiError := apiError.(message := DynamoTexts.unexpected);
      apiError := apiError.(details := Some(Str(StringOf(error))));
    }
  }

  // ---------------------------------------------------------------------------------
  // The partial-update request.
  function NameKey(attr: string): string { "#" + attr }
  function ValueKey(attr: string): string { ":" + attr }
  function Assignment(attr: string): string { NameKey(attr) + " = " + ValueKey(attr) }

  /** `[x]` when `c` holds, nothing otherwise. */
  function When(c: bool, x: string): seq<string> {
    if c then [x] else []
  }

  /** The attributes an update writes, in the order their parts are appended: `updatedAt`
      always, then each provided field. */
  function UpdatedAttributes(input: UpdateTodoInput): (attrs: seq<string>)
    ensures |attrs| > 0 && attrs[0] == "updatedAt"
  {
    ["updatedAt"]
    + When(input.description.Some?, "description")
    + When(input.dueDate.Some?, "dueDate")
    + When(input.priority.Some?, "priority")
    + When(input.status.Some?, "status")
  }

  /** The values bound to those attributes, position by position. */
  function UpdatedValues(input: UpdateTodoInput, now: string): (vals: seq<string>)
    ensures |vals| == |UpdatedAttributes(input)| && vals[0] == now
  {
    [now]
    + When(input.description.Some?, input.description.GetOr(""))
    + When(input.dueDate.Some?, input.dueDate.GetOr(""))
    + When(input.priority.Some?, PriorityName(input.priority.GetOr(High)))
    + When(input.status.Some?, StatusName(input.status.GetOr(NotStarted)))
  }

  predicate Distinct(attrs: seq<string>) {
    forall i, j :: 0 <= i < j < |attrs| ==> attrs[i] != attrs[j]
  }

  /** Each attribute is written at most once, and only the five updatable ones are. */
  lemma UpdatedAttributesDistinct(input: UpdateTodoInput)
    ensures Distinct(UpdatedAttributes(input))
    ensures forall a :: a in UpdatedAttributes(input) <==>
      a == "updatedAt"
      || (a == "description" && input.description.Some?) || (a == "dueDate" && input.dueDate.Some?)
      || (a == "priority" && input.priority.Some?) || (a == "status" && input.status.Some?)
  {
  }

  /** The value written to `attr`. */
  function BoundValue(input: UpdateTodoInput, now: string, attr: string): string {
    if attr == "description" && input.description.Some? then input.description.value
    else if attr == "dueDate" && input.dueDate.Some? then input.dueDate.value
    else if attr == "priority" && input.priority.Some? then PriorityName(input.priority.value)
    else if attr == "status" && input.status.Some? then StatusName(input.status.value)
    else now
  }

  /** Each attribute's position holds the value written to it. */
  predicate ValuesFit(attrs: seq<string>, vals: seq<string>, input: UpdateTodoInput, now: string) {
    |attrs| == |vals| && forall i :: 0 <= i < |attrs| ==> vals[i] == BoundValue(input, now, attrs[i])
  }

  lemma ExtendFit(attrs: seq<string>, vals: seq<string>, c: bool, a: string, v: string,
                  input: UpdateTodoInput, now: string)
    requires ValuesFit(attrs, vals, input, now)
    requires c ==> BoundValue(input, now, a) == v
    ensures ValuesFit(attrs + When(c, a), vals + When(c, v), input, now)
  {
  }

  lemma UpdatedValuesMatch(input: UpdateTodoInput, now: string)
    ensures ValuesFit(UpdatedAttributes(input), UpdatedValues(input, now), input, now)
  {
    var d, u, p, s := input.description, input.dueDate, input.priority, input.status;
    var a0, v0 := ["updatedAt"], [now];
    assert ValuesFit(a0, v0, input, now);
    ExtendFit(a0, v0, d.Some?, "description", d.GetOr(""), input, now);
    var a1, v1 := a0 + When(d.Some?, "description"), v0 + When(d.Some?, d.GetOr(""));
    ExtendFit(a1, v1, u.Some?, "dueDate", u.GetOr(""), input, now);
    var a2, v2 := a1 + When(u.Some?, "dueDate"), v1 + When(u.Some?, u.GetOr(""));
    ExtendFit(a2, v2, p.Some?, "priority", PriorityName(p.GetOr(High)), input, now);
    var a3, v3 := a2 + When(p.Some?, "priority"), v2 + When(p.Some?, PriorityName(p.GetOr(High)));
    ExtendFit(a3, v3, s.Some?, "status", StatusName(s.GetOr(NotStarted)), input, now);
  }

  /** The placeholder record the builder accumulates: `marker + attrs[i]` bound to
      `vals[i]`, added in order. */
  function Placeholders(marker: string, attrs: seq<string>, vals: seq<string>): map<string, string>
    requires |attrs| == |vals|
    decreases |attrs|
  {
    if |attrs| == 0 then map[]
    else Placeholders(marker, attrs[..|attrs| - 1], vals[..|vals| - 1])[marker + attrs[|attrs| - 1] := vals[|vals| - 1]]
  }

  /** The record's keys are the markers of the attributes. */
  lemma {:induction false} PlaceholderKeys(marker: string, attrs: seq<string>, vals: seq<string>)
    requires |attrs| == |vals|
    ensures Placeholders(marker, attrs, vals).Keys == (set a | a in attrs :: marker + a)
  {
    if |attrs| > 0 {
      var front, last := attrs[..|attrs| - 1], attrs[|attrs| - 1];
      assert attrs == front + [last];
      PlaceholderKeys(marker, front, vals[..|vals| - 1]);
      assert (set a | a in attrs :: marker + a) == (set a | a in front :: marker + a) + {marker + last};
    }
  }

  /** For distinct attributes, each one's entry holds its own value. */
  lemma {:induction false} PlaceholderLookup(marker: string, attrs: seq<string>, vals: seq<string>, i: nat)
    requires |attrs| == |vals| && Distinct(attrs) && i < |attrs|
    ensures marker + attrs[i] in Placeholders(marker, attrs, vals)
    ensures Placeholders(marker, attrs, vals)[marker + attrs[i]] == vals[i]
  {
    var n := |attrs| - 1;
    if i < n {
      assert (marker + attrs[i])[|marker|..] == attrs[i] && (marker + attrs[n])[|marker|..] == attrs[n];
      PlaceholderLookup(marker, attrs[..n], vals[..n], i);
    }
  }

  /** For distinct attributes the record has one entry per attribute. */
  lemma {:induction false} PlaceholderCount(marker: string, attrs: seq<string>, vals: seq<string>)
    requires |attrs| == |vals| && Distinct(attrs)
    ensures |Placeholders(marker, attrs, vals)| == |attrs|
  {
    if |attrs| > 0 {
      var n := |attrs| - 1;
      var front, last := attrs[..n], attrs[n];
      assert attrs == front + [last];
      PlaceholderCount(marker, front, vals[..n]);
      PlaceholderKeys(marker, front, vals[..n]);
      forall b | b in front
        ensures marker + b != marker + last
      {
        assert (marker + b)[|marker|..] == b && (marker + last)[|marker|..] == last;
      }
    }
  }

  /** The two placeholder records and the parts of a request for `attrs`. */
  function NamesOf(attrs: seq<string>): map<string, string> {
    Placeholders("#", attrs, attrs)
  }

  function ValuesOf(attrs: seq<string>, vals: seq<string>): map<string, string>
    requires |attrs| == |vals|
  {
    Placeholders(":", attrs, vals)
  }

  function PartsOf(attrs: seq<string>): seq<string> {
    seq(|attrs|, i requires 0 <= i < |attrs| => Assignment(attrs[i]))
  }

  datatype UpdateRequest = UpdateRequest(
    key: string,
    updateExpression: string,
    names: map<string, string>,
    values: map<string, string>,
    condition: string)

  const AttributeExists: string := "attribute_exists(id)"

  /** The placeholders of a request bind exactly the written attributes: one `#a` name and
      one `:a` value for each, holding the attribute and its new value. */
  predicate BindsExactly(req: UpdateRequest, input: UpdateTodoInput, now: string) {
    var attrs := UpdatedAttributes(input);
    && req.names.Keys == (set a | a in attrs :: NameKey(a))
    && req.values.Keys == (set a | a in attrs :: ValueKey(a))
    && (forall a :: a in attrs ==> req.names[NameKey(a)] == a)
    && (forall a :: a in attrs ==> req.values[ValueKey(a)] == BoundValue(input, now, a))
    && |req.names| == |attrs| && |req.values| == |attrs|
  }

  /** The request `updateTodo` sends for `id` and `input` at time `now`. */
  function RequestFor(id: string, input: UpdateTodoInput, now: string): UpdateRequest {
    var attrs := UpdatedAttributes(input);
    UpdateRequest(id, "SET " + Join(PartsOf(attrs), ", "), NamesOf(attrs),
                  ValuesOf(attrs, UpdatedValues(input, now)), AttributeExists)
  }

  lemma RequestForBindsExactly(id: string, input: UpdateTodoInput, now: string)
    ensures BindsExactly(RequestFor(id, input, now), input, now)
  {
    var attrs, vals := UpdatedAttributes(input), UpdatedValues(input, now);
    UpdatedAttributesDistinct(input);
    UpdatedValuesMatch(input, now);
    PlaceholderKeys("#", attrs, attrs);
    PlaceholderKeys(":", attrs, vals);
    PlaceholderCount("#", attrs, attrs);
    PlaceholderCount(":", attrs, vals);
    forall a | a in attrs
      ensures NamesOf(attrs)[NameKey(a)] == a
      ensures ValuesOf(attrs, vals)[ValueKey(a)] == BoundValue(input, now, a)
    {
      var i :| 0 <= i < |attrs| && attrs[i] == a;
      PlaceholderLookup("#", attrs, attrs, i);
      PlaceholderLookup(":", attrs, vals, i);
    }
  }

  /** The builder's three accumulators describe the attributes appended so far. */
  ghost predicate Built(parts: seq<string>, names: map<string, string>, values: map<string, string>,
                        attrs: seq<string>, vals: seq<string>) {
    |attrs| == |vals| && parts == PartsOf(attrs) && names == NamesOf(attrs) && values == ValuesOf(attrs, vals)
  }

  /** Appending one attribute appends one part and one entry to each record. */
  lemma AppendAttribute(parts: seq<string>, names: map<string, string>, values: map<string, string>,
                        attrs: seq<string>, vals: seq<string>, a: string, v: string)
    requires Built(parts, names, values, attrs, vals)
    ensures Built(parts + [Assignment(a)], names[NameKey(a) := a], values[ValueKey(a) := v],
                  attrs + [a], vals + [v])
  {
    assert (attrs + [a])[..|attrs|] == attrs;
    assert (vals + [v])[..|vals|] == vals;
  }

  /** One guarded step of the builder: when `c` holds, push the part `#a = :a` and bind
      `#a` to `a` and `:a` to `v`; otherwise leave the accumulators as they are. */
  method AppendWhen(c: bool, a: string, v: string, parts: seq<string>, names: map<string, string>,
                    values: map<string, string>, ghost attrs: seq<string>, ghost vals: seq<string>)
    returns (parts': seq<string>, names': map<string, string>, values': map<string, string>,
             ghost attrs': seq<string>, ghost vals': seq<string>)
    requires Built(parts, names, values, attrs, vals)
    ensures Built(parts', names', values', attrs', vals')
    ensures attrs' == attrs + When(c, a) && vals' == vals + When(c, v)
  {
    if c {
      AppendAttribute(parts, names, values, attrs, vals, a, v);
      parts' := parts + [Assignment(a)];
      names' := names[NameKey(a) := a];
      values' := values[ValueKey(a) := v];
      attrs', vals' := attrs + [a], vals + [v];
    } else {
      parts', names', values' := parts, names, values;
      attrs', vals' := attrs, vals;
      assert attrs + [] == attrs && vals + [] == vals;
    }
  }

  /** The expression builder of `updateTodo`: the parts and the two placeholder records
      grow by one entry per provided field, after the `updatedAt` entry. */
  method BuildUpdateRequest(id: string, input: UpdateTodoInput, now: string) returns (req: UpdateRequest)
    ensures req == RequestFor(id, input, now)
    ensures req.key == id && req.condition == AttributeExists
    ensures req.updateExpression == "SET " + Join(PartsOf(UpdatedAttributes(input)), ", ")
    ensures BindsExactly(req, input, now)
  {
    var parts: seq<string> := [];
    var names: map<string, string> := map[];
    var values: map<string, string> := map[];
    ghost var attrs: seq<string> := [];
    ghost var vals: seq<string> := [];

    AppendAttribute(parts, names, values, attrs, vals, "updatedAt", now);
    parts := parts + [Assignment("updatedAt")];
    names := names[NameKey("updatedAt") := "updatedAt"];
    values := values[ValueKey("updatedAt") := now];
    attrs, vals := attrs + ["updatedAt"], vals + [now];
    assert attrs == ["updatedAt"] && vals == [now];

    parts, names, values, attrs, vals := AppendWhen(input.description.Some?, "description",
      input.description.GetOr(""), parts, names, values, attrs, vals);
    parts, names, values, attrs, vals := AppendWhen(input.dueDate.Some?, "dueDate",
      input.dueDate.GetOr(""), parts, names, values, attrs, vals);
    parts, names, values, attrs, vals := AppendWhen(input.priority.Some?, "priority",
      PriorityName(input.priority.GetOr(High)), parts, names, values, attrs, vals);
    parts, names, values, attrs, vals := AppendWhen(input.status.Some?, "status",
      StatusName(input.status.GetOr(NotStarted)), parts, names, values, attrs, vals);

    assert attrs == UpdatedAttributes(input) && vals == UpdatedValues(input, now);
    req := UpdateRequest(id, "SET " + Join(parts, ", "), names, values, AttributeExists);
    RequestForBindsExactly(id, input, now);
  }

  /** The updated record as the partial-update rule defines it: provided fields replaced,
      the others kept, `updatedAt` refreshed, `id` and `createdAt` untouched. */
  function ApplyUpdate(item: TodoItem, input: UpdateTodoInput, now: string): TodoItem {
    TodoItem(item.id,
             input.description.GetOr(item.description),
             input.dueDate.GetOr(item.dueDate),
             input.priority.GetOr(item.priority),
             input.status.GetOr(item.status),
             item.createdAt,
             now)
  }

  /** The value a request binds to attribute `attr` through its two placeholders. */
  function Bound(req: UpdateRequest, attr: string): Option<string> {
    if NameKey(attr) in req.names && req.names[NameKey(attr)] == attr && ValueKey(attr) in req.values
    then Some(req.values[ValueKey(attr)])
    else None
  }

  /** What the table does with a `SET` request on a stored record: each bound attribute
      takes its value, the others keep theirs. */
  function Execute(item: TodoItem, req: UpdateRequest): TodoItem {
    TodoItem(item.id,
             Bound(req, "description").GetOr(item.description),
             Bound(req, "dueDate").GetOr(item.dueDate),
             match Bound(req, "priority")
             case Some(v) => ParsePriority(v).GetOr(item.priority)
             case None => item.priority,
             match Bound(req, "status")
             case Some(v) => ParseStatus(v).GetOr(item.status)
             case None => item.status,
             item.createdAt,
             Bound(req, "updatedAt").GetOr(item.updatedAt))
  }

  lemma BoundOf(req: UpdateRequest, input: UpdateTodoInput, now: string, attr: string)
    requires BindsExactly(req, input, now)
    ensures attr in UpdatedAttributes(input) ==> Bound(req, attr) == Some(BoundValue(input, now, attr))
    ensures attr !in UpdatedAttributes(input) ==> Bound(req, attr).None?
  {
  }

  // What a request that binds exactly the written attributes binds to each one.

  lemma BoundDescription(req: UpdateRequest, input: UpdateTodoInput, now: string)
    requires BindsExactly(req, input, now)
    ensures Bound(req, "description") == input.description
  {
    UpdatedAttributesDistinct(input);
    BoundOf(req, input, now, "description");
  }

  lemma BoundDueDate(req: UpdateRequest, input: UpdateTodoInput, now: string)
    requires BindsExactly(req, input, now)
    ensures Bound(req, "dueDate") == input.dueDate
  {
    UpdatedAttributesDistinct(input);
    BoundOf(req, input, now, "dueDate");
  }

  lemma BoundPriority(req: UpdateRequest, input: UpdateTodoInput, now: string)
    requires BindsExactly(req, input, now)
    ensures input.priority.Some? ==> Bound(req, "priority") == Some(PriorityName(input.priority.value))
    ensures input.priority.None? ==> Bound(req, "priority").None?
  {
    UpdatedAttributesDistinct(input);
    BoundOf(req, input, now, "priority");
  }

  lemma BoundStatus(req: UpdateRequest, input: UpdateTodoInput, now: string)
    requires BindsExactly(req, input, now)
    ensures input.status.Some? ==> Bound(req, "status") == Some(StatusName(input.status.value))
    ensures input.status.None? ==> Bound(req, "status").None?
  {
    UpdatedAttributesDistinct(input);
    BoundOf(req, input, now, "status");
  }

  lemma BoundUpdatedAt(req: UpdateRequest, input: UpdateTodoInput, now: string)
    requires BindsExactly(req, input, now)
    ensures Bound(req, "updatedAt") == Some(now)
  {
    UpdatedAttributesDistinct(input);
    BoundOf(req, input, now, "updatedAt");
  }

  /** A request that binds exactly the written attributes makes the table perform the
      partial update. */
  lemma ExecuteMeansApplyUpdate(item: TodoItem, req: UpdateRequest, input: UpdateTodoInput, now: string)
    requires BindsExactly(req, input, now)
    ensures Execute(item, req) == ApplyUpdate(item, input, now)
  {
    BoundDescription(req, input, now);
    BoundDueDate(req, input, now);
    BoundPriority(req, input, now);
    BoundStatus(req, input, now);
    BoundUpdatedAt(req, input, now);
    if input.priority.Some? { NamesRoundTrip(input.priority.value, NotStarted); }
    if input.status.Some? { NamesRoundTrip(High, input.status.value); }
  }

  /** `updateTodo`'s request reaching the table when the record `item` exists: the request
      is built and the table performs it. */
  method SendUpdate(item: TodoItem, input: UpdateTodoInput, now: string) returns (updated: TodoItem)
    ensures updated == ApplyUpdate(item, input, now)
  {
    var req := BuildUpdateRequest(item.id, input, now);
    updated := Execute(item, req);
    ExecuteMeansApplyUpdate(item, req, input, now);
  }

  /** Updating only the status changes nothing else but the timestamp. */
  lemma StatusOnlyUpdate(item: TodoItem, status: Status, now: string)
    ensures var r := ApplyUpdate(item, UpdateTodoInput(None, None, None, Some(status)), now);
      && r.status == status && r.updatedAt == now
      && r.id == item.id && r.description == item.description && r.dueDate == item.dueDate
      && r.priority == item.priority && r.createdAt == item.createdAt
  {
  }

  /** The record `createTodo` writes. */
  function NewTodo(input: CreateTodoInput, id: string, now: string): (t: TodoItem)
    ensures t.id == id && t.createdAt == now && t.updatedAt == now
    ensures t.description == input.description && t.dueDate == input.dueDate
    ensures t.priority == input.priority && t.status == input.status
  {
    TodoItem(id, input.description, input.dueDate, input.priority, input.status, now, now)
  }

  /** `todos` lists every stored record exactly once, in some order. */
  ghost predicate Lists(todos: seq<TodoItem>, items: map<string, TodoItem>) {
    && |todos| == |items|
    && (forall i :: 0 <= i < |todos| ==> todos[i].id in items && items[todos[i].id] == todos[i])
    && (forall i, j :: 0 <= i < j < |todos| ==> todos[i].id != todos[j].id)
    && (forall id :: id in items ==> items[id] in todos)
  }

  class RecordStore {
    /** The table's contents, by key. */
    var items: map<string, TodoItem>
    /** `NODE_ENV === 'development'`. */
    const development: bool

    ghost predicate Valid()
      reads this
    {
      forall id :: id in items ==> items[id].id == id
    }

    constructor (development: bool)
      ensures Valid() && items == map[] && this.development == development
    {
      items := map[];
      this.development := development;
    }

    /** The table's full scan: every record once, in an order the service chooses. */
    method Scan() returns (todos: seq<TodoItem>)
      requires Valid()
      ensures Lists(todos, items)
    {
      var remaining := items.Keys;
      todos := [];
      while remaining != {}
        invariant remaining <= items.Keys
        invariant |todos| + |remaining| == |items|
        invariant forall i :: 0 <= i < |todos| ==>
          todos[i].id in items && items[todos[i].id] == todos[i] && todos[i].id !in remaining
        invariant forall i, j :: 0 <= i < j < |todos| ==> todos[i].id != todos[j].id
        invariant forall id :: id in items && id !in remaining ==> items[id] in todos
        decreases |remaining|
      {
        var id :| id in remaining;
        todos := todos + [items[id]];
        remaining := remaining - {id};
      }
    }

    /** `getAllTodos`. */
    method GetAllTodos(fault: Option<Thrown>) returns (r: Result<seq<TodoItem>, ApiError>)
      requires Valid()
      ensures fault.Some? ==> r == Failure(AwsErrors.Normalized(fault.value, DynamoTexts, development))
      ensures fault.None? ==> r.Success? && Lists(r.value, items)
      ensures fault.None? && items == map[] ==> r == Success([])
    {
      if fault.Some? {
        var e := HandleDynamoDBError(fault.value, development);
        return Failure(e);
      }
      var todos := Scan();
      r := Success(todos);
    }

    /** `getTodoById`: the record, or `None` (null) when there is none. */
    method GetTodoById(id: string, fault: Option<Thrown>) returns (r: Result<Option<TodoItem>, ApiError>)
      ensures fault.Some? ==> r == Failure(AwsErrors.Normalized(fault.value, DynamoTexts, development))
      ensures fault.None? && id in items ==> r == Success(Some(items[id]))
      ensures fault.None? && id !in items ==> r == Success(None)
    {
      if fault.Some? {
        var e := HandleDynamoDBError(fault.value, development);
        return Failure(e);
      }
      if id in items {
        r := Success(Some(items[id]));
      } else {
        r := Success(None);
      }
    }

    /** `createTodo`: a conditional put under `attribute_not_exists(id)`; it never
        overwrites a stored record. `newId` and `now` are the uuid and the clock. */
    method CreateTodo(input: CreateTodoInput, newId: string, now: string, fault: Option<Thrown>)
      returns (r: Result<TodoItem, ApiError>)
      requires Valid()
      modifies this
      ensures Valid()
      ensures fault.Some? ==>
        items == old(items) && r == Failure(AwsErrors.Normalized(fault.value, DynamoTexts, development))
      ensures fault.None? && newId in old(items) ==>
        items == old(items) && r == Failure(AwsErrors.Normalized(ConditionalCheckFailed, DynamoTexts, development))
      ensures fault.None? && newId !in old(items) ==>
        items == old(items)[newId := NewTodo(input, newId, now)] && r == Success(NewTodo(input, newId, now))
    {
      var newTodo := NewTodo(input, newId, now);
      var outcome := if fault.Some? then fault else if newId in items then Some(ConditionalCheckFailed) else None;
      if outcome.Some? {
        var e := HandleDynamoDBError(outcome.value, development);
        return Failure(e);
      }
      items := items[newId := newTodo];
      r := Success(newTodo);
    }

    /** `updateTodo`: the built `SET` request under `attribute_exists(id)`; a missing record
        gives `None` (null), not an error, and is never created. */
    method UpdateTodo(id: string, input: UpdateTodoInput, now: string, fault: Option<Thrown>)
      returns (r: Result<Option<TodoItem>, ApiError>)
      requires Valid()
      modifies this
      ensures Valid()
      ensures fault.None? && id in old(items) ==>
        items == old(items)[id := ApplyUpdate(old(items)[id], input, now)] && r == Success(Some(items[id]))
      ensures fault.None? && id !in old(items) ==> items == old(items) && r == Success(None)
      ensures fault.Some? ==> items == old(items)
      ensures fault.Some? && IsConditionalCheckFailure(fault.value) ==> r == Success(None)
      ensures fault.Some? && !IsConditionalCheckFailure(fault.value) ==>
        r == Failure(AwsErrors.Normalized(fault.value, DynamoTexts, development))
    {
      var outcome := if fault.Some? then fault else if id in items then None else Some(ConditionalCheckFailed);
      if outcome.None? {
        var updated := SendUpdate(items[id], input, now);
        items := items[id := updated];
        r := Success(Some(updated));
      } else if IsConditionalCheckFailure(outcome.value) {
        r := Success(None);
      } else {
        var e := HandleDynamoDBError(outcome.value, development);
        r := Failure(e);
      }
    }

    /** `deleteTodo`: a conditional delete under `attribute_exists(id)`; `true` when a record
        was removed, `false` when there was none. */
    method DeleteTodo(id: string, fault: Option<Thrown>) returns (r: Result<bool, ApiError>)
      requires Valid()
      modifies this
      ensures Valid()
      ensures fault.None? && id in old(items) ==> items == old(items) - {id} && r == Success(true)
      ensures fault.None? && id !in old(items) ==> items == old(items) && r == Success(false)
      ensures fault.Some? ==> items == old(items)
      ensures fault.Some? && IsConditionalCheckFailure(fault.value) ==> r == Success(false)
      ensures fault.Some? && !IsConditionalCheckFailure(fault.value) ==>
        r == Failure(AwsErrors.Normalized(fault.value, DynamoTexts, development))
    {
      var outcome := if fault.Some? then fault else if id in items then None else Some(ConditionalCheckFailed);
      if outcome.None? {
        items := items - {id};
        r := Success(true);
      } else if IsConditionalCheckFailure(outcome.value) {
        r := Success(false);
      } else {
        var e := HandleDynamoDBError(outcome.value, development);
        r := Failure(e);
      }
    }
  }

  /** Create, then get: the same four fields back, with equal timestamps. */
  method CreateThenGet(store: RecordStore, input: CreateTodoInput, newId: string, now: string)
    returns (created: Result<TodoItem, ApiError>, fetched: Result<Option<TodoItem>, ApiError>)
    requires store.Valid() && newId !in store.items
    modifies store
    ensures created.Success? && fetched == Success(Some(created.value))
    ensures created.value.description == input.description && created.value.dueDate == input.dueDate
    ensures created.value.priority == input.priority && created.value.status == input.status
    ensures created.value.createdAt == created.value.updatedAt
  {
    created := store.CreateTodo(input, newId, now, None);
    fetched := store.GetTodoById(created.value.id, None);
  }

  /** Delete, then get, then delete again: not found, and `false` rather than an error. */
  method DeleteThenGet(store: RecordStore, id: string)
    returns (first: Result<bool, ApiError>, fetched: Result<Option<TodoItem>, ApiError>,
             second: Result<bool, ApiError>)
    requires store.Valid() && id in store.items
    modifies store
    ensures first == Success(true) && fetched == Success(None) && second == Success(false)
  {
    first := store.DeleteTodo(id, None);
    fetched := store.GetTodoById(id, None);
    second := store.DeleteTodo(id, None);
  }
}
