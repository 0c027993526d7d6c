/** The client-side rules of the todo table: the two-variable sort state, the comparator
    with its rank maps, the sorted copy of the list, and the badge class names. */
module TodoTable {
  import opened Types
  import opened Strings

  function Flip(d: SortDirection): SortDirection {
    if d == Asc then Desc else Asc
  }

  /** The sort state after a click on a column header. */
  function NextSort(c: SortConfig, clicked: SortField): SortConfig {
    if clicked == c.field then SortConfig(c.field, Flip(c.direction)) else SortConfig(clicked, Asc)
  }

  /** A click always sorts by the clicked column; a new column starts ascending. */
  lemma ClickSelectsColumn(c: SortConfig, clicked: SortField)
    ensures NextSort(c, clicked).field == clicked
    ensures clicked != c.field ==> NextSort(c, clicked).direction == Asc
    ensures clicked == c.field ==> NextSort(c, clicked).direction != c.direction
  {
  }

  /** Two clicks on the current column restore the state. */
  lemma TwoClicksRestore(c: SortConfig)
    ensures NextSort(NextSort(c, c.field), c.field) == c
  {
  }

  /** The table's `sortField` / `sortDirection` state. */
  class SortState {
    var field: SortField
    var direction: SortDirection

    constructor ()
      ensures field == ByDueDate && direction == Asc
    {
      field := ByDueDate;
      direction := Asc;
    }

    function Config(): SortConfig
      reads this
    {
      SortConfig(field, direction)
    }

    /** `handleSort`. */
    method HandleSort(clicked: SortField)
      modifies this
      ensures Config() == NextSort(old(Config()), clicked)
      ensures field == clicked
      ensures clicked == old(field) ==> direction == Flip(old(direction))
      ensures clicked != old(field) ==> direction == Asc
    {
      if clicked == field {
        direction := if direction == Asc then Desc else Asc;
      } else {
        field := clicked;
        direction := Asc;
      }
    }
  }

  /** `priorityOrder`: High 3, Medium 2, Low 1. */
  function PriorityRank(p: Priority): (r: int)
    ensures 1 <= r <= 3
  {
    match p
    case High => 3
    case Medium => 2
    case Low => 1
  }

  /** `statusOrder`: Not Started 1, In Progress 2, Done 3, Canceled 4. */
  function StatusRank(s: Status): (r: int)
    ensures 1 <= r <= 4
  {
    match s
    case NotStarted => 1
    case InProgress => 2
    case Done => 3
    case Canceled => 4
  }

  /** The ranks tell every value apart. */
  lemma RanksInjective(p: Priority, q: Priority, s: Status, t: Status)
    ensures PriorityRank(p) == PriorityRank(q) <==> p == q
    ensures StatusRank(s) == StatusRank(t) <==> s == t
  {
  }

  predicate IsRankField(f: SortField) {
    f == ByPriority || f == ByStatus
  }

  function Rank(t: TodoItem, f: SortField): int
    requires IsRankField(f)
  {
    if f == ByPriority then PriorityRank(t.priority) else StatusRank(t.status)
  }

  /** `a[sortField]` for the string-valued columns. */
  function Text(t: TodoItem, f: SortField): string
    requires !IsRankField(f)
  {
    match f
    case ByDescription => t.description
    case ByDueDate => t.dueDate
    case ByCreatedAt => t.createdAt
  }

  /** `aValue < bValue` for the column. */
  predicate KeyLess(a: TodoItem, b: TodoItem, f: SortField) {
    if IsRankField(f) then Rank(a, f) < Rank(b, f) else LexLess(Text(a, f), Text(b, f))
  }

  /** Equal column values. */
  predicate SameKey(a: TodoItem, b: TodoItem, f: SortField) {
    match f
    case ByDescription => a.description == b.description
    case ByDueDate => a.dueDate == b.dueDate
    case ByPriority => a.priority == b.priority
    case ByStatus => a.status == b.status
    case ByCreatedAt => a.createdAt == b.createdAt
  }

  /** The comparator passed to `sort`. */
  function Compare(a: TodoItem, b: TodoItem, c: SortConfig): int {
    if KeyLess(a, b, c.field) then (if c.direction == Asc then -1 else 1)
    else if KeyLess(b, a, c.field) then (if c.direction == Asc then 1 else -1)
    else 0
  }

  /** Exactly one of less, equal, greater holds for two column values. */
  lemma KeyTrichotomy(a: TodoItem, b: TodoItem, f: SortField)
    ensures KeyLess(a, b, f) || SameKey(a, b, f) || KeyLess(b, a, f)
    ensures !(KeyLess(a, b, f) && KeyLess(b, a, f))
    ensures SameKey(a, b, f) ==> !KeyLess(a, b, f)
  {
    if !IsRankField(f) {
      LexTrichotomy(Text(a, f), Text(b, f));
    } else {
      RanksInjective(a.priority, b.priority, a.status, b.status);
    }
  }

  /** The comparator answers -1, 0 or 1; 0 exactly for equal column values; it is
      antisymmetric; and descending is ascending negated. */
  lemma CompareShape(a: TodoItem, b: TodoItem, c: SortConfig)
    ensures Compare(a, b, c) in {-1, 0, 1}
    ensures Compare(a, b, c) == 0 <==> SameKey(a, b, c.field)
    ensures Compare(b, a, c) == -Compare(a, b, c)
    ensures Compare(a, b, SortConfig(c.field, Desc)) == -Compare(a, b, SortConfig(c.field, Asc))
  {
    KeyTrichotomy(a, b, c.field);
  }

  lemma KeyLessTransitive(a: TodoItem, b: TodoItem, d: TodoItem, f: SortField)
    requires KeyLess(a, b, f) && KeyLess(b, d, f)
    ensures KeyLess(a, d, f)
  {
    if !IsRankField(f) {
      LexTransitive(Text(a, f), Text(b, f), Text(d, f));
    }
  }

  lemma SameKeyLess(a: TodoItem, b: TodoItem, d: TodoItem, f: SortField)
    requires SameKey(a, b, f)
    ensures KeyLess(a, d, f) == KeyLess(b, d, f) && KeyLess(d, a, f) == KeyLess(d, b, f)
  {
  }

  /** "Not after" is transitive, so the comparator is a total preorder. */
  lemma CompareTransitive(a: TodoItem, b: TodoItem, d: TodoItem, c: SortConfig)
    requires Compare(a, b, c) <= 0 && Compare(b, d, c) <= 0
    ensures Compare(a, d, c) <= 0
  {
    var f := c.field;
    KeyTrichotomy(a, b, f);
    KeyTrichotomy(b, d, f);
    KeyTrichotomy(a, d, f);
    if c.direction == Asc {
      if KeyLess(a, b, f) && KeyLess(b, d, f) { KeyLessTransitive(a, b, d, f); }
      if SameKey(a, b, f) { SameKeyLess(a, b, d, f); }
      if SameKey(b, d, f) { SameKeyLess(b, d, a, f); }
    } else {
      if KeyLess(b, a, f) && KeyLess(d, b, f) { KeyLessTransitive(d, b, a, f); }
      if SameKey(a, b, f) { SameKeyLess(a, b, d, f); }
      if SameKey(b, d, f) { SameKeyLess(b, d, a, f); }
    }
  }

  /** Ascending by priority lists Low first and High last. */
  lemma AscendingPriorityLowFirst(low: TodoItem, medium: TodoItem, high: TodoItem)
    requires low.priority == Low && medium.priority == Medium && high.priority == High
    ensures Compare(low, medium, SortConfig(ByPriority, Asc)) == -1
    ensures Compare(medium, high, SortConfig(ByPriority, Asc)) == -1
  {
  }

  /** Ascending by status follows the workflow: Not Started, In Progress, Done, Canceled. */
  lemma AscendingStatusOrder(notStarted: TodoItem, inProgress: TodoItem, done: TodoItem, canceled: TodoItem)
    requires notStarted.status == NotStarted && inProgress.status == InProgress
    requires done.status == Done && canceled.status == Canceled
    ensures Compare(notStarted, inProgress, SortConfig(ByStatus, Asc)) == -1
    ensures Compare(inProgress, done, SortConfig(ByStatus, Asc)) == -1
    ensures Compare(done, canceled, SortConfig(ByStatus, Asc)) == -1
  {
  }

  /** No element is placed after one the comparator puts behind it. */
  ghost predicate SortedBy(s: seq<TodoItem>, c: SortConfig) {
    forall i, j :: 0 <= i < j < |s| ==> Compare(s[i], s[j], c) <= 0
  }

  /** Places `x` before the first element it does not come after. */
  function Insert(x: TodoItem, s: seq<TodoItem>, c: SortConfig): (r: seq<TodoItem>)
    ensures multiset(r) == multiset(s) + multiset{x}
    decreases |s|
  {
    if |s| == 0 then [x]
    else if Compare(x, s[0], c) <= 0 then [x] + s
    else
      assert s == [s[0]] + s[1..];
      [s[0]] + Insert(x, s[1..], c)
  }

  lemma {:induction false} InsertSorted(x: TodoItem, s: seq<TodoItem>, c: SortConfig)
    requires SortedBy(s, c)
    ensures SortedBy(Insert(x, s, c), c)
  {
    if |s| > 0 {
      if Compare(x, s[0], c) <= 0 {
        forall j | 0 <= j < |s|
          ensures Compare(x, s[j], c) <= 0
        {
          if j > 0 { CompareTransitive(x, s[0], s[j], c); }
        }
      } else {
        var rest := Insert(x, s[1..], c);
        InsertSorted(x, s[1..], c);
        CompareShape(x, s[0], c);
        forall j | 0 <= j < |rest|
          ensures Compare(s[0], rest[j], c) <= 0
        {
          assert rest[j] in multiset(rest);
          if rest[j] != x {
            assert rest[j] in multiset(s[1..]);
            var k :| 0 <= k < |s[1..]| && s[1..][k] == rest[j];
            assert s[k + 1] == rest[j];
          }
        }
      }
    }
  }

  /** `[...todos].sort(comparator)`: a sorted copy, as an insertion sort. */
  function SortedTodos(todos: seq<TodoItem>, c: SortConfig): (r: seq<TodoItem>)
    ensures multiset(r) == multiset(todos)
    decreases |todos|
  {
    if |todos| == 0 then []
    else
      assert todos == [todos[0]] + todos[1..];
      Insert(todos[0], SortedTodos(todos[1..], c), c)
  }

  /** The copy is a permutation of the list, ordered by the comparator. */
  lemma {:induction false} SortedTodosCorrect(todos: seq<TodoItem>, c: SortConfig)
    ensures multiset(SortedTodos(todos, c)) == multiset(todos)
    ensures |SortedTodos(todos, c)| == |todos|
    ensures SortedBy(SortedTodos(todos, c), c)
  {
    var r := SortedTodos(todos, c);
    assert |r| == |multiset(r)| == |multiset(todos)| == |todos|;
    if |todos| > 0 {
      SortedTodosCorrect(todos[1..], c);
      InsertSorted(todos[0], SortedTodos(todos[1..], c), c);
    }
  }

  /** `getPriorityClass`: the badge class of a known priority, `""` otherwise. */
  function GetPriorityClass(priority: string): (r: string)
    ensures r == "" <==> ParsePriority(priority).None?
  {
    match priority
    case "High" => "priority-high"
    case "Medium" => "priority-medium"
    case "Low" => "priority-low"
    case _ => ""
  }

  /** `getStatusClass`: the badge class of a known status, `""` otherwise. */
  function GetStatusClass(status: string): (r: string)
    ensures r == "" <==> ParseStatus(status).None?
  {
    match status
    case "Not Started" => "status-not-started"
    case "In Progress" => "status-in-progress"
    case "Done" => "status-done"
    case "Canceled" => "status-canceled"
    case _ => ""
  }

  /** Different known values get different classes. */
  lemma ClassesDistinct(p: Priority, q: Priority, s: Status, t: Status)
    ensures GetPriorityClass(PriorityName(p)) == GetPriorityClass(PriorityName(q)) ==> p == q
    ensures GetStatusClass(StatusName(s)) == GetStatusClass(StatusName(t)) ==> s == t
  {
  }
}
