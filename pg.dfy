/**
  The parts of lib/pg-persistence.js that run in the application rather
  than in PostgreSQL: the guard against a missing result, the join that
  attaches each fetched todo row to its list, and the done / not-done
  partition. The queries themselves are not modelled; their results arrive
  as sequences of rows.
 */
module PgPersistence {
  import opened Js
  import opened Domain

  /** A row of `SELECT * FROM todolists WHERE username = $1`. */
  datatype TodoListRow = TodoListRow(id: int, title: string)

  /** A row of `SELECT * FROM todos WHERE username = $1`. */
  datatype TodoRow = TodoRow(id: int, title: string, done: bool, todolistId: int)

  function BelongsTo(todoListId: int): TodoRow -> bool
  {
    (row: TodoRow) => row.todolistId == todoListId
  }

  function AsTodo(row: TodoRow): Todo { Todo(row.id, row.title, row.done) }

  /** `allTodos.filter((todo) => todoList.id === todo.todolist_id)`. */
  function RowsOf(allTodos: seq<TodoRow>, todoListId: int): (r: seq<TodoRow>)
    ensures forall k :: 0 <= k < |r| ==> r[k].todolistId == todoListId
    ensures forall row :: multiset(r)[row] == if row.todolistId == todoListId then multiset(allTodos)[row] else 0
  {
    FilterCountAll(allTodos, BelongsTo(todoListId));
    Filter(allTodos, BelongsTo(todoListId))
  }

  /** One list row with `todos` set to its rows. */
  function JoinedList(listRow: TodoListRow, allTodos: seq<TodoRow>): TodoList
  {
    var rows := RowsOf(allTodos, listRow.id);
    TodoList(listRow.id, listRow.title, seq(|rows|, k requires 0 <= k < |rows| => AsTodo(rows[k])))
  }

  /** Every list row, in fetched order, with its todos attached. */
  function Joined(allTodoLists: seq<TodoListRow>, allTodos: seq<TodoRow>): seq<TodoList>
  {
    seq(|allTodoLists|, i requires 0 <= i < |allTodoLists| => JoinedList(allTodoLists[i], allTodos))
  }

  /** The rows the join gives a list are exactly the fetched rows with that
      `todolist_id`, each as often as it was fetched, in fetched order. The
      lists themselves keep their ids, titles and fetched order. */
  lemma JoinedAttachesOwnRows(allTodoLists: seq<TodoListRow>, allTodos: seq<TodoRow>, i: int)
    requires 0 <= i < |allTodoLists|
    ensures var list := Joined(allTodoLists, allTodos)[i];
      var rows := RowsOf(allTodos, allTodoLists[i].id);
      && |Joined(allTodoLists, allTodos)| == |allTodoLists|
      && list.id == allTodoLists[i].id && list.title == allTodoLists[i].title
      && |list.todos| == |rows|
      && (forall k :: 0 <= k < |rows| ==> list.todos[k] == AsTodo(rows[k]))
      && (forall row :: multiset(rows)[row] == if row.todolistId == allTodoLists[i].id then multiset(allTodos)[row] else 0)
  {
  }

  /** The join keeps the fetched order of a list's rows: any relation that
      holds between earlier and later fetched rows holds between earlier and
      later rows of each list. */
  lemma JoinedKeepsFetchedOrder(allTodos: seq<TodoRow>, todoListId: int, before: (TodoRow, TodoRow) -> bool)
    requires forall a, b :: 0 <= a < b < |allTodos| ==> before(allTodos[a], allTodos[b])
    ensures var rows := RowsOf(allTodos, todoListId);
      forall a, b :: 0 <= a < b < |rows| ==> before(rows[a], rows[b])
  {
    FilterKeepsOrder(allTodos, BelongsTo(todoListId), before);
  }

  /** A todo row whose `todolist_id` is the id of no fetched list is
      attached to no list. */
  lemma JoinedDropsOrphanRows(allTodoLists: seq<TodoListRow>, allTodos: seq<TodoRow>, row: TodoRow)
    requires forall i :: 0 <= i < |allTodoLists| ==> allTodoLists[i].id != row.todolistId
    ensures forall i :: 0 <= i < |allTodoLists| ==> row !in RowsOf(allTodos, allTodoLists[i].id)
  {
    forall i | 0 <= i < |allTodoLists| ensures row !in RowsOf(allTodos, allTodoLists[i].id) {
      assert multiset(RowsOf(allTodos, allTodoLists[i].id))[row] == 0;
    }
  }

  /** The `forEach` of `sortedTodoLists` that sets each list's `todos`. */
  method AttachTodos(allTodoLists: seq<TodoListRow>, allTodos: seq<TodoRow>) returns (lists: seq<TodoList>)
    ensures lists == Joined(allTodoLists, allTodos)
  {
    lists := [];
    for i := 0 to |allTodoLists|
      invariant |lists| == i
      invariant forall k :: 0 <= k < i ==> lists[k] == JoinedList(allTodoLists[k], allTodos)
    {
      lists := lists + [JoinedList(allTodoLists[i], allTodos)];
    }
  }

  /** Pushing the i-th list extends exactly one of the two groups. */
  lemma PartitionStep(todoLists: seq<TodoList>, i: int)
    requires 0 <= i < |todoLists|
    ensures NotDoneLists(todoLists[..i + 1]) ==
      if IsDoneTodoList(todoLists[i]) then NotDoneLists(todoLists[..i]) else NotDoneLists(todoLists[..i]) + [todoLists[i]]
    ensures DoneLists(todoLists[..i + 1]) ==
      if IsDoneTodoList(todoLists[i]) then DoneLists(todoLists[..i]) + [todoLists[i]] else DoneLists(todoLists[..i])
  {
    assert todoLists[..i + 1] == todoLists[..i] + [todoLists[i]];
    FilterSnoc(todoLists[..i], todoLists[i], IsNotDoneTodoList);
    FilterSnoc(todoLists[..i], todoLists[i], IsDoneTodoList);
  }

  /** `_partitionTodoLists`: push each list onto `undone` or `done`, then
      return `undone.concat(done)`. */
  method PartitionTodoLists(todoLists: seq<TodoList>) returns (r: seq<TodoList>)
    ensures r == NotDoneLists(todoLists) + DoneLists(todoLists)
    ensures multiset(r) == multiset(todoLists)
    ensures forall i, j :: 0 <= i < j < |r| && IsDoneTodoList(r[i]) ==> IsDoneTodoList(r[j])
  {
    var undone, done := [], [];
    for i := 0 to |todoLists|
      invariant undone == NotDoneLists(todoLists[..i])
      invariant done == DoneLists(todoLists[..i])
    {
      PartitionStep(todoLists, i);
      if IsDoneTodoList(todoLists[i]) {
        done := done + [todoLists[i]];
      } else {
        undone := undone + [todoLists[i]];
      }
    }
    assert todoLists[..|todoLists|] == todoLists;
    PartitionIsPermutation(todoLists);
    PartitionPutsNotDoneFirst(todoLists);
    r := undone + done;
  }

  /** The JavaScript values lines 18-21 handle: an array, the result object
      of a query (whose `rows` property is an array of rows), and the two
      kinds of row. */
  datatype PgValue =
    | PgArray(elements: seq<PgValue>)
    | PgResult(rows: seq<PgValue>)
    | PgListRow(listRow: TodoListRow)
    | PgTodoRow(todoRow: TodoRow)

  /** `v.rows`: a TypeError on `undefined`; the rows array of a query
      result; `undefined` for any other value, an array included. */
  function ReadRows(v: Option<PgValue>): Result<Option<PgValue>>
  {
    match v
    case None => Throw(TypeError)
    case Some(PgResult(rows)) => Ok(Some(PgArray(rows)))
    case Some(_) => Ok(None)
  }

  /** `v[i]`: a TypeError on `undefined`; the element at `i` of an array,
      or `undefined` past its end; `undefined` for any other value. */
  function ReadIndex(v: Option<PgValue>, i: nat): Result<Option<PgValue>>
  {
    match v
    case None => Throw(TypeError)
    case Some(PgArray(es)) => Ok(if i < |es| then Some(es[i]) else None)
    case Some(_) => Ok(None)
  }

  function ListRowValues(rows: seq<TodoListRow>): seq<PgValue>
  {
    seq(|rows|, k requires 0 <= k < |rows| => PgListRow(rows[k]))
  }

  function TodoRowValues(rows: seq<TodoRow>): seq<PgValue>
  {
    seq(|rows|, k requires 0 <= k < |rows| => PgTodoRow(rows[k]))
  }

  /** What `Promise.all([resultTodoLists, resultTodos])` resolves to: the
      array of the two query results, in that order. */
  function PromiseAllResult(lists: seq<TodoListRow>, todos: seq<TodoRow>): PgValue
  {
    PgArray([PgResult(ListRowValues(lists)), PgResult(TodoRowValues(todos))])
  }

  /** Lines 20-21 as written: `resultBoth.rows[0]` and `resultBoth.rows[1]`. */
  function FetchedAsWritten(resultBoth: PgValue): Result<(Option<PgValue>, Option<PgValue>)>
  {
    var rows := ReadRows(Some(resultBoth));
    if rows.Throw? then Throw(rows.error)
    else
      var first := ReadIndex(rows.value, 0);
      var second := ReadIndex(rows.value, 1);
      if first.Throw? then Throw(first.error)
      else if second.Throw? then Throw(second.error)
      else Ok((first.value, second.value))
  }

  /** Lines 20-21 as `loadTodoList` reads its own `Promise.all` result
      (line 69): `resultBoth[0].rows` and `resultBoth[1].rows`. */
  function Fetched(resultBoth: PgValue): Result<(Option<PgValue>, Option<PgValue>)>
  {
    var first := ReadIndex(Some(resultBoth), 0);
    var second := ReadIndex(Some(resultBoth), 1);
    if first.Throw? then Throw(first.error)
    else if second.Throw? then Throw(second.error)
    else
      var firstRows := ReadRows(first.value);
      var secondRows := ReadRows(second.value);
      if firstRows.Throw? then Throw(firstRows.error)
      else if secondRows.Throw? then Throw(secondRows.error)
      else Ok((firstRows.value, secondRows.value))
  }

  /** As written, `sortedTodoLists` never reaches the join: `resultBoth` is
      an array, an array's `rows` is `undefined`, and indexing `undefined`
      throws, whatever the array holds. */
  lemma FetchedAsWrittenThrows(resultBoth: PgValue)
    requires resultBoth.PgArray?
    ensures FetchedAsWritten(resultBoth) == Throw(TypeError)
  {
  }

  /** Read as at line 69, the `Promise.all` result gives the rows of the
      lists query and the rows of the todos query. */
  lemma FetchedReadsBothQueries(lists: seq<TodoListRow>, todos: seq<TodoRow>)
    ensures Fetched(PromiseAllResult(lists, todos))
      == Ok((Some(PgArray(ListRowValues(lists))), Some(PgArray(TodoRowValues(todos)))))
  {
  }

  /** The list rows among the elements of an array. */
  function ListRowsIn(es: seq<PgValue>): seq<TodoListRow>
  {
    if es == [] then []
    else (if es[0].PgListRow? then [es[0].listRow] else []) + ListRowsIn(es[1..])
  }

  /** The todo rows among the elements of an array. */
  function TodoRowsIn(es: seq<PgValue>): seq<TodoRow>
  {
    if es == [] then []
    else (if es[0].PgTodoRow? then [es[0].todoRow] else []) + TodoRowsIn(es[1..])
  }

  /** `allTodoLists` after line 20, as a sequence of list rows, or
      `undefined`. Only arrays of rows reach this point. */
  function AsListRows(v: Option<PgValue>): Option<seq<TodoListRow>>
  {
    match v
    case None => None
    case Some(PgArray(es)) => Some(ListRowsIn(es))
    case Some(_) => Some([])
  }

  /** `allTodos` after line 21, as a sequence of todo rows, or `undefined`. */
  function AsTodoRows(v: Option<PgValue>): Option<seq<TodoRow>>
  {
    match v
    case None => None
    case Some(PgArray(es)) => Some(TodoRowsIn(es))
    case Some(_) => Some([])
  }

  /** Reading back the list rows a query returned gives those rows. */
  lemma {:induction false} ListRowsRoundTrip(rows: seq<TodoListRow>)
    ensures ListRowsIn(ListRowValues(rows)) == rows
  {
    if rows != [] {
      assert ListRowValues(rows)[1..] == ListRowValues(rows[1..]);
      ListRowsRoundTrip(rows[1..]);
      assert rows == [rows[0]] + rows[1..];
    }
  }

  /** Reading back the todo rows a query returned gives those rows. */
  lemma {:induction false} TodoRowsRoundTrip(rows: seq<TodoRow>)
    ensures TodoRowsIn(TodoRowValues(rows)) == rows
  {
    if rows != [] {
      assert TodoRowValues(rows)[1..] == TodoRowValues(rows[1..]);
      TodoRowsRoundTrip(rows[1..]);
      assert rows == [rows[0]] + rows[1..];
    }
  }

  /** `sortedTodoLists` with lines 20-21 corrected: from the rows the two
      queries return, through `Promise.all` and the corrected reads, the
      joined lists with the not-done ones first; the `undefined` guard
      never fires. */
  method SortedTodoListsOfResults(lists: seq<TodoListRow>, todos: seq<TodoRow>)
    returns (r: Option<seq<TodoList>>)
    ensures r.Some?
    ensures var joined := Joined(lists, todos);
      && r.value == NotDoneLists(joined) + DoneLists(joined)
      && multiset(r.value) == multiset(joined)
      && forall i, j :: 0 <= i < j < |r.value| && IsDoneTodoList(r.value[i]) ==> IsDoneTodoList(r.value[j])
  {
    var resultBoth := PromiseAllResult(lists, todos);
    FetchedReadsBothQueries(lists, todos);
    ListRowsRoundTrip(lists);
    TodoRowsRoundTrip(todos);
    var read := Fetched(resultBoth);
    r := SortedTodoLists(AsListRows(read.value.0), AsTodoRows(read.value.1));
    PartitionPutsNotDoneFirst(Joined(lists, todos));
  }

  /** `sortedTodoLists` from the two fetched collections on: `undefined`
      when either is missing, otherwise the joined lists, not-done ones
      first. */
  method SortedTodoLists(allTodoLists: Option<seq<TodoListRow>>, allTodos: Option<seq<TodoRow>>)
    returns (r: Option<seq<TodoList>>)
    ensures r.None? <==> allTodoLists.None? || allTodos.None?
    ensures r.Some? ==>
      var joined := Joined(allTodoLists.value, allTodos.value);
      && r.value == NotDoneLists(joined) + DoneLists(joined)
      && multiset(r.value) == multiset(joined)
  {
    if allTodoLists.None? || allTodos.None? {
      return None;
    }
    var joined := AttachTodos(allTodoLists.value, allTodos.value);
    var partitioned := PartitionTodoLists(joined);
    r := Some(partitioned);
  }
}
