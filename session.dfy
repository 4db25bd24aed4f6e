/**
  The in-memory store of lib/session-persistence.js. The store's single
  piece of state is the sequence of todo lists kept in the session; the
  class `SessionPersistence` holds it and its methods change it in place.
  Every read hands out a deep copy, which Dafny's value semantics gives for
  free, so each query is a function of the stored sequence. Each mutation
  has a value-level counterpart (`MarkedTodo`, `RemovedAt`, ...) that the
  method is proved to agree with and that the lemmas are about.
 */
module Session {
  import opened Js
  import opened Domain

  // ---------------------------------------------------------------- titles

  /** `toLowerCase` on one character, over ASCII letters. */
  function LowerChar(c: char): char
  {
    if 'A' <= c <= 'Z' then (c as int + 32) as char else c
  }

  /** `toLowerCase`: the same length, each upper-case ASCII letter turned
      into its lower-case partner, and every other character kept. */
  function Lower(s: string): (r: string)
    ensures |r| == |s|
    ensures forall i :: 0 <= i < |r| ==> !('A' <= r[i] <= 'Z')
    ensures forall i :: 0 <= i < |s| && !('A' <= s[i] <= 'Z') ==> r[i] == s[i]
    ensures forall i :: 0 <= i < |s| && 'A' <= s[i] <= 'Z' ==> r[i] == (s[i] as int - 'A' as int + 'a' as int) as char
  {
    seq(|s|, i requires 0 <= i < |s| => LowerChar(s[i]))
  }

  /** JavaScript's `a < b` on strings: lexicographic by character code, a
      proper prefix coming first. */
  predicate Below(a: string, b: string)
  {
    if b == [] then false
    else if a == [] then true
    else if a[0] != b[0] then a[0] < b[0]
    else Below(a[1..], b[1..])
  }

  /** Lower-casing twice is lower-casing once. */
  lemma LowerIdempotent(s: string)
    ensures Lower(Lower(s)) == Lower(s)
  {
  }

  /** `Below` is the usual lexicographic order: `a` and `b` agree up to some
      position `k`, where either `a` ends and `b` goes on, or `a`'s character
      is the smaller one. */
  lemma {:induction false} BelowMeansFirstDifference(a: string, b: string)
    ensures Below(a, b) <==>
      exists k :: 0 <= k <= |a| && k < |b| && a[..k] == b[..k] && (k == |a| || a[k] < b[k])
  {
    if b == [] {
    } else if a == [] {
      assert a[..0] == b[..0];
    } else if a[0] != b[0] {
      if a[0] < b[0] {
        assert a[..0] == b[..0];
      }
      forall k | 0 < k <= |a| && k < |b| ensures a[..k] != b[..k] {
        assert a[..k][0] == a[0] && b[..k][0] == b[0];
      }
    } else {
      BelowMeansFirstDifference(a[1..], b[1..]);
      if Below(a, b) {
        var k :| 0 <= k <= |a[1..]| && k < |b[1..]| && a[1..][..k] == b[1..][..k] && (k == |a[1..]| || a[1..][k] < b[1..][k]);
        assert a[..k + 1] == [a[0]] + a[1..][..k];
        assert b[..k + 1] == [b[0]] + b[1..][..k];
      }
      if exists k :: 0 <= k <= |a| && k < |b| && a[..k] == b[..k] && (k == |a| || a[k] < b[k]) {
        var k :| 0 <= k <= |a| && k < |b| && a[..k] == b[..k] && (k == |a| || a[k] < b[k]);
        if k == 0 {
          assert a[0] == b[0];
        } else {
          assert a[1..][..k - 1] == a[..k][1..];
          assert b[1..][..k - 1] == b[..k][1..];
        }
      }
    }
  }

  lemma {:induction false} BelowIrreflexive(a: string)
    ensures !Below(a, a)
  {
    if a != [] {
      BelowIrreflexive(a[1..]);
    }
  }

  lemma {:induction false} BelowAsymmetric(a: string, b: string)
    ensures !(Below(a, b) && Below(b, a))
  {
    if a != [] && b != [] && a[0] == b[0] {
      BelowAsymmetric(a[1..], b[1..]);
    }
  }

  lemma {:induction false} BelowTotal(a: string, b: string)
    ensures a == b || Below(a, b) || Below(b, a)
  {
    if a != [] && b != [] && a[0] == b[0] {
      BelowTotal(a[1..], b[1..]);
      if a[1..] == b[1..] {
        assert a == [a[0]] + a[1..] && b == [b[0]] + b[1..];
      }
    }
  }

  lemma {:induction false} BelowTransitive(a: string, b: string, c: string)
    requires Below(a, b) && Below(b, c)
    ensures Below(a, c)
  {
    if a != [] && a[0] == b[0] && b[0] == c[0] {
      BelowTransitive(a[1..], b[1..], c[1..]);
    }
  }

  /** `compareByTitle`: orders two todos by their lower-cased titles. */
  function CompareByTitle(a: Todo, b: Todo): (r: int)
    ensures r == -1 || r == 0 || r == 1
    ensures r == 0 <==> Lower(a.title) == Lower(b.title)
    ensures r == -1 <==> Below(Lower(a.title), Lower(b.title))
    ensures r == 1 <==> Below(Lower(b.title), Lower(a.title))
  {
    var x, y := Lower(a.title), Lower(b.title);
    BelowTotal(x, y);
    BelowIrreflexive(x);
    BelowAsymmetric(x, y);
    if Below(x, y) then -1 else if Below(y, x) then 1 else 0
  }

  /** Swapping the arguments of `compareByTitle` negates its answer. */
  lemma CompareByTitleAntisymmetric(a: Todo, b: Todo)
    ensures CompareByTitle(a, b) == -CompareByTitle(b, a)
  {
    BelowAsymmetric(Lower(a.title), Lower(b.title));
  }

  /** "Not after" under `compareByTitle` is transitive, so the comparator
      is a total preorder that a sort can rely on. */
  lemma CompareByTitleTransitive(a: Todo, b: Todo, c: Todo)
    requires CompareByTitle(a, b) <= 0 && CompareByTitle(b, c) <= 0
    ensures CompareByTitle(a, c) <= 0
  {
    var x, y, z := Lower(a.title), Lower(b.title), Lower(c.title);
    if Below(z, x) {
      BelowTotal(x, y);
      if Below(x, y) {
        BelowTransitive(z, x, y);
        BelowAsymmetric(y, z);
        BelowTotal(y, z);
        BelowIrreflexive(z);
      }
      BelowAsymmetric(z, x);
    }
  }

  // -------------------------------------------------------------- sorting

  predicate TitleSorted(s: seq<Todo>)
  {
    forall i, j :: 0 <= i < j < |s| ==> CompareByTitle(s[i], s[j]) <= 0
  }

  /** Puts `t` before the first element that does not sort before it. */
  function InsertByTitle(t: Todo, s: seq<Todo>): (r: seq<Todo>)
    ensures multiset(r) == multiset{t} + multiset(s)
  {
    if s == [] || CompareByTitle(t, s[0]) <= 0 then [t] + s
    else
      assert s == [s[0]] + s[1..];
      [s[0]] + InsertByTitle(t, s[1..])
  }

  /** A stable sort by `compareByTitle` (the `.sort(compareByTitle)` calls). */
  function SortByTitle(s: seq<Todo>): (r: seq<Todo>)
    ensures multiset(r) == multiset(s)
  {
    if s == [] then []
    else
      assert s == [s[0]] + s[1..];
      InsertByTitle(s[0], SortByTitle(s[1..]))
  }

  /** A title-sorted sequence stays sorted under a new first element that
      sorts before each of its elements. */
  lemma SortedCons(x: Todo, rest: seq<Todo>)
    requires TitleSorted(rest)
    requires forall k :: 0 <= k < |rest| ==> CompareByTitle(x, rest[k]) <= 0
    ensures TitleSorted([x] + rest)
  {
    var r := [x] + rest;
    forall i, j | 0 <= i < j < |r| ensures CompareByTitle(r[i], r[j]) <= 0 {
      assert r[j] == rest[j - 1];
      if i > 0 {
        assert r[i] == rest[i - 1];
      }
    }
  }

  lemma SortedTail(s: seq<Todo>)
    requires TitleSorted(s) && s != []
    ensures TitleSorted(s[1..])
  {
    var t := s[1..];
    forall i, j | 0 <= i < j < |t| ensures CompareByTitle(t[i], t[j]) <= 0 {
      assert t[i] == s[i + 1] && t[j] == s[j + 1];
    }
  }

  lemma {:induction false} InsertByTitleSorted(t: Todo, s: seq<Todo>)
    requires TitleSorted(s)
    ensures TitleSorted(InsertByTitle(t, s))
  {
    if s == [] {
    } else if CompareByTitle(t, s[0]) <= 0 {
      forall k | 0 <= k < |s| ensures CompareByTitle(t, s[k]) <= 0 {
        if k > 0 {
          CompareByTitleTransitive(t, s[0], s[k]);
        }
      }
      SortedCons(t, s);
    } else {
      CompareByTitleAntisymmetric(t, s[0]);
      var t' := s[1..];
      SortedTail(s);
      InsertByTitleSorted(t, t');
      var rest := InsertByTitle(t, t');
      forall k | 0 <= k < |rest| ensures CompareByTitle(s[0], rest[k]) <= 0 {
        var x := rest[k];
        assert x in multiset(rest);
        if x != t {
          assert x in multiset(t');
          var m :| 0 <= m < |t'| && t'[m] == x;
          assert s[m + 1] == x;
        }
      }
      SortedCons(s[0], rest);
    }
  }

  lemma {:induction false} SortByTitleSorted(s: seq<Todo>)
    ensures TitleSorted(SortByTitle(s))
  {
    if s != [] {
      SortByTitleSorted(s[1..]);
      InsertByTitleSorted(s[0], SortByTitle(s[1..]));
    }
  }


  /** `sortedTodos`: the not-done todos sorted by title, then the done ones
      sorted by title. */
  function SortedTodos(todoList: TodoList): (r: seq<Todo>)
    ensures multiset(r) == multiset(todoList.todos)
    ensures forall i, j :: 0 <= i < j < |r| && r[i].done ==> r[j].done
    ensures forall i, j :: 0 <= i < j < |r| && r[i].done == r[j].done ==> CompareByTitle(r[i], r[j]) <= 0
  {
    var todos := todoList.todos;
    var done := SortByTitle(Filter(todos, TodoIsDone));
    var undone := SortByTitle(Filter(todos, TodoIsNotDone));
    FilterComplement(todos, TodoIsNotDone, TodoIsDone);
    NotDoneGroupSorted(todos);
    DoneGroupSorted(todos);
    ConcatGroupsOrdered(undone, done);
    undone + done
  }

  /** Sorting by title keeps every todo's status. */
  lemma SortByTitleKeepsStatus(s: seq<Todo>, done: bool)
    requires forall k :: 0 <= k < |s| ==> s[k].done == done
    ensures var r := SortByTitle(s); forall k :: 0 <= k < |r| ==> r[k].done == done
  {
    var r := SortByTitle(s);
    forall k | 0 <= k < |r| ensures r[k].done == done {
      assert r[k] in multiset(s);
    }
  }

  /** Not-done todos sorted by title followed by done todos sorted by title:
      status never decreases, and titles never decrease within a status. */
  lemma ConcatGroupsOrdered(undone: seq<Todo>, done: seq<Todo>)
    requires forall k :: 0 <= k < |undone| ==> !undone[k].done
    requires forall k :: 0 <= k < |done| ==> done[k].done
    requires TitleSorted(undone) && TitleSorted(done)
    ensures var r := undone + done;
      && (forall i, j :: 0 <= i < j < |r| && r[i].done ==> r[j].done)
      && (forall i, j :: 0 <= i < j < |r| && r[i].done == r[j].done ==> CompareByTitle(r[i], r[j]) <= 0)
  {
    var r := undone + done;
    assert forall k :: 0 <= k < |undone| ==> r[k] == undone[k];
    assert forall k :: |undone| <= k < |r| ==> r[k] == done[k - |undone|];
  }

  /** The not-done group `sortedTodos` builds is title-sorted and not done. */
  lemma NotDoneGroupSorted(todos: seq<Todo>)
    ensures var g := SortByTitle(Filter(todos, TodoIsNotDone));
      TitleSorted(g) && forall k :: 0 <= k < |g| ==> !g[k].done
  {
    SortByTitleSorted(Filter(todos, TodoIsNotDone));
    SortByTitleKeepsStatus(Filter(todos, TodoIsNotDone), false);
  }

  /** The done group `sortedTodos` builds is title-sorted and done. */
  lemma DoneGroupSorted(todos: seq<Todo>)
    ensures var g := SortByTitle(Filter(todos, TodoIsDone));
      TitleSorted(g) && forall k :: 0 <= k < |g| ==> g[k].done
  {
    SortByTitleSorted(Filter(todos, TodoIsDone));
    SortByTitleKeepsStatus(Filter(todos, TodoIsDone), true);
  }

  // -------------------------------------------------------------- lookups

  function ListWithId(id: int): TodoList -> bool { (l: TodoList) => l.id == id }

  function TodoWithId(id: int): Todo -> bool { (t: Todo) => t.id == id }

  function ListWithTitle(title: string): TodoList -> bool { (l: TodoList) => l.title == title }

  /** Where `_loadStoredTodoList` finds its list: the first index with that
      id, or -1. */
  function ListIndex(lists: seq<TodoList>, id: int): int
  {
    FindIndex(lists, ListWithId(id))
  }

  /** `loadTodoList` / `_loadStoredTodoList`: the first stored list with
      that id, or `undefined`. */
  function LoadTodoList(lists: seq<TodoList>, id: int): (r: Option<TodoList>)
    ensures r.None? <==> forall i :: 0 <= i < |lists| ==> lists[i].id != id
    ensures r.Some? ==> (r.value.id == id &&
      exists i :: 0 <= i < |lists| && lists[i] == r.value && forall j :: 0 <= j < i ==> lists[j].id != id)
  {
    var r := Find(lists, ListWithId(id));
    assert r.Some? ==> lists[ListIndex(lists, id)] == r.value;
    r
  }

  /** `loadTodo` / `_loadStoredTodo`: the first todo with id `todoId` in the
      list `LoadTodoList` finds, or `undefined` when either is missing. */
  function LoadTodo(lists: seq<TodoList>, todoListId: int, todoId: int): (r: Option<Todo>)
    ensures r.None? <==> (LoadTodoList(lists, todoListId).None? ||
      forall k :: 0 <= k < |LoadTodoList(lists, todoListId).value.todos| ==>
        LoadTodoList(lists, todoListId).value.todos[k].id != todoId)
    ensures r.Some? ==> r.value.id == todoId && r.value in LoadTodoList(lists, todoListId).value.todos
    ensures r.Some? ==> var todos := LoadTodoList(lists, todoListId).value.todos;
      exists k :: 0 <= k < |todos| && todos[k] == r.value && forall j :: 0 <= j < k ==> todos[j].id != todoId
  {
    match LoadTodoList(lists, todoListId)
    case None => None
    case Some(l) => Find(l.todos, TodoWithId(todoId))
  }

  /** `findIndexOf`: the position of the first todo of `todoList` whose id is
      that of `todoToFind`, or -1. */
  function FindIndexOf(todoToFind: Todo, todoList: TodoList): (r: int)
    ensures -1 <= r < |todoList.todos|
    ensures r == -1 <==> forall k :: 0 <= k < |todoList.todos| ==> todoList.todos[k].id != todoToFind.id
    ensures 0 <= r ==> (todoList.todos[r].id == todoToFind.id &&
      forall k :: 0 <= k < r ==> todoList.todos[k].id != todoToFind.id)
  {
    FindIndex(todoList.todos, TodoWithId(todoToFind.id))
  }

  /** `uniqueListTitle`: no stored list has exactly this title (the
      comparison is case-sensitive). */
  function UniqueListTitle(lists: seq<TodoList>, newTitle: string): (r: bool)
    ensures r <==> forall i :: 0 <= i < |lists| ==> lists[i].title != newTitle
  {
    !Any(lists, ListWithTitle(newTitle))
  }

  /** `sortedTodoLists` up to the call into `sortTodoLists`: the stored
      lists split into the not-done group and the done group. */
  function SortedTodoLists(lists: seq<TodoList>): (r: (seq<TodoList>, seq<TodoList>))
    ensures multiset(r.0) + multiset(r.1) == multiset(lists)
    ensures forall i :: 0 <= i < |r.0| ==> !IsDoneTodoList(r.0[i])
    ensures forall i :: 0 <= i < |r.1| ==> IsDoneTodoList(r.1[i])
  {
    PartitionIsPermutation(lists);
    (NotDoneLists(lists), DoneLists(lists))
  }

  // ---------------------------------------------- mutations, as values

  /** Two sequences of lists with the same ids position by position. */
  predicate SameListIds(a: seq<TodoList>, b: seq<TodoList>)
  {
    |a| == |b| && forall i :: 0 <= i < |a| ==> a[i].id == b[i].id
  }

  predicate SameTodoIds(a: seq<Todo>, b: seq<Todo>)
  {
    |a| == |b| && forall i :: 0 <= i < |a| ==> a[i].id == b[i].id
  }

  lemma SameIdsSameListIndex(a: seq<TodoList>, b: seq<TodoList>, id: int)
    requires SameListIds(a, b)
    ensures ListIndex(a, id) == ListIndex(b, id)
  {
    FindIndexAgrees(a, b, ListWithId(id), ListWithId(id));
  }

  lemma SameIdsSameTodoIndex(a: seq<Todo>, b: seq<Todo>, id: int)
    requires SameTodoIds(a, b)
    ensures FindIndex(a, TodoWithId(id)) == FindIndex(b, TodoWithId(id))
  {
    FindIndexAgrees(a, b, TodoWithId(id), TodoWithId(id));
  }

  /** What `markDone` (`done` true) and `markUndone` (`done` false) do to
      the stored lists: set `done` on the todo `_loadStoredTodo` finds, or
      throw a TypeError when it finds none. */
  function MarkedTodo(lists: seq<TodoList>, todoListId: int, todoId: int, done: bool): (r: Result<seq<TodoList>>)
    ensures r.Throw? <==> LoadTodo(lists, todoListId, todoId).None?
    ensures r.Throw? ==> r.error == TypeError
  {
    var li := ListIndex(lists, todoListId);
    if li < 0 then Throw(TypeError)
    else
      var todos := lists[li].todos;
      var ti := FindIndex(todos, TodoWithId(todoId));
      if ti < 0 then Throw(TypeError)
      else Ok(lists[li := lists[li].(todos := todos[ti := todos[ti].(done := done)])])
  }

  /** Marking changes the `done` flag of the todo `loadTodo` finds and
      nothing else: every other list, every other todo of that list, and the
      list's id and title stay as they were. */
  lemma MarkedTodoEffect(lists: seq<TodoList>, todoListId: int, todoId: int, done: bool)
    requires LoadTodo(lists, todoListId, todoId).Some?
    ensures MarkedTodo(lists, todoListId, todoId, done).Ok?
    ensures var after := MarkedTodo(lists, todoListId, todoId, done).value;
      && LoadTodo(after, todoListId, todoId) == Some(LoadTodo(lists, todoListId, todoId).value.(done := done))
      && |after| == |lists|
      && (forall i :: 0 <= i < |lists| && i != ListIndex(lists, todoListId) ==> after[i] == lists[i])
    ensures var after := MarkedTodo(lists, todoListId, todoId, done).value;
      var li := ListIndex(lists, todoListId);
      var ti := FindIndex(lists[li].todos, TodoWithId(todoId));
      && after[li].id == lists[li].id && after[li].title == lists[li].title
      && |after[li].todos| == |lists[li].todos|
      && (forall k :: 0 <= k < |lists[li].todos| && k != ti ==> after[li].todos[k] == lists[li].todos[k])
      && after[li].todos[ti] == lists[li].todos[ti].(done := done)
  {
    var li := ListIndex(lists, todoListId);
    var todos := lists[li].todos;
    var ti := FindIndex(todos, TodoWithId(todoId));
    var after := MarkedTodo(lists, todoListId, todoId, done).value;
    SameIdsSameListIndex(after, lists, todoListId);
    SameIdsSameTodoIndex(after[li].todos, todos, todoId);
  }

  /** Marking the same todo the same way twice is the same as marking it
      once. */
  lemma MarkedTodoIdempotent(lists: seq<TodoList>, todoListId: int, todoId: int, done: bool)
    requires MarkedTodo(lists, todoListId, todoId, done).Ok?
    ensures var once := MarkedTodo(lists, todoListId, todoId, done).value;
      MarkedTodo(once, todoListId, todoId, done) == Ok(once)
  {
    var li := ListIndex(lists, todoListId);
    var todos := lists[li].todos;
    var ti := FindIndex(todos, TodoWithId(todoId));
    var once := MarkedTodo(lists, todoListId, todoId, done).value;
    SameIdsSameListIndex(once, lists, todoListId);
    var ots := once[li].todos;
    SameIdsSameTodoIndex(ots, todos, todoId);
    assert ots[ti].(done := done) == ots[ti];
    assert ots[ti := ots[ti]] == ots;
    assert once[li].(todos := ots) == once[li];
    assert once[li := once[li]] == once;
  }

  /** Marking a todo and then marking it back to its former status restores
      the stored lists exactly: `markDone` and `markUndone` undo each other. */
  lemma MarkedTodoUndo(lists: seq<TodoList>, todoListId: int, todoId: int, done: bool)
    requires LoadTodo(lists, todoListId, todoId).Some?
    ensures var was := LoadTodo(lists, todoListId, todoId).value.done;
      var once := MarkedTodo(lists, todoListId, todoId, done).value;
      MarkedTodo(once, todoListId, todoId, was) == Ok(lists)
  {
    var li := ListIndex(lists, todoListId);
    var todos := lists[li].todos;
    var ti := FindIndex(todos, TodoWithId(todoId));
    var once := MarkedTodo(lists, todoListId, todoId, done).value;
    SameIdsSameListIndex(once, lists, todoListId);
    SameIdsSameTodoIndex(once[li].todos, todos, todoId);
    var ots := once[li].todos;
    assert ots[ti].(done := todos[ti].done) == todos[ti];
    assert ots[ti := todos[ti]] == todos;
    assert once[li].(todos := todos) == lists[li];
    assert once[li := lists[li]] == lists;
  }

  /** What `removeAt(index, todoList)` does: `_validateIndex` checks `index`
      against the ARGUMENT's todos (ReferenceError), the stored list with the
      argument's id is looked up (TypeError when there is none), and `splice`
      takes out the element at `index` of the STORED todos, returning it in a
      one-element array, or returns `[]` when the stored todos are shorter. */
  function RemovedAt(lists: seq<TodoList>, index: int, todoList: TodoList): (r: Result<(seq<Todo>, seq<TodoList>)>)
    ensures r == Throw(ReferenceError(index)) <==> !(0 <= index < |todoList.todos|)
    ensures r == Throw(TypeError) <==> 0 <= index < |todoList.todos| && LoadTodoList(lists, todoList.id).None?
  {
    if !(0 <= index < |todoList.todos|) then Throw(ReferenceError(index))
    else
      var li := ListIndex(lists, todoList.id);
      if li < 0 then Throw(TypeError)
      else
        var todos := lists[li].todos;
        if index < |todos| then
          Ok(([todos[index]], lists[li := lists[li].(todos := todos[..index] + todos[index + 1..])]))
        else Ok(([], lists))
  }

  /** For any `todoList` whose id is stored, a stale copy included, and an
      `index` that is a position in ITS todos: when `index` is also a position
      in the stored list's todos, `removeAt` returns exactly the stored todo
      at `index` and the stored list loses just that todo, the rest in their
      order; otherwise it returns `[]` and changes nothing. Every other list
      is unchanged. */
  lemma RemovedAtEffect(lists: seq<TodoList>, index: int, todoList: TodoList)
    requires LoadTodoList(lists, todoList.id).Some?
    requires 0 <= index < |todoList.todos|
    ensures RemovedAt(lists, index, todoList).Ok?
    ensures var (removed, after) := RemovedAt(lists, index, todoList).value;
      var li := ListIndex(lists, todoList.id);
      var stored := LoadTodoList(lists, todoList.id).value;
      && |after| == |lists|
      && (forall i :: 0 <= i < |lists| && i != li ==> after[i] == lists[i])
      && (index < |stored.todos| ==>
            && removed == [stored.todos[index]]
            && after[li] == stored.(todos := stored.todos[..index] + stored.todos[index + 1..])
            && |after[li].todos| == |stored.todos| - 1)
      && (index >= |stored.todos| ==> removed == [] && after == lists)
  {
    assert lists[ListIndex(lists, todoList.id)] == LoadTodoList(lists, todoList.id).value;
  }

  /** `removeAt` with a stale copy of a list: the index is checked against
      the copy's two todos and then applied to the stored list, which has
      one. Index 0 removes the stored todo; index 1 passes the check and
      removes nothing. */
  lemma RemovedAtStaleCopy()
    ensures var stored := TodoList(1, "Groceries", [Todo(7, "milk", false)]);
      var copy := TodoList(1, "Groceries", [Todo(9, "bread", false), Todo(8, "eggs", true)]);
      && RemovedAt([stored], 0, copy) == Ok(([Todo(7, "milk", false)], [stored.(todos := [])]))
      && RemovedAt([stored], 1, copy) == Ok(([], [stored]))
      && RemovedAt([stored], 2, copy) == Throw(ReferenceError(2))
  {
    var stored := TodoList(1, "Groceries", [Todo(7, "milk", false)]);
    var copy := TodoList(1, "Groceries", [Todo(9, "bread", false), Todo(8, "eggs", true)]);
    assert ListIndex([stored], 1) == 0;
    assert stored.todos[..0] + stored.todos[1..] == [];
    assert [stored][0 := stored.(todos := [])] == [stored.(todos := [])];
    assert RemovedAt([stored], 0, copy) == Ok(([Todo(7, "milk", false)], [stored.(todos := [])]));
    assert RemovedAt([stored], 1, copy) == Ok(([], [stored]));
  }

  /** The todos of `todos` with positions below `k` that are the first todo
      bearing their id set to done: the state `markAllDone`'s loop has
      reached after `k` calls of `markDone(todoListId, todo.id)`. */
  function FirstsMarkedDone(todos: seq<Todo>, k: nat): (r: seq<Todo>)
    ensures SameTodoIds(r, todos)
  {
    seq(|todos|, m requires 0 <= m < |todos| =>
      todos[m].(done := todos[m].done || (m < k && FindIndex(todos, TodoWithId(todos[m].id)) == m)))
  }

  /** The stored lists once `markAllDone`'s loop has handled the first `k`
      todos of the list at position `li`. */
  function MarkedUpTo(lists: seq<TodoList>, li: int, k: nat): (r: seq<TodoList>)
    requires 0 <= li < |lists|
    ensures SameListIds(r, lists)
    ensures k == 0 ==> r == lists
  {
    var list := lists[li];
    assert k == 0 ==> FirstsMarkedDone(list.todos, k) == list.todos;
    assert list.(todos := list.todos) == list;
    lists[li := list.(todos := FirstsMarkedDone(list.todos, k))]
  }

  /** What `markAllDone(todoListId)` does: false and no change when no list
      has the id; otherwise true, with `markDone` applied by id to each todo
      of the first list with the id. */
  function WithAllMarkedDone(lists: seq<TodoList>, todoListId: int): (r: (bool, seq<TodoList>))
    ensures r.0 <==> LoadTodoList(lists, todoListId).Some?
    ensures !r.0 ==> r.1 == lists
  {
    var li := ListIndex(lists, todoListId);
    if li < 0 then (false, lists)
    else (true, MarkedUpTo(lists, li, |lists[li].todos|))
  }

  /** Marking done the first todo bearing the k-th todo's id moves the
      todos from k handled positions to k + 1. */
  lemma FirstsMarkedDoneStep(todos: seq<Todo>, k: nat)
    requires k < |todos|
    ensures var f := FindIndex(todos, TodoWithId(todos[k].id));
      var marked := FirstsMarkedDone(todos, k);
      && 0 <= f <= k
      && marked[f := marked[f].(done := true)] == FirstsMarkedDone(todos, k + 1)
  {
    var id := todos[k].id;
    var marked := FirstsMarkedDone(todos, k);
    var f := FindIndex(todos, TodoWithId(id));
    var next := FirstsMarkedDone(todos, k + 1);
    forall m | 0 <= m < |todos|
      ensures marked[f := marked[f].(done := true)][m] == next[m]
    {
      if m == f {
        assert todos[f].id == id;
      } else if m == k {
        assert todos[k].id == id;
      }
    }
  }

  /** One step of `markAllDone`'s loop: `markDone` on the id of the k-th
      todo moves the state from k marked positions to k + 1. */
  lemma MarkAllDoneStep(start: seq<TodoList>, todoListId: int, k: nat)
    requires 0 <= ListIndex(start, todoListId)
    requires k < |start[ListIndex(start, todoListId)].todos|
    ensures var li := ListIndex(start, todoListId);
      MarkedTodo(MarkedUpTo(start, li, k), todoListId, start[li].todos[k].id, true)
        == Ok(MarkedUpTo(start, li, k + 1))
  {
    var li := ListIndex(start, todoListId);
    var todos := start[li].todos;
    var cur := MarkedUpTo(start, li, k);
    var id := todos[k].id;
    SameIdsSameListIndex(cur, start, todoListId);
    var marked := FirstsMarkedDone(todos, k);
    SameIdsSameTodoIndex(marked, todos, id);
    FirstsMarkedDoneStep(todos, k);
    var next := FirstsMarkedDone(todos, k + 1);
    assert cur[li].todos == marked;
    assert cur[li].(todos := next) == start[li].(todos := next);
    assert cur[li := cur[li].(todos := next)] == start[li := start[li].(todos := next)];
  }

  /** When the todos of the list have distinct ids, as freshly generated ids
      guarantee, `markAllDone` leaves every one of them done and changes
      nothing but their `done` flags. */
  lemma MarkAllDoneMarksAll(lists: seq<TodoList>, todoListId: int)
    requires LoadTodoList(lists, todoListId).Some?
    requires var todos := LoadTodoList(lists, todoListId).value.todos;
      forall a, b :: 0 <= a < b < |todos| ==> todos[a].id != todos[b].id
    ensures var after := WithAllMarkedDone(lists, todoListId).1;
      var li := ListIndex(lists, todoListId);
      && |after| == |lists|
      && (forall i :: 0 <= i < |lists| && i != li ==> after[i] == lists[i])
      && after[li].id == lists[li].id && after[li].title == lists[li].title
      && |after[li].todos| == |lists[li].todos|
      && forall k :: 0 <= k < |after[li].todos| ==>
           after[li].todos[k] == lists[li].todos[k].(done := true)
  {
    var li := ListIndex(lists, todoListId);
    var todos := lists[li].todos;
    forall m | 0 <= m < |todos| ensures FindIndex(todos, TodoWithId(todos[m].id)) == m {
      var f := FindIndex(todos, TodoWithId(todos[m].id));
      assert todos[f].id == todos[m].id;
    }
  }

  /** What `createTodo(todoListId, title)` does with the id `nextId()`
      gives: append `{id, title, done: false}` to the stored list's todos,
      or throw a TypeError when there is no such list. */
  function WithNewTodo(lists: seq<TodoList>, todoListId: int, title: string, id: int): (r: Result<seq<TodoList>>)
    ensures r.Throw? <==> LoadTodoList(lists, todoListId).None?
    ensures r.Throw? ==> r.error == TypeError
  {
    var li := ListIndex(lists, todoListId);
    if li < 0 then Throw(TypeError)
    else Ok(lists[li := lists[li].(todos := lists[li].todos + [Todo(id, title, false)])])
  }

  /** After `createTodo` with a fresh id, the list has one more todo, its
      earlier todos are unchanged, `loadTodo` finds the new todo not done
      with the given title, and the list is no longer done. */
  lemma CreateThenLoad(lists: seq<TodoList>, todoListId: int, title: string, id: int)
    requires LoadTodoList(lists, todoListId).Some?
    requires forall t :: t in LoadTodoList(lists, todoListId).value.todos ==> t.id != id
    ensures WithNewTodo(lists, todoListId, title, id).Ok?
    ensures var after := WithNewTodo(lists, todoListId, title, id).value;
      var before := LoadTodoList(lists, todoListId).value;
      && LoadTodo(after, todoListId, id) == Some(Todo(id, title, false))
      && LoadTodoList(after, todoListId).Some?
      && LoadTodoList(after, todoListId).value.todos == before.todos + [Todo(id, title, false)]
      && !IsDoneTodoList(LoadTodoList(after, todoListId).value)
    ensures var after := WithNewTodo(lists, todoListId, title, id).value;
      var li := ListIndex(lists, todoListId);
      && |after| == |lists|
      && after[li] == lists[li].(todos := lists[li].todos + [Todo(id, title, false)])
      && (forall i :: 0 <= i < |lists| && i != li ==> after[i] == lists[i])
  {
    var li := ListIndex(lists, todoListId);
    var after := WithNewTodo(lists, todoListId, title, id).value;
    SameIdsSameListIndex(after, lists, todoListId);
    var todos := after[li].todos;
    assert todos[|todos| - 1] == Todo(id, title, false);
    assert forall k :: 0 <= k < |todos| - 1 ==> todos[k] in lists[li].todos;
  }

  /** What `setListTitle(todoListId, newTitle)` does: retitle the stored
      list, or throw a TypeError when there is none. */
  function WithListTitle(lists: seq<TodoList>, todoListId: int, newTitle: string): (r: Result<seq<TodoList>>)
    ensures r.Throw? <==> LoadTodoList(lists, todoListId).None?
    ensures r.Throw? ==> r.error == TypeError
  {
    var li := ListIndex(lists, todoListId);
    if li < 0 then Throw(TypeError)
    else Ok(lists[li := lists[li].(title := newTitle)])
  }

  /** Retitling changes only that list's title, after which the title is no
      longer unique. */
  lemma WithListTitleEffect(lists: seq<TodoList>, todoListId: int, newTitle: string)
    requires LoadTodoList(lists, todoListId).Some?
    ensures WithListTitle(lists, todoListId, newTitle).Ok?
    ensures var after := WithListTitle(lists, todoListId, newTitle).value;
      var li := ListIndex(lists, todoListId);
      && !UniqueListTitle(after, newTitle)
      && |after| == |lists|
      && after[li] == lists[li].(title := newTitle)
      && (forall i :: 0 <= i < |lists| && i != li ==> after[i] == lists[i])
  {
    var li := ListIndex(lists, todoListId);
    assert WithListTitle(lists, todoListId, newTitle).value[li].title == newTitle;
  }

  /** Once a list titled `t` is appended, as `addList` does, `t` is no
      longer unique. */
  lemma AddListTakesTitle(lists: seq<TodoList>, list: TodoList)
    ensures UniqueListTitle(lists, list.title) ==>
      UniqueListTitle(lists + [list], list.title) != UniqueListTitle(lists, list.title)
    ensures !UniqueListTitle(lists + [list], list.title)
  {
    assert (lists + [list])[|lists|] == list;
  }

  // ---------------------------------------------------------- the store

  /** `SessionPersistence`: the session's todo lists, changed in place. */
  class SessionPersistence {
    var todoLists: seq<TodoList>

    /** The session's lists when it has some, otherwise a copy of the seed. */
    constructor (sessionTodoLists: Option<seq<TodoList>>, seed: seq<TodoList>)
      ensures todoLists == if sessionTodoLists.Some? then sessionTodoLists.value else seed
    {
      todoLists := if sessionTodoLists.Some? then sessionTodoLists.value else seed;
    }

    method MarkDone(todoListId: int, todoId: int) returns (r: Result<()>)
      modifies this
      ensures r.Throw? <==> LoadTodo(old(todoLists), todoListId, todoId).None?
      ensures r.Ok? ==> LoadTodo(todoLists, todoListId, todoId).Some? && LoadTodo(todoLists, todoListId, todoId).value.done
      ensures match MarkedTodo(old(todoLists), todoListId, todoId, true)
        case Ok(lists) => r == Ok(()) && todoLists == lists
        case Throw(e) => r == Throw(e) && todoLists == old(todoLists)
    {
      var li := ListIndex(todoLists, todoListId);
      if li < 0 {
        return Throw(TypeError);
      }
      var list := todoLists[li];
      var ti := FindIndex(list.todos, TodoWithId(todoId));
      if ti < 0 {
        return Throw(TypeError);
      }
      MarkedTodoEffect(todoLists, todoListId, todoId, true);
      todoLists := todoLists[li := list.(todos := list.todos[ti := list.todos[ti].(done := true)])];
      r := Ok(());
    }

    method MarkUndone(todoListId: int, todoId: int) returns (r: Result<()>)
      modifies this
      ensures r.Throw? <==> LoadTodo(old(todoLists), todoListId, todoId).None?
      ensures r.Ok? ==> LoadTodo(todoLists, todoListId, todoId).Some? && !LoadTodo(todoLists, todoListId, todoId).value.done
      ensures match MarkedTodo(old(todoLists), todoListId, todoId, false)
        case Ok(lists) => r == Ok(()) && todoLists == lists
        case Throw(e) => r == Throw(e) && todoLists == old(todoLists)
    {
      var li := ListIndex(todoLists, todoListId);
      if li < 0 {
        return Throw(TypeError);
      }
      var list := todoLists[li];
      var ti := FindIndex(list.todos, TodoWithId(todoId));
      if ti < 0 {
        return Throw(TypeError);
      }
      MarkedTodoEffect(todoLists, todoListId, todoId, false);
      todoLists := todoLists[li := list.(todos := list.todos[ti := list.todos[ti].(done := false)])];
      r := Ok(());
    }

    method RemoveAt(index: int, todoList: TodoList) returns (r: Result<seq<Todo>>)
      modifies this
      ensures match RemovedAt(old(todoLists), index, todoList)
        case Ok(p) => r == Ok(p.0) && todoLists == p.1
        case Throw(e) => r == Throw(e) && todoLists == old(todoLists)
    {
      if !(0 <= index < |todoList.todos|) {
        return Throw(ReferenceError(index));
      }
      var li := ListIndex(todoLists, todoList.id);
      if li < 0 {
        return Throw(TypeError);
      }
      var todos := todoLists[li].todos;
      if index < |todos| {
        todoLists := todoLists[li := todoLists[li].(todos := todos[..index] + todos[index + 1..])];
        r := Ok([todos[index]]);
      } else {
        r := Ok([]);
      }
    }

    method MarkAllDone(todoListId: int) returns (r: bool)
      modifies this
      ensures r <==> LoadTodoList(old(todoLists), todoListId).Some?
      ensures (r, todoLists) == WithAllMarkedDone(old(todoLists), todoListId)
    {
      var li := ListIndex(todoLists, todoListId);
      if li < 0 {
        return false;
      }
      var todos := todoLists[li].todos;
      ghost var start := todoLists;
      for k := 0 to |todos|
        invariant todoLists == MarkedUpTo(start, li, k)
      {
        MarkAllDoneStep(start, todoListId, k);
        var marked := MarkDone(todoListId, todos[k].id);
      }
      r := true;
    }

    method CreateTodo(todoListId: int, title: string, id: int) returns (r: Result<bool>)
      modifies this
      ensures r.Ok? ==> r.value
      ensures match WithNewTodo(old(todoLists), todoListId, title, id)
        case Ok(lists) => r == Ok(true) && todoLists == lists
        case Throw(e) => r == Throw(e) && todoLists == old(todoLists)
    {
      var li := ListIndex(todoLists, todoListId);
      if li < 0 {
        return Throw(TypeError);
      }
      var list := todoLists[li];
      todoLists := todoLists[li := list.(todos := list.todos + [Todo(id, title, false)])];
      r := Ok(true);
    }

    method SetListTitle(todoListId: int, newTitle: string) returns (r: Result<bool>)
      modifies this
      ensures r.Ok? ==> r.value && !UniqueListTitle(todoLists, newTitle)
      ensures match WithListTitle(old(todoLists), todoListId, newTitle)
        case Ok(lists) => r == Ok(true) && todoLists == lists
        case Throw(e) => r == Throw(e) && todoLists == old(todoLists)
    {
      var li := ListIndex(todoLists, todoListId);
      if li < 0 {
        return Throw(TypeError);
      }
      WithListTitleEffect(todoLists, todoListId, newTitle);
      todoLists := todoLists[li := todoLists[li].(title := newTitle)];
      r := Ok(true);
    }

    method AddList(listObject: TodoList)
      modifies this
      ensures todoLists == old(todoLists) + [listObject]
      ensures !UniqueListTitle(todoLists, listObject.title)
    {
      AddListTakesTitle(todoLists, listObject);
      todoLists := todoLists + [listObject];
    }
  }
}
