/**
  The records both stores hand to their callers, and the rule that decides
  whether a todo list is done. Both stores define `isDoneTodoList` with the
  same expression (lib/session-persistence.js:33-37 and
  lib/pg-persistence.js:49-53), and both split lists into a not-done group
  and a done group by it.
 */
module Domain {
  import opened Js

  datatype Todo = Todo(id: int, title: string, done: bool)

  datatype TodoList = TodoList(id: int, title: string, todos: seq<Todo>)

  function TodoIsDone(t: Todo): bool { t.done }

  function TodoIsNotDone(t: Todo): bool { !t.done }

  /** `todos.length > 0 && todos.every((todo) => todo.done)`: a list is done
      when it has a todo and all its todos are done; an empty list never is. */
  function IsDoneTodoList(l: TodoList): (r: bool)
    ensures |l.todos| == 0 ==> !r
    ensures r <==> |l.todos| > 0 && forall i :: 0 <= i < |l.todos| ==> l.todos[i].done
  {
    |l.todos| > 0 && Every(l.todos, TodoIsDone)
  }

  function IsNotDoneTodoList(l: TodoList): bool { !IsDoneTodoList(l) }

  /** The lists `IsDoneTodoList` rejects, in their order in `lists`. */
  function NotDoneLists(lists: seq<TodoList>): seq<TodoList>
  {
    Filter(lists, IsNotDoneTodoList)
  }

  /** The lists `IsDoneTodoList` accepts, in their order in `lists`. */
  function DoneLists(lists: seq<TodoList>): seq<TodoList>
  {
    Filter(lists, IsDoneTodoList)
  }

  /** The not-done group holds exactly the lists `IsDoneTodoList` rejects,
      the done group exactly those it accepts, each as often as in `lists`. */
  lemma PartitionGroups(lists: seq<TodoList>, l: TodoList)
    ensures forall i :: 0 <= i < |NotDoneLists(lists)| ==> !IsDoneTodoList(NotDoneLists(lists)[i])
    ensures forall i :: 0 <= i < |DoneLists(lists)| ==> IsDoneTodoList(DoneLists(lists)[i])
    ensures multiset(NotDoneLists(lists))[l] == if IsDoneTodoList(l) then 0 else multiset(lists)[l]
    ensures multiset(DoneLists(lists))[l] == if IsDoneTodoList(l) then multiset(lists)[l] else 0
  {
    FilterCount(lists, IsNotDoneTodoList, l);
    FilterCount(lists, IsDoneTodoList, l);
  }

  /** Every list lands in exactly one of the two groups, as often as it
      occurs in `lists`. */
  lemma PartitionIsPermutation(lists: seq<TodoList>)
    ensures multiset(NotDoneLists(lists)) + multiset(DoneLists(lists)) == multiset(lists)
    ensures multiset(NotDoneLists(lists) + DoneLists(lists)) == multiset(lists)
  {
    FilterComplement(lists, IsNotDoneTodoList, IsDoneTodoList);
  }

  /** In the not-done group followed by the done group, no done list comes
      before a not-done one. */
  lemma PartitionPutsNotDoneFirst(lists: seq<TodoList>)
    ensures var r := NotDoneLists(lists) + DoneLists(lists);
      forall i, j :: 0 <= i < j < |r| && IsDoneTodoList(r[i]) ==> IsDoneTodoList(r[j])
  {
    var u, d := NotDoneLists(lists), DoneLists(lists);
    var r := u + d;
    assert forall k :: 0 <= k < |u| ==> r[k] == u[k];
    assert forall k :: |u| <= k < |r| ==> r[k] == d[k - |u|];
  }

  /** The partition is stable: any order the input lists are in (for
      instance by lower-cased title) holds within each group. */
  lemma PartitionIsStable(lists: seq<TodoList>, before: (TodoList, TodoList) -> bool)
    requires forall i, j :: 0 <= i < j < |lists| ==> before(lists[i], lists[j])
    ensures var u := NotDoneLists(lists);
      forall i, j :: 0 <= i < j < |u| ==> before(u[i], u[j])
    ensures var d := DoneLists(lists);
      forall i, j :: 0 <= i < j < |d| ==> before(d[i], d[j])
  {
    FilterKeepsOrder(lists, IsNotDoneTodoList, before);
    FilterKeepsOrder(lists, IsDoneTodoList, before);
  }
}
