# Todo list stores, modelled in Dafny

A todo application keeps each user's todo lists in one of two stores.
`SessionPersistence` (lib/session-persistence.js) keeps the lists in the
user's session. It looks lists and todos up by id. It sorts todos by
lower-cased title, not-done ones first. It changes the stored lists in
place: marking todos done or undone, removing a todo by index, marking a
whole list done, appending a todo, retitling a list and adding a list.
`PgPersistence` (lib/pg-persistence.js) keeps the lists in PostgreSQL. Only
the part of its `sortedTodoLists` that runs in the application is modelled:
the guard against a missing result, the in-memory join of todo rows onto
their lists, and `_partitionTodoLists` with its `isDoneTodoList` rule.

The project has four modules:

- `Js` (js.dfy): `undefined` as `Option` and a thrown exception as
  `Result`. It also has `findIndex`, `find`, `some`, `every` and `filter` as
  functions on sequences, each with its meaning stated, and lemmas about
  `filter`.
- `Domain` (domain.dfy): the `Todo` and `TodoList` records and the done
  rule, which both stores define with the same expression. It also proves
  facts about the not-done / done split that both stores make.
- `Session` (session.dfy): the session store. Each query is a function of
  the stored sequence. Deep copies are free under Dafny's value semantics.
  Each mutation has a value-level function (`MarkedTodo`, `RemovedAt`,
  `WithAllMarkedDone`, `WithNewTodo`, `WithListTitle`) that the lemmas are
  about. The class `SessionPersistence` holds the lists in a field, and its
  methods update that field. Each method's `ensures` ties the new state and
  the return value to the value-level function.
- `PgPersistence` (pg.dfy): the join as a loop (`AttachTodos`) and the
  partition as a loop (`PartitionTodoLists`). Each loop is proved against
  a function on the fetched rows.

JavaScript exceptions are modelled as `Throw(TypeError)` and
`Throw(ReferenceError(index))`. A TypeError is a property read or write
on `undefined`. A ReferenceError is the `invalid index` error of
`_validateIndex`.

A few behaviours of the code are easy to miss:

- `uniqueListTitle` compares titles exactly, so it is case-sensitive.
- `markDone` and `markUndone` throw a TypeError for a missing list or
  todo. They do not fail silently.
- `removeAt` checks the index against the todos of the list it is
  given, not against the stored list. It then splices the stored list.
  When `index` is at or past the end of the stored list's todos,
  nothing is removed and `[]` is returned.
- `markAllDone` calls `markDone` by id. When a list holds two todos with
  the same id, only the first of them is marked, once for each of them.
  `MarkAllDoneMarksAll` states the full effect for lists whose ids are
  distinct.

## Model

| member | source | states |
|---|---|---|
| `Js.FindIndex` | lib/session-persistence.js:91 | `findIndex` gives -1 exactly when no element satisfies the predicate; otherwise the index of an element that satisfies it, with no earlier one that does |
| `Js.Find` | lib/session-persistence.js:67-69 | `find` gives `undefined` exactly when no element satisfies the predicate; otherwise the element at the first position that satisfies it |
| `Js.Any` | lib/session-persistence.js:118 | `some` holds exactly when some element satisfies the predicate |
| `Js.Every` | lib/session-persistence.js:35 | `every` holds exactly when all elements satisfy the predicate, so it always holds of an empty array |
| `Js.Filter` | lib/session-persistence.js:28-29 | `filter` keeps only elements satisfying the predicate, never more often than they occur |
| `Js.FilterSnoc` | lib/pg-persistence.js:38-44 | filtering a sequence extended by one element extends the filtered sequence by that element exactly when it satisfies the predicate (what a loop that pushes builds) |
| `Js.FilterComplement` | lib/session-persistence.js:28-29 | filtering by a predicate and by its negation splits the sequence into two parts that together hold each element exactly as often as the sequence does |
| `Js.FilterCountAll` | lib/pg-persistence.js:26-28 | `FilterCount` for every element at once |
| `Js.FilterCount` | lib/pg-persistence.js:26-28 | a filtered sequence holds each satisfying element exactly as often as the input, and no other element |
| `Js.FilterKeepsOrder` | lib/pg-persistence.js:26-28 | any relation between earlier and later elements of the input holds between earlier and later elements of the filtered sequence |
| `Js.FindIndexAgrees` | lib/session-persistence.js:67-69 | the lookup depends only on the predicate's answer at each position, so changes that keep ids keep the found position |
| `Domain.IsDoneTodoList` | lib/session-persistence.js:33-37 | a list is done exactly when it has at least one todo and all its todos are done; an empty list is never done (lib/pg-persistence.js:49-53 is the same rule) |
| `Domain.NotDoneLists` | lib/session-persistence.js:28 | the lists `isDoneTodoList` rejects, in input order (`filter`); its meaning is stated by `PartitionGroups`, `PartitionIsPermutation` and `PartitionIsStable` |
| `Domain.DoneLists` | lib/session-persistence.js:29 | the lists `isDoneTodoList` accepts, in input order (`filter`); its meaning is stated by `PartitionGroups`, `PartitionIsPermutation` and `PartitionIsStable` |
| `Domain.PartitionGroups` | lib/pg-persistence.js:38-44 | the not-done group holds only lists that are not done, the done group only done lists, each list as often as in the input |
| `Domain.PartitionIsPermutation` | lib/pg-persistence.js:34-47 | not-done group followed by done group is a rearrangement of the input |
| `Domain.PartitionPutsNotDoneFirst` | lib/pg-persistence.js:46 | in `undone.concat(done)` no done list comes before a list that is not done |
| `Domain.PartitionIsStable` | lib/pg-persistence.js:38-44 | any order the input lists are in (such as the query's title order) holds within each group |
| `Session.LowerChar` | lib/session-persistence.js:8-9 | `toLowerCase` on one character over ASCII; its meaning is stated by `Lower` |
| `Session.Lower` | lib/session-persistence.js:8-9 | lower-casing keeps the length, turns each upper-case ASCII letter into its lower-case partner, leaves no upper-case ASCII letter, and keeps every other character |
| `Session.LowerIdempotent` | lib/session-persistence.js:8-9 | lower-casing an already lower-cased title changes nothing |
| `Session.Below` | lib/session-persistence.js:11-13 | JavaScript's `<` on strings; its meaning is stated by `BelowMeansFirstDifference` and the four order lemmas |
| `Session.BelowMeansFirstDifference` | lib/session-persistence.js:11-13 | `a < b` exactly when both agree up to some position where `a` ends and `b` goes on, or `a` has the smaller character |
| `Session.BelowIrreflexive` | lib/session-persistence.js:11 | no string sorts before itself under `<` |
| `Session.BelowAsymmetric` | lib/session-persistence.js:11-13 | `a < b` and `b < a` never both hold |
| `Session.BelowTotal` | lib/session-persistence.js:11-16 | two different strings are ordered one way or the other, so the `else` branch means equal strings |
| `Session.BelowTransitive` | lib/session-persistence.js:11-13 | `<` on strings is transitive |
| `Session.CompareByTitle` | lib/session-persistence.js:7-18 | the comparator gives -1 exactly when the first lower-cased title is below the second, 1 exactly when it is above, and 0 exactly when they are equal |
| `Session.CompareByTitleAntisymmetric` | lib/session-persistence.js:7-18 | swapping the arguments negates the answer |
| `Session.CompareByTitleTransitive` | lib/session-persistence.js:7-18 | "not after" is transitive, so the comparator is a consistent ordering for `sort` |
| `Session.InsertByTitle` | lib/session-persistence.js:46-47 | inserting a todo adds exactly that todo to the sequence's contents |
| `Session.SortByTitle` | lib/session-persistence.js:46-47 | sorting rearranges the todos and neither adds nor loses any |
| `Session.SortedCons` | lib/session-persistence.js:46-47 | a title-sorted sequence stays sorted under a new first element that sorts before each of its elements |
| `Session.SortedTail` | lib/session-persistence.js:46-47 | the tail of a title-sorted sequence is title-sorted |
| `Session.InsertByTitleSorted` | lib/session-persistence.js:46-47 | inserting into a title-sorted sequence keeps it title-sorted |
| `Session.SortByTitleSorted` | lib/session-persistence.js:46-47 | the result of the sort is title-sorted under `compareByTitle` |
| `Session.SortByTitleKeepsStatus` | lib/session-persistence.js:46-47 | sorting a group of todos of one status leaves a group of that status |
| `Session.ConcatGroupsOrdered` | lib/session-persistence.js:49 | sorted not-done todos followed by sorted done todos put every not-done todo first and keep titles in order within each status |
| `Session.SortedTodos` | lib/session-persistence.js:43-50 | `sortedTodos` returns exactly the list's todos, each as often as in the list; no done todo precedes a not-done one; todos of equal status are in ascending lower-cased title order |
| `Session.NotDoneGroupSorted` | lib/session-persistence.js:47 | the not-done group is title-sorted and holds only not-done todos |
| `Session.DoneGroupSorted` | lib/session-persistence.js:46 | the done group is title-sorted and holds only done todos |
| `Session.LoadTodoList` | lib/session-persistence.js:66-71 | `undefined` exactly when no stored list has the id; otherwise the first stored list with that id |
| `Session.LoadTodo` | lib/session-persistence.js:55-64 | `undefined` exactly when the list is missing or has no todo with that id; otherwise the first todo of that list with that id |
| `Session.FindIndexOf` | lib/session-persistence.js:89-92 | -1 exactly when no todo of the list has the id of `todoToFind`; otherwise the first position holding that id |
| `Session.UniqueListTitle` | lib/session-persistence.js:117-119 | true exactly when no stored list has exactly that title |
| `Session.SortedTodoLists` | lib/session-persistence.js:26-31 | the two groups handed to `sortTodoLists` are a split of the stored lists: not-done lists in one and done lists in the other, together each list as often as stored |
| `Session.SameIdsSameListIndex` | lib/session-persistence.js:66-71 | two sequences of lists with the same ids position by position find a list id at the same position |
| `Session.SameIdsSameTodoIndex` | lib/session-persistence.js:63 | two sequences of todos with the same ids position by position find a todo id at the same position |
| `Session.MarkedTodo` | lib/session-persistence.js:73-81 | marking throws, always a TypeError, exactly when `loadTodo` finds nothing |
| `Session.MarkedTodoEffect` | lib/session-persistence.js:73-81 | after marking, `loadTodo` finds the old todo with the new `done`; no other list changes; the list keeps its id, title and length; no other todo changes |
| `Session.MarkedTodoIdempotent` | lib/session-persistence.js:73-81 | marking the same todo the same way twice leaves what marking it once left |
| `Session.MarkedTodoUndo` | lib/session-persistence.js:73-81 | marking a todo and then restoring its former status gives back exactly the stored lists, so `markDone` and `markUndone` undo each other |
| `Session.RemovedAt` | lib/session-persistence.js:83-87 | ReferenceError exactly when the index is not a position of the argument's todos; TypeError exactly when it is and no stored list has the argument's id |
| `Session.RemovedAtEffect` | lib/session-persistence.js:83-87 | for any list whose id is stored and an index valid for that argument: when the index is a position of the STORED todos, `removeAt` returns the stored todo there in a one-element array, and the stored list loses just that todo with the rest in order and its length one less; otherwise it returns `[]` and changes nothing; other lists never change |
| `Session.RemovedAtStaleCopy` | lib/session-persistence.js:83-87 | with a stale copy holding two todos and a stored list holding one, index 0 removes the stored todo, index 1 passes the check and removes nothing, index 2 throws |
| `Session.FirstsMarkedDone` | lib/session-persistence.js:97 | the loop's intermediate todos keep every todo's id in place |
| `Session.MarkedUpTo` | lib/session-persistence.js:97 | the intermediate state of `markAllDone` keeps every list id in place and is the stored lists before the first call |
| `Session.WithAllMarkedDone` | lib/session-persistence.js:94-99 | `markAllDone` returns true exactly when a list with the id is stored, and changes nothing when it returns false |
| `Session.FirstsMarkedDoneStep` | lib/session-persistence.js:97 | marking done the first todo with the k-th todo's id takes the todos from k handled positions to k + 1 |
| `Session.MarkAllDoneStep` | lib/session-persistence.js:97 | the `markDone` call on the k-th todo's id succeeds and takes the loop from k handled todos to k + 1 |
| `Session.MarkAllDoneMarksAll` | lib/session-persistence.js:94-99 | when the list's todo ids are distinct, `markAllDone` leaves every todo of the list done and changes nothing else: not other lists, not the list's id, title or length, and not any todo's id or title |
| `Session.WithNewTodo` | lib/session-persistence.js:101-109 | `createTodo` throws, always a TypeError, exactly when no list has the id |
| `Session.CreateThenLoad` | lib/session-persistence.js:101-109 | with a fresh id, the list's todos become the old ones followed by the new `{id, title, done: false}` todo, the list keeps its id, title and position, every other list is unchanged, `loadTodo` finds the new todo, and the list is no longer done |
| `Session.WithListTitle` | lib/session-persistence.js:111-115 | `setListTitle` throws, always a TypeError, exactly when no list has the id |
| `Session.WithListTitleEffect` | lib/session-persistence.js:111-115 | retitling changes only that list's title, after which `uniqueListTitle` of the new title is false |
| `Session.AddListTakesTitle` | lib/session-persistence.js:121-123 | after a list is appended its title is no longer unique, and if it was unique before then appending changed the answer |
| `Session.SessionPersistence.constructor` | lib/session-persistence.js:21-24 | the store starts from the session's lists when the session has some (even an empty array), otherwise from the seed data |
| `Session.SessionPersistence.MarkDone` | lib/session-persistence.js:73-76 | throws exactly when `loadTodo` finds nothing, leaving the lists alone; otherwise the stored lists become `MarkedTodo`'s and the todo is then done |
| `Session.SessionPersistence.MarkUndone` | lib/session-persistence.js:78-81 | throws exactly when `loadTodo` finds nothing, leaving the lists alone; otherwise the stored lists become `MarkedTodo`'s and the todo is then not done |
| `Session.SessionPersistence.RemoveAt` | lib/session-persistence.js:83-87 | the returned array, the thrown error and the new stored lists are those of `RemovedAt` |
| `Session.SessionPersistence.MarkAllDone` | lib/session-persistence.js:94-99 | the `forEach` of `markDone` calls, proved step by step, leaves the return value and the stored lists that `WithAllMarkedDone` describes |
| `Session.SessionPersistence.CreateTodo` | lib/session-persistence.js:101-109 | returns true and stores `WithNewTodo`'s lists, or throws its TypeError and changes nothing |
| `Session.SessionPersistence.SetListTitle` | lib/session-persistence.js:111-115 | returns true and stores `WithListTitle`'s lists, after which the title is not unique; or throws its TypeError and changes nothing |
| `Session.SessionPersistence.AddList` | lib/session-persistence.js:121-123 | appends the list to the stored lists, after which its title is not unique |
| `PgPersistence.RowsOf` | lib/pg-persistence.js:26-28 | a list's rows all carry its id, and each fetched row with that `todolist_id` occurs exactly as often as fetched, no other row at all |
| `PgPersistence.JoinedList` | lib/pg-persistence.js:26-28 | one list row with its `todos` set; its meaning is stated by `JoinedAttachesOwnRows` |
| `PgPersistence.Joined` | lib/pg-persistence.js:25-29 | every list row with its todos attached; its meaning is stated by `JoinedAttachesOwnRows`, `JoinedKeepsFetchedOrder` and `JoinedDropsOrphanRows` |
| `PgPersistence.JoinedAttachesOwnRows` | lib/pg-persistence.js:25-29 | each list keeps its id, title and position, and gets as its todos exactly the fetched rows with its `todolist_id`, in fetched order, each as often as fetched |
| `PgPersistence.JoinedKeepsFetchedOrder` | lib/pg-persistence.js:26-28 | any order the fetched todo rows are in holds among the rows of each list |
| `PgPersistence.JoinedDropsOrphanRows` | lib/pg-persistence.js:25-29 | a row whose `todolist_id` is the id of no fetched list is attached to no list |
| `PgPersistence.AttachTodos` | lib/pg-persistence.js:25-29 | the `forEach` loop builds exactly the joined lists |
| `PgPersistence.PartitionStep` | lib/pg-persistence.js:38-44 | handling one more list pushes it onto exactly one of `done` and `undone`, as `isDoneTodoList` decides |
| `PgPersistence.PartitionTodoLists` | lib/pg-persistence.js:34-47 | `_partitionTodoLists` returns the not-done lists then the done lists, each group in input order; a rearrangement of the input with no done list before a not-done one |
| `PgPersistence.SortedTodoLists` | lib/pg-persistence.js:23-31 | `undefined` exactly when either fetched collection is missing; otherwise the partition of the joined lists, a rearrangement of them |
| `PgPersistence.ReadRows` | lib/pg-persistence.js:20-21 | the property read `v.rows`: a TypeError on `undefined`, the rows of a query result, `undefined` on any other value, an array included |
| `PgPersistence.ReadIndex` | lib/pg-persistence.js:20-21 | the index read `v[i]`: a TypeError on `undefined`, the element of an array or `undefined` past its end, `undefined` on any other value |
| `PgPersistence.PromiseAllResult` | lib/pg-persistence.js:16-18 | the array `Promise.all` resolves to: the lists query's result, then the todos query's result |
| `PgPersistence.FetchedAsWritten` | lib/pg-persistence.js:20-21 | `resultBoth.rows[0]` and `resultBoth.rows[1]`, built from `ReadRows` and `ReadIndex`; its meaning is stated by `FetchedAsWrittenThrows` |
| `PgPersistence.Fetched` | lib/pg-persistence.js:69-70 | `resultBoth[0].rows` and `resultBoth[1].rows`, the read line 69 uses, built from the same two reads; its meaning is stated by `FetchedReadsBothQueries` |
| `PgPersistence.FetchedAsWrittenThrows` | lib/pg-persistence.js:20-21 | as written, for every array `resultBoth` (so for whatever `Promise.all` resolves to), reading `rows` gives `undefined` and indexing it throws a TypeError |
| `PgPersistence.FetchedReadsBothQueries` | lib/pg-persistence.js:69-70 | read the corrected way, the `Promise.all` result gives the rows of the lists query and the rows of the todos query |
| `PgPersistence.ListRowsRoundTrip` | lib/pg-persistence.js:20 | reading the list rows back out of the rows array gives exactly the rows the query returned |
| `PgPersistence.TodoRowsRoundTrip` | lib/pg-persistence.js:21 | reading the todo rows back out of the rows array gives exactly the rows the query returned |
| `PgPersistence.SortedTodoListsOfResults` | lib/pg-persistence.js:16-31 | from the rows both queries return, through `Promise.all` and the corrected reads, `sortedTodoLists` always returns the joined lists, not-done first, as a rearrangement; the `undefined` guard never fires |

## Left out

- `todos.js` (the Express routes) and every other module that uses the stores.
  They are I/O around the core.
- Every `dbQuery` call and its SQL statement in lib/pg-persistence.js. This
  covers the `ORDER BY lower(title)` of the lists query, every other
  `PgPersistence` method, and `existingUser` with its bcrypt comparison.
  PostgreSQL decides their effects, and lib/db-query is not part of this
  model. The join starts from the two fetched row sequences.
- The `Promise.all` concurrency of lib/pg-persistence.js:18. The two
  queries' results are parameters.
- `sortTodoLists` and `sortTodos` from lib/sort are not part of this model.
  `Session.SortedTodoLists` returns the pair of groups `sortTodoLists`
  receives.
- `deepCopy`: Dafny's values are never shared, so every copy the store
  hands out is modelled by returning the value itself.
- `SeedData` is the constructor's `seed` parameter. The session is the
  `Option` of its `todoLists`, with `undefined` as `None`. The constructor's
  write-back to `session.todoLists` is not modelled.
- Aliasing is not modelled. The session and the store share one array, and
  `addList` stores the caller's own object, so later changes made through
  either reference are visible through the other.
- `nextId` is the `id` parameter of `CreateTodo`. `CreateThenLoad` requires
  the id to be fresh in the list instead of modelling the counter. When
  the list is missing, the TypeError is raised before `nextId` runs, so no
  id is used up.
- Session.Lower: lower-cases ASCII letters only, not the full Unicode case
  mapping of `toLowerCase`.
- Session.Below: compares characters as Dafny `char` values, which are
  Unicode scalar values. JavaScript compares UTF-16 code units, and the two
  orders differ only for characters beyond U+FFFF.
- Session.SortByTitle: proved to be a title-sorted rearrangement. It is
  written as a stable insertion sort, like the stable `Array.prototype.sort`,
  but stability is not stated as a lemma.
- Session.RemovedAt: `index in todoList.todos` is modelled as a whole-number
  position `0 <= index < length`. Arrays are assumed dense, and other
  property keys, such as numeric strings, are not modelled.
- Session.FirstsMarkedDone: its own contract states only that ids stay in
  place. Its meaning is stated by `MarkAllDoneStep` and
  `MarkAllDoneMarksAll`.
- The `todolist_id`, `username` and other columns of the todo rows are
  not kept on the joined todos. Only a todo's `id`, `title` and `done` are
  read afterwards.
- The `username` and any other columns of the list rows are dropped too.
  A list row keeps only its `id` and `title`.
- The column name `todolist_id` is written `todolistId`.
- PgPersistence.AsListRows: reads an array value as its list rows and
  maps any other defined value to no rows. Only arrays of rows reach
  line 23, so JavaScript's behaviour for other values is not modelled.
  `AsTodoRows` does the same for todo rows.

## Findings

| source | as written | input that shows it | evidently intended | confidence | as-written member | corrected member |
|---|---|---|---|---|---|---|
| lib/pg-persistence.js:20-21 | `resultBoth.rows[0]` and `resultBoth.rows[1]` read `rows` off the array that `Promise.all` resolves to. An array has no `rows`, so `resultBoth.rows` is `undefined` and indexing it throws a TypeError (`PgPersistence.FetchedAsWritten`, from the reads `ReadRows` and `ReadIndex`). | any array as `resultBoth`, including the one `Promise.all` gives for two empty query results | `resultBoth[0].rows` and `resultBoth[1].rows`, as `loadTodoList` reads its own results at line 69 | high; not executed | `PgPersistence.FetchedAsWrittenThrows` | `PgPersistence.SortedTodoListsOfResults` |
