# Task ordering in a GraphQL to-do service

The service keeps to-do lists and their tasks in two database tables. Each
task carries a `listOrder`, its zero-based rank inside its list. The mutation
resolvers are meant to keep those ranks in step with what users do. As
written, two of them do not (see Findings):

- `createTask` pushes the list down one rank and inserts the new task at rank 0.
- `updateTaskPosition` is meant to shift the siblings between a task's old
  and new rank, then write the new rank. As written, its shift matches no
  row, so only the moved task changes.
- `deleteTask` removes a task and is meant to pull the later ones of its list
  up. As written, it pulls up the later tasks of every list.
- `deleteList` relies on the database to cascade the delete to the list's tasks.
- `updateTask` writes fields through.

The `List.tasks` resolver reads a list back as its tasks sorted ascending by
`listOrder`.

This project models that engine in Dafny. It proves the properties below for
the engine with those two shifts corrected (`Ordering`, `Mutation.Store`). For
the shifts as written (`AsWritten`) it proves that I1 and I2 fail.

- **Invariant I1 (density):** in every list the ranks are exactly
  0, 1, ..., n-1.
- **Invariant I2 (scope):** no mutation moves a task of another list.
- **View partners:** each mutation does to the list view exactly the edit
  the user asked for. The edits are: insert at the head, remove one task,
  and move one task, each followed by renumbering.

Files:

- `task_model.dfy` (`TaskModel`): the rows, the task table as a map from id to
  task, density, and Prisma's `updateMany` shift (`Where`, `ShiftWhere`).
- `list_resolver.dfy` (`ListResolver`): `List.tasks` as a function, `Tasks`,
  with its ordering, permutation and rank lemmas.
- `ordering.dfy` (`Ordering`): the effect of each ordering mutation as a
  function of the table before it.
- `list_edits.dfy` (`ListEdits`): the reference list edits the views are
  compared against.
- `ordering_proofs.dfy` (`OrderingProofs`): density, scope, round trip, and
  view-equals-edit lemmas.
- `mutation.dfy` (`Mutation`): the `Store` class with one method per resolver.
  Each method performs the resolver's database calls in order. `updateMany`
  is a loop over the rows, proved equal to `ShiftWhere`. Two methods issue a
  different `updateMany` filter from the resolver's. `UpdateTaskPosition`
  and `DeleteTask` use the corrected shifts, scoped to the task's list and
  moving in the right direction. The shifts as the code writes them are in
  `AsWritten`.
- `as_written.dfy` (`AsWritten`): the shifts of `updateTaskPosition` and
  `deleteTask` exactly as the code writes them, with what they do to a dense
  list (see Findings).
- `scenarios.dfy` (`Scenarios`): the service's test fixture and the outcomes
  its tests expect, proved on the model. The tests are proved both one by
  one from the fixture and in the order the test file runs them on one
  database (`EditsScenario`, `SequenceScenario`).

The model follows the code, with one exception. The sibling shifts of
`updateTaskPosition` and `deleteTask` are corrected to what the service's
tests expect. There are three corrections, each listed under Findings:

- the filter at `mutation.ts:55-58` matches no row;
- the direction at `mutation.ts:66-72` is reversed;
- the delete shift at `mutation.ts:89-94` has no list filter.

`Ordering.Reposition`, `Ordering.Delete`, `Mutation.Store.UpdateTaskPosition`
and `Mutation.Store.DeleteTask` use the corrected shifts. The shifts exactly
as written are in `AsWritten`.

Elsewhere the code does less checking than one might expect, and the model
keeps that:

- **Equal positions.** A move to the task's current position raises no
  error. The model proves that such a move changes nothing
  (`Ordering.Reposition`, last ensures).
- **Destination bounds.** The destination of `updateTaskPosition` is not
  checked against `[0, n)`. The model accepts any destination, and the
  density results assume the range.
- **updateTask input.** `UpdateTaskInput` (`schema.ts:30-35`) has nullable
  `title`, `completed`, `listId` and `listOrder`. The resolver forwards the
  input as it is (`mutation.ts:43`).
  - A given `listOrder` is written, and can break density.
  - An explicit `null` is sent to a required column.
  - `listId` is a GraphQL `ID`, so it arrives as a string. It is sent to an
    integer column without the `Number` conversion that every other id in
    the resolvers goes through.
  - The data layer's type validation refuses both of the last two. The
    model returns `Err(InvalidValue)` and changes nothing
    (`Ordering.Writable`).
- **deleteList failure.** `MutationResult` carries a `success` flag
  (`schema.ts:37-39`). `deleteList` never returns `success: false`: it lets
  the database error propagate. The model returns that error as
  `Err(NotFound)`.

## Model

| member | source | states |
|---|---|---|
| TaskModel.ShiftWhere | services/task/resolvers/mutation.ts:22-29 | `updateMany` with a `listOrder` increment: exactly the rows matching the filter move by the increment; ids, lists, titles and flags stay, every other row is unchanged |
| TaskModel.ShiftOfEmptyListIsIdentity | services/task/resolvers/mutation.ts:22-29 | a shift scoped to a list that has no rows changes nothing |
| TaskModel.ShiftKeepsListKeys | services/task/resolvers/mutation.ts:22-29 | a shift never moves a task into another list, so every list keeps its set of tasks |
| ListResolver.OrderedKeys | services/task/resolvers/list.ts:12-16 | the keys are listed each exactly once, in ascending listOrder (ties by id) |
| ListResolver.Tasks | services/task/resolvers/list.ts:5-16 | `List.tasks` returns as many tasks as the list has, each of that list |
| ListResolver.TasksSorted | services/task/resolvers/list.ts:12-16 | the result is sorted ascending by listOrder |
| ListResolver.TasksArePermutation | services/task/resolvers/list.ts:5-16 | a task is in the result if and only if it is a row of that list, and no row appears twice |
| ListResolver.DenseViewIndexIsOrder | services/task/resolvers/list.ts:12-16 | on a dense list the task at index i of the result has listOrder i |
| ListResolver.DenseOrderTaken | services/task/resolvers/list.ts:12-16 | on a dense list every rank 0..n-1 is held by some task of the list |
| ListResolver.DenseOrdersExactly | services/task/resolvers/mutation.test.ts:272-279 | density implies that the ranks of the list are exactly {0, ..., n-1} |
| ListResolver.OrdersExactlyAreDense | services/task/resolvers/mutation.test.ts:272-279 | the converse: a list whose ranks are exactly {0, ..., n-1} is dense, so the two are equivalent |
| ListResolver.DenseViewIs | services/task/resolvers/list.ts:12-16 | a dense list's result is the sequence that holds, at each index i, a task of the list ranked i |
| ListResolver.TasksDependOnListOnly | services/task/resolvers/list.ts:5-11 | the result for a list depends only on that list's rows |
| Ordering.Create | services/task/resolvers/mutation.ts:21-37 | createTask: every task of the target list moves one rank down, other lists are untouched, and the new task sits at rank 0, not completed |
| Ordering.Reposition | services/task/resolvers/mutation.ts:46-82 | updateTaskPosition: the mover takes the destination; siblings in (origin, destination] move up one rank, those in [destination, origin) down one, every other task is unchanged; a move to the current rank changes nothing |
| Ordering.Delete | services/task/resolvers/mutation.ts:84-105 | deleteTask: the row is gone, later tasks of its list move up one rank, every other task is unchanged |
| Ordering.Cascade | services/task/resolvers/mutation.ts:107-116 | deleteList's cascade: exactly the tasks of other lists remain, unchanged |
| Ordering.Patch | services/task/resolvers/mutation.ts:40-44 | updateTask on an input the data layer accepts: each given field is written, each absent one is kept, the id and the list never change |
| ListEdits.MoveItemIndex | services/task/resolvers/mutation.test.ts:272-279 | the element at index i of the moved list is the one at MoveSource(o, d, i) before the move |
| ListEdits.RemoveAtIndex | services/task/resolvers/mutation.test.ts:371-377 | removing index o shifts every later element one place up |
| OrderingProofs.CreateListKeys | services/task/resolvers/mutation.ts:21-37 | createTask adds the new task to its list's task set and to no other |
| OrderingProofs.CreatePreservesDensity | services/task/resolvers/mutation.ts:21-37 | createTask keeps every list dense; the target list grows by exactly one |
| OrderingProofs.CreateKeepsAllDense | services/task/resolvers/mutation.ts:21-37 | createTask preserves invariant I1 over the whole table |
| OrderingProofs.CreateView | services/task/resolvers/mutation.ts:21-37 | on a dense list the new view is the new task followed by the old view, renumbered |
| OrderingProofs.CreateKeepsOtherLists | services/task/resolvers/mutation.ts:22-25 | createTask leaves the view of every other list unchanged |
| OrderingProofs.RepositionListKeys | services/task/resolvers/mutation.ts:46-82 | a move keeps every list's task set |
| OrderingProofs.RepositionRanksInRange | services/task/resolvers/mutation.ts:46-82 | with the destination inside the list, every rank stays inside [0, n) |
| OrderingProofs.RepositionRanksDistinct | services/task/resolvers/mutation.ts:46-82 | with the destination inside the list, no two tasks of a list share a rank |
| OrderingProofs.RepositionPreservesDensity | services/task/resolvers/mutation.ts:46-82 | a move to a rank inside the list keeps every list dense |
| OrderingProofs.RepositionKeepsAllDense | services/task/resolvers/mutation.ts:46-82 | a move to a rank inside the list preserves invariant I1 over the whole table |
| OrderingProofs.RepositionRankAt | services/task/resolvers/mutation.ts:53-81 | the task that held rank MoveSource(o, d, i) ends at rank i |
| OrderingProofs.RepositionViewAt | services/task/resolvers/mutation.ts:53-81 | the key at index i of the moved key sequence carries the right task at rank i |
| OrderingProofs.RepositionView | services/task/resolvers/mutation.ts:46-82 | on a dense list the new view is the old view with the task taken from rank o and put back at rank d, renumbered |
| OrderingProofs.RepositionRoundTripAt | services/task/resolvers/mutation.ts:46-82 | after moving o to d and back, each task is as before |
| OrderingProofs.RepositionRoundTrip | services/task/resolvers/mutation.test.ts:323-330 | moving a task from o to d and back from d to o restores the whole table |
| OrderingProofs.RepositionKeepsOtherLists | services/task/resolvers/mutation.ts:53-75 | a move leaves the view of every other list unchanged |
| OrderingProofs.DeleteListKeys | services/task/resolvers/mutation.ts:84-105 | deleteTask removes the task from its list's task set and changes no other |
| OrderingProofs.DeletePreservesDensity | services/task/resolvers/mutation.ts:84-105 | deleteTask keeps every list dense; the task's list shrinks by exactly one |
| OrderingProofs.DeleteKeepsAllDense | services/task/resolvers/mutation.ts:84-105 | deleteTask preserves invariant I1 over the whole table |
| OrderingProofs.DeleteViewAt | services/task/resolvers/mutation.ts:89-100 | the key at index i of the shortened key sequence carries the right task at rank i |
| OrderingProofs.DeleteView | services/task/resolvers/mutation.ts:84-105 | on a dense list the new view is the old view without the deleted task, renumbered |
| OrderingProofs.DeleteKeepsOtherLists | services/task/resolvers/mutation.ts:84-105 | deleteTask leaves the view of every other list unchanged |
| OrderingProofs.CascadeEmptiesList | services/task/resolvers/mutation.ts:107-116 | after deleteList the list has no task and its view is empty |
| OrderingProofs.CascadeKeepsOtherLists | services/task/resolvers/mutation.ts:107-116 | deleteList leaves every other list's view and density as they were |
| OrderingProofs.CascadeKeepsAllDense | services/task/resolvers/mutation.ts:107-116 | deleteList preserves invariant I1 over the whole table |
| OrderingProofs.PatchFieldsKeepDensity | services/task/resolvers/mutation.ts:40-44 | an accepted updateTask that leaves listOrder out keeps every list dense |
| OrderingProofs.PatchFieldsKeepAllDense | services/task/resolvers/mutation.ts:40-44 | the same, over the whole table |
| OrderingProofs.PatchView | services/task/resolvers/mutation.ts:40-44 | on a dense list such an updateTask replaces the task in its list's view at the same index, and changes nothing else in it |
| OrderingProofs.PatchKeepsOtherLists | services/task/resolvers/mutation.ts:40-44 | updateTask leaves the view of every other list unchanged |
| Mutation.Ping | services/task/resolvers/mutation.ts:6 | ping answers "PING:" followed by the message; as a template literal spells them, a left-out message gives "undefined" and an explicit null gives "null" |
| Mutation.ShiftKeepsConsistent | services/task/resolvers/mutation.ts:22-29 | a shift keeps the primary keys, autoincrement bounds and foreign keys intact |
| Mutation.CreateKeepsConsistent | services/task/resolvers/mutation.ts:30-37 | inserting under the next id into an existing list keeps the database constraints |
| Mutation.RepositionKeepsConsistent | services/task/resolvers/mutation.ts:46-82 | a move keeps the database constraints |
| Mutation.DeleteKeepsConsistent | services/task/resolvers/mutation.ts:84-105 | a delete keeps the database constraints |
| Mutation.CascadeKeepsConsistent | services/task/resolvers/mutation.ts:107-112 | the cascade keeps the foreign key with the list removed |
| Mutation.PatchKeepsConsistent | services/task/resolvers/mutation.ts:40-44 | an accepted field write keeps the database constraints |
| Mutation.ShiftOfMissingListIsIdentity | services/task/resolvers/mutation.ts:22-29 | under the foreign key, the createTask shift on a list that does not exist changes nothing |
| Mutation.Store.UpdateMany | services/task/resolvers/mutation.ts:22-29 | the row-by-row loop leaves the table equal to ShiftWhere of the old table, and nothing else changes |
| Mutation.Store.CreateList | services/task/resolvers/mutation.ts:8-11 | createList stores a new list under the next id |
| Mutation.Store.UpdateList | services/task/resolvers/mutation.ts:13-19 | updateList renames an existing list or fails with NotFound |
| Mutation.Store.FindTask | services/task/resolvers/mutation.ts:47-49 | findUniqueOrThrow returns the task, or NotFound when there is none |
| Mutation.Store.CreateTask | services/task/resolvers/mutation.ts:21-38 | createTask returns the new task at rank 0, not completed; the table becomes Create of the old one, I1 is kept and the view gains the task at its head; on a missing list it fails with a foreign-key error and changes nothing |
| Mutation.Store.UpdateTask | services/task/resolvers/mutation.ts:40-44 | updateTask fails with InvalidValue on an input that carries listId or an explicit null, and with NotFound on a missing task, changing nothing; otherwise it writes the patch into the task, and without listOrder it keeps I1 and replaces the task in place in its list's view |
| Mutation.Store.UpdateTaskPosition | services/task/resolvers/mutation.ts:46-82 | a missing id fails before any write; otherwise the result keeps its id and has the destination as listOrder, the table becomes Reposition of the old one, and a move inside the list keeps I1 and moves the task in the view |
| Mutation.Store.DeleteTask | services/task/resolvers/mutation.ts:84-105 | deleteTask returns success: true, the table becomes Delete of the old one, I1 is kept and the view loses exactly that task |
| Mutation.Store.DeleteList | services/task/resolvers/mutation.ts:107-116 | deleteList returns success: true, removes the list, leaves no task of it and every other list's view unchanged, and keeps I1 |
| AsWritten.RepositionFilterMatchesNothing | services/task/resolvers/mutation.ts:55-58 | the filter `listOrder > origin AND listOrder <= origin` matches no task |
| AsWritten.RepositionAsWritten | services/task/resolvers/mutation.ts:53-81 | as written, updateTaskPosition changes only the mover's rank |
| AsWritten.RepositionAsWrittenBreaksDensity | services/task/resolvers/mutation.ts:53-81 | as written, every real move inside a dense list leaves two tasks on the destination rank |
| AsWritten.RepositionCommentedRange | services/task/resolvers/mutation.ts:59-72 | the commented range (origin, destination] with the code's direction moves the tasks in the range one rank down on a forward move |
| AsWritten.CommentedRangeBreaksForwardMove | services/task/resolvers/mutation.ts:66-72 | with that direction a forward move inside a dense list breaks density |
| AsWritten.CommentedRangeBreaksBackwardMove | services/task/resolvers/mutation.ts:59-62 | on a backward move the commented range is empty, so the mover lands on the rank of the task already there, and density breaks again |
| AsWritten.DeleteAsWritten | services/task/resolvers/mutation.ts:89-100 | as written, deleteTask moves every later task of every list up one rank |
| AsWritten.DeleteAsWrittenBreaksOtherList | services/task/resolvers/mutation.ts:89-94 | another dense list holding ranks o and o+1 ends with two tasks at rank o |
| Scenarios.FixtureAllDense | services/task/resolvers/mutation.test.ts:15-63 | the test fixture satisfies invariant I1 |
| Scenarios.FixtureViewOfListOne | services/task/resolvers/mutation.test.ts:15-63 | before any mutation list 1 reads A, B, C, D, E, F |
| Scenarios.CreateScenario | services/task/resolvers/mutation.test.ts:161-174 | creating "task N" in list 2 makes it read N, O |
| Scenarios.MoveScenario | services/task/resolvers/mutation.test.ts:259-279 | moving B from rank 1 to rank 4 makes list 1 read A, C, D, E, B, F at ranks 0..5 |
| Scenarios.MoveBackScenario | services/task/resolvers/mutation.test.ts:310-330 | moving B back to rank 1 restores the fixture and its view A..F |
| Scenarios.DeleteScenario | services/task/resolvers/mutation.test.ts:358-378 | deleting D makes list 1 read A, B, C, E, F at ranks 0..4 |
| Scenarios.DeleteListScenario | services/task/resolvers/mutation.test.ts:405-412 | deleting list 1 from the fixture alone leaves it with no task, and list 2 still reads O |
| Scenarios.EditsScenario | services/task/resolvers/mutation.test.ts:133-225 | run in the file's order on one table (create N in list 2, complete A, retitle the task of list 3), the tests leave list 1 reading A (completed), B..F and list 2 reading N, O |
| Scenarios.SequenceScenario | services/task/resolvers/mutation.test.ts:227-413 | continuing on that table: moving B to 4 gives A, C, D, E, B, F; moving it back restores the table; deleting D gives A, B, C, E, F; deleting list 1 empties it, and list 2 still reads N, O |
| Scenarios.OutOfOrderScenario | services/task/resolvers/query.test.ts:81-96 | rows stored as C@2, B@1, A@0 are returned as A, B, C |
| Scenarios.MoveAsWrittenScenario | services/task/resolvers/mutation.ts:53-81 | as written, moving B from 1 to 4 leaves B and E both at rank 4 and C at rank 2 |
| Scenarios.DeleteAsWrittenScenario | services/task/resolvers/mutation.ts:89-94 | as written, deleting A after "task N" was created pulls O onto N's rank 0 in list 2 |

## Left out

- Transactions and concurrency: each resolver is one sequential method. The code wraps no shift-and-write pair in a transaction, so an interleaving of two resolvers on the same list is not modelled.
- Async/await, the Apollo server, resolver wiring and `query.lists` are plumbing and are not part of this model. Of the GraphQL schema only the shapes of the arguments are modelled (`Arg`, `TaskPatch`).
- `Number(id)` string-to-number conversion: ids are `nat` from the start.
- Autoincrement ids are a counter in the store. A failed insert does not consume an id here, while a database sequence may.
- The database's own cascade is a single assignment (`Ordering.Cascade`), not a row-by-row delete.
- `ListResolver.Tasks`: the data layer leaves the order of tasks with equal `listOrder` open; the model breaks such ties by id. Every result about a dense list is independent of this choice, since ranks there are distinct.
- `Ordering.Reposition`: a destination outside `[0, n)` is accepted as in the code; density is proved only for destinations inside that range.
- `Mutation.Store.UpdateTask`: a patch that writes `listOrder` is applied as in the code, and nothing is proved about density for it; the code can break I1 this way. An input with `listId` or an explicit `null` is modelled as the data layer's refusal (`Err(InvalidValue)`, checked before the lookup). That rests on the data layer's type validation, which is not part of this model.
- `Mutation.Store.UpdateTaskPosition`: its sibling shift is the corrected one (`Ordering.MoveShift`), scoped to the task's list and moving in the right direction. It is not the filter the resolver writes, which `AsWritten.RepositionAsWritten` models (see Findings).
- `Mutation.Store.DeleteTask`: its shift is scoped to the deleted task's list. The resolver's shift has no list filter, which `AsWritten.DeleteAsWritten` models (see Findings).
- Integer width: ranks are unbounded `int` here, in `Task.listOrder`, `TaskPatch.listOrder` and the destination of a move. The schema's `Int` (`schema.ts:15`, `schema.ts:34`) and the `listOrder` column are 32-bit signed. So an out-of-range `listOrder` input, which the transport refuses, and a `createTask` increment that overflows the column are not modelled. The density results are unaffected, since a dense list's ranks lie below its length.
- `Mutation.Ping`: the `ping` mutation is not declared in the GraphQL schema (`schema.ts:45-53`), though the resolver and its test exist. The model keeps the resolver.
- `Mutation.Store.DeleteList`: any database error other than a missing list is not modelled.
- The `updateTaskPosition` mutation is not declared in the GraphQL schema, though the resolver and the tests use it; the model keeps the resolver.

## Findings

| source | as written | input that shows it | evidently intended | confidence | as-written member | corrected member |
|---|---|---|---|---|---|---|
| services/task/resolvers/mutation.ts:55-58 | the sibling shift filters `listOrder > origin AND listOrder <= origin`, with no list filter; this matches no row | list 1 = A..F at ranks 0..5, move B from 1 to 4: only B changes, so B and E both sit at rank 4 | shift the siblings between origin and destination in the mover's list only | not executed | AsWritten.RepositionAsWrittenBreaksDensity | OrderingProofs.RepositionPreservesDensity |
| services/task/resolvers/mutation.ts:66-72 | a forward move (origin < destination) increments the range; with the commented range (origin, destination] the siblings move away from the gap, and on a backward move the range is empty (AsWritten.CommentedRangeBreaksBackwardMove) | list 1 = A..F, move B from 1 to 4 with that range: E goes to rank 5 and collides with F | a forward move decrements (origin, destination]; a backward move increments [destination, origin) | not executed | AsWritten.CommentedRangeBreaksForwardMove | OrderingProofs.RepositionView |
| services/task/resolvers/mutation.ts:89-94 | the delete shift decrements every task ranked after the deleted one, in every list | list 2 = N@0, O@1; delete A at rank 0 of list 1: O moves to rank 0 beside N | decrement only the later tasks of the deleted task's list | not executed | AsWritten.DeleteAsWrittenBreaksOtherList | OrderingProofs.DeletePreservesDensity |
