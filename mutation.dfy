/** The mutation resolvers of the to-do service, run against an in-memory
    copy of its two tables. Each resolver is a method that changes the store
    step by step, in the order the resolver issues its database calls.
    UpdateTaskPosition and DeleteTask issue the corrected `updateMany` filters
    (list-scoped, in the right direction) rather than the ones the resolvers
    write; those are modelled in AsWritten. */
module Mutation {
  import opened TaskModel
  import opened ListResolver
  import opened Ordering
  import opened OrderingProofs
  import opened ListEdits

  /** `ping`: "PING:" followed by the message as a template literal spells
      it, "undefined" when the argument is left out and "null" when it is an
      explicit null. */
  function Ping(message: Arg<string>): (r: string)
    ensures |r| >= 5 && r[..5] == "PING:"
    ensures message.Given? ==> r[5..] == message.value
    ensures message.Null? ==> r[5..] == "null"
    ensures message.Absent? ==> r[5..] == "undefined"
  {
    "PING:" + match message {
      case Absent => "undefined"
      case Null => "null"
      case Given(s) => s
    }
  }

  /** What the database itself enforces: primary keys, autoincrement ids
      above every stored key, and the foreign key from a task to its list. */
  ghost predicate Consistent(lists: map<nat, ListRow>, tasks: Table, nextListId: nat, nextTaskId: nat) {
    && WellKeyed(tasks)
    && (forall k :: k in lists ==> lists[k].id == k && k < nextListId)
    && (forall k :: k in tasks ==> k < nextTaskId && tasks[k].listId in lists)
  }

  lemma ShiftKeepsConsistent(lists: map<nat, ListRow>, m: Table, nl: nat, nt: nat, w: Where, delta: int)
    requires Consistent(lists, m, nl, nt)
    ensures Consistent(lists, ShiftWhere(m, w, delta), nl, nt)
  {
  }

  lemma CreateKeepsConsistent(lists: map<nat, ListRow>, m: Table, nl: nat, nt: nat, l: nat, title: string)
    requires Consistent(lists, m, nl, nt) && l in lists
    ensures nt !in m
    ensures Consistent(lists, Create(m, l, nt, title), nl, nt + 1)
  {
  }

  lemma RepositionKeepsConsistent(lists: map<nat, ListRow>, m: Table, nl: nat, nt: nat, id: nat, d: int)
    requires Consistent(lists, m, nl, nt) && id in m
    ensures Consistent(lists, Reposition(m, id, d), nl, nt)
  {
  }

  lemma DeleteKeepsConsistent(lists: map<nat, ListRow>, m: Table, nl: nat, nt: nat, id: nat)
    requires Consistent(lists, m, nl, nt) && id in m
    ensures Consistent(lists, Delete(m, id), nl, nt)
  {
  }

  lemma CascadeKeepsConsistent(lists: map<nat, ListRow>, m: Table, nl: nat, nt: nat, l: nat)
    requires Consistent(lists, m, nl, nt)
    ensures Consistent(lists - {l}, Cascade(m, l), nl, nt)
  {
  }

  lemma PatchKeepsConsistent(lists: map<nat, ListRow>, m: Table, nl: nat, nt: nat, id: nat, p: TaskPatch)
    requires Consistent(lists, m, nl, nt) && id in m && Writable(p)
    ensures Consistent(lists, m[id := Patch(m[id], p)], nl, nt)
  {
  }

  /** A task table that satisfies the foreign key has no row in a list that
      does not exist, so a shift scoped to such a list changes nothing. */
  lemma ShiftOfMissingListIsIdentity(lists: map<nat, ListRow>, m: Table, nl: nat, nt: nat, l: nat, delta: int)
    requires Consistent(lists, m, nl, nt) && l !in lists
    ensures ShiftWhere(m, Where(Some(l), None, None), delta) == m
  {
    ShiftOfEmptyListIsIdentity(m, Where(Some(l), None, None), delta);
  }

  /** The List and Task tables, with the next value of each autoincrement id. */
  class Store {
    var lists: map<nat, ListRow>
    var tasks: Table
    var nextListId: nat
    var nextTaskId: nat

    ghost predicate Valid()
      reads this
    {
      Consistent(lists, tasks, nextListId, nextTaskId)
    }

    /** Invariant I1: every list's orders are exactly 0, 1, ..., n-1. The
        database does not enforce it; the ordering resolvers must keep it. */
    ghost predicate Ordered()
      reads this
    {
      AllDense(tasks)
    }

    constructor ()
      ensures Valid() && Ordered()
      ensures lists == map[] && tasks == map[]
      ensures nextListId == 1 && nextTaskId == 1
    {
      lists, tasks := map[], map[];
      nextListId, nextTaskId := 1, 1;
    }

    /** `prisma.task.updateMany({ where: w, data: { listOrder: { increment: delta } } })`:
        visit every row once and shift the ones that match. */
    method UpdateMany(w: Where, delta: int)
      requires Valid()
      modifies this
      ensures tasks == ShiftWhere(old(tasks), w, delta)
      ensures lists == old(lists) && nextListId == old(nextListId) && nextTaskId == old(nextTaskId)
      ensures Valid()
    {
      ghost var start := tasks;
      var pending := tasks.Keys;
      while pending != {}
        invariant pending <= start.Keys && tasks.Keys == start.Keys
        invariant forall k :: k in pending ==> tasks[k] == start[k]
        invariant forall k :: k in start && k !in pending ==> tasks[k] == ShiftWhere(start, w, delta)[k]
        invariant lists == old(lists) && nextListId == old(nextListId) && nextTaskId == old(nextTaskId)
        decreases pending
      {
        var k :| k in pending;
        if Matches(w, tasks[k]) {
          tasks := tasks[k := tasks[k].(listOrder := tasks[k].listOrder + delta)];
        }
        pending := pending - {k};
      }
      assert tasks == ShiftWhere(start, w, delta);
      ShiftKeepsConsistent(lists, start, nextListId, nextTaskId, w, delta);
    }

    /** `createList`: a new list under the next id. */
    method CreateList(title: string) returns (row: ListRow)
      requires Valid()
      modifies this
      ensures row == ListRow(old(nextListId), title)
      ensures lists == old(lists)[row.id := row] && nextListId == old(nextListId) + 1
      ensures tasks == old(tasks) && nextTaskId == old(nextTaskId)
      ensures Valid() && (old(Ordered()) ==> Ordered())
    {
      row := ListRow(nextListId, title);
      lists := lists[row.id := row];
      nextListId := nextListId + 1;
    }

    /** `updateList`: rename the list, or fail when there is no such list. */
    method UpdateList(id: nat, title: string) returns (r: Result<ListRow>)
      requires Valid()
      modifies this
      ensures id !in old(lists) ==> r == Err(NotFound) && lists == old(lists)
      ensures id in old(lists) ==> r == Ok(ListRow(id, title)) && lists == old(lists)[id := ListRow(id, title)]
      ensures tasks == old(tasks) && nextListId == old(nextListId) && nextTaskId == old(nextTaskId)
      ensures Valid() && (old(Ordered()) ==> Ordered())
    {
      if id !in lists {
        return Err(NotFound);
      }
      lists := lists[id := ListRow(id, title)];
      r := Ok(lists[id]);
    }

    /** `findUniqueOrThrow` on the task table. */
    method FindTask(id: nat) returns (r: Result<Task>)
      ensures id in tasks ==> r == Ok(tasks[id])
      ensures id !in tasks ==> r == Err(NotFound)
    {
      if id in tasks {
        r := Ok(tasks[id]);
      } else {
        r := Err(NotFound);
      }
    }

    /** `createTask`: push every task of the list one rank down, then insert
        the new task at rank 0. The shift runs before the insert; on a list
        that does not exist it matches nothing, and the insert then fails on
        the foreign key. On success the list stays dense and its view gains
        the new task at its head. */
    method CreateTask(listId: nat, title: string) returns (r: Result<Task>)
      requires Valid()
      modifies this
      ensures listId !in old(lists) ==> r == Err(ForeignKeyViolation) && tasks == old(tasks) && nextTaskId == old(nextTaskId)
      ensures listId in old(lists) ==>
                && r == Ok(Task(old(nextTaskId), listId, 0, title, false))
                && tasks == Create(old(tasks), listId, old(nextTaskId), title)
                && nextTaskId == old(nextTaskId) + 1
      ensures listId in old(lists) && old(Dense(tasks, listId)) ==>
                Tasks(tasks, listId) == Renumbered([r.value] + Tasks(old(tasks), listId))
      ensures lists == old(lists) && nextListId == old(nextListId)
      ensures Valid() && (old(Ordered()) ==> Ordered())
    {
      ghost var m := tasks;
      UpdateMany(Where(Some(listId), None, None), 1);
      if listId !in lists {
        ShiftOfMissingListIsIdentity(lists, m, nextListId, nextTaskId, listId, 1);
        return Err(ForeignKeyViolation);
      }
      CreateKeepsConsistent(lists, m, nextListId, nextTaskId, listId, title);
      var t := Task(nextTaskId, listId, 0, title, false);
      ghost var created := Create(m, listId, t.id, title);
      tasks := tasks[t.id := t];
      nextTaskId := nextTaskId + 1;
      r := Ok(t);
      assert tasks == created;
      if Dense(m, listId) {
        CreateView(m, listId, t.id, title);
      }
      if AllDense(m) {
        CreateKeepsAllDense(m, listId, t.id, title);
      }
    }

    /** `updateTask`: write the fields given in the input into one task. An
        input the data layer refuses (see Writable) fails before the lookup;
        an accepted one without listOrder keeps the lists dense. */
    method UpdateTask(id: nat, patch: TaskPatch) returns (r: Result<Task>)
      requires Valid()
      modifies this
      ensures !Writable(patch) ==> r == Err(InvalidValue) && tasks == old(tasks)
      ensures Writable(patch) && id !in old(tasks) ==> r == Err(NotFound) && tasks == old(tasks)
      ensures Writable(patch) && id in old(tasks) ==>
                && r == Ok(Patch(old(tasks)[id], patch))
                && tasks == old(tasks)[id := r.value]
      ensures Writable(patch) && id in old(tasks) && patch.listOrder.Absent? && old(Dense(tasks, tasks[id].listId)) ==>
                Tasks(tasks, old(tasks)[id].listId)
                == Tasks(old(tasks), old(tasks)[id].listId)[old(tasks)[id].listOrder := r.value]
      ensures lists == old(lists) && nextListId == old(nextListId) && nextTaskId == old(nextTaskId)
      ensures Valid()
      ensures patch.listOrder.Absent? && old(Ordered()) ==> Ordered()
    {
      if !Writable(patch) {
        return Err(InvalidValue);
      }
      if id !in tasks {
        return Err(NotFound);
      }
      ghost var m := tasks;
      PatchKeepsConsistent(lists, m, nextListId, nextTaskId, id, patch);
      var t := Patch(tasks[id], patch);
      tasks := tasks[id := t];
      r := Ok(t);
      if patch.listOrder.Absent? && Dense(m, m[id].listId) {
        PatchView(m, id, patch);
      }
      if patch.listOrder.Absent? && AllDense(m) {
        PatchFieldsKeepAllDense(m, id, patch);
      }
    }

    /** `updateTaskPosition`: read the task (failing before any write when it
        does not exist), shift the siblings between its rank and the
        destination, then write the destination into it. A move inside the
        list keeps every list dense and moves the task in its list's view. */
    method UpdateTaskPosition(id: nat, destination: int) returns (r: Result<Task>)
      requires Valid()
      modifies this
      ensures id !in old(tasks) ==> r == Err(NotFound) && tasks == old(tasks)
      ensures id in old(tasks) ==>
                && r == Ok(old(tasks)[id].(listOrder := destination))
                && tasks == Reposition(old(tasks), id, destination)
      ensures id in old(tasks) && old(Dense(tasks, tasks[id].listId))
              && 0 <= destination < Count(old(tasks), old(tasks)[id].listId) ==>
                Tasks(tasks, old(tasks)[id].listId)
                == Renumbered(MoveItem(Tasks(old(tasks), old(tasks)[id].listId), old(tasks)[id].listOrder, destination))
      ensures lists == old(lists) && nextListId == old(nextListId) && nextTaskId == old(nextTaskId)
      ensures Valid()
      ensures (id in old(tasks) && 0 <= destination < Count(old(tasks), old(tasks)[id].listId)
               && old(Ordered())) ==> Ordered()
    {
      var found := FindTask(id);
      if found.Err? {
        return found;
      }
      ghost var m := tasks;
      var origin := found.value.listOrder;
      var shift := MoveShift(found.value.listId, origin, destination);
      UpdateMany(shift.0, shift.1);
      tasks := tasks[id := tasks[id].(listOrder := destination)];
      r := Ok(tasks[id]);
      assert tasks == Reposition(m, id, destination);
      RepositionKeepsConsistent(lists, m, nextListId, nextTaskId, id, destination);
      if 0 <= destination < Count(m, m[id].listId) {
        if Dense(m, m[id].listId) {
          RepositionView(m, id, destination);
        }
        if AllDense(m) {
          RepositionKeepsAllDense(m, id, destination);
        }
      }
    }

    /** `deleteTask`: delete the row (failing when there is none), then pull
        every later task of its list up one rank. The list stays dense and
        its view loses exactly that task. */
    method DeleteTask(id: nat) returns (r: Result<MutationResult>)
      requires Valid()
      modifies this
      ensures id !in old(tasks) ==> r == Err(NotFound) && tasks == old(tasks)
      ensures id in old(tasks) ==> r == Ok(MutationResult(true)) && tasks == Delete(old(tasks), id)
      ensures id in old(tasks) && old(Dense(tasks, tasks[id].listId)) ==>
                Tasks(tasks, old(tasks)[id].listId)
                == Renumbered(RemoveAt(Tasks(old(tasks), old(tasks)[id].listId), old(tasks)[id].listOrder))
      ensures lists == old(lists) && nextListId == old(nextListId) && nextTaskId == old(nextTaskId)
      ensures Valid() && (old(Ordered()) ==> Ordered())
    {
      if id !in tasks {
        return Err(NotFound);
      }
      ghost var m := tasks;
      DeleteKeepsConsistent(lists, m, nextListId, nextTaskId, id);
      var deleted := tasks[id];
      tasks := tasks - {id};
      assert Consistent(lists, tasks, nextListId, nextTaskId);
      UpdateMany(Where(Some(deleted.listId), Some(deleted.listOrder), None), -1);
      r := Ok(MutationResult(true));
      if Dense(m, m[id].listId) {
        DeleteView(m, id);
      }
      if AllDense(m) {
        DeleteKeepsAllDense(m, id);
      }
    }

    /** `deleteList`: delete the list (failing when there is none); the
        database cascades the delete to the list's tasks and leaves every
        other list alone. */
    method DeleteList(id: nat) returns (r: Result<MutationResult>)
      requires Valid()
      modifies this
      ensures id !in old(lists) ==> r == Err(NotFound) && lists == old(lists) && tasks == old(tasks)
      ensures id in old(lists) ==>
                && r == Ok(MutationResult(true))
                && lists == old(lists) - {id}
                && tasks == Cascade(old(tasks), id)
                && Tasks(tasks, id) == []
      ensures forall l: nat :: l != id ==> Tasks(tasks, l) == Tasks(old(tasks), l)
      ensures nextListId == old(nextListId) && nextTaskId == old(nextTaskId)
      ensures Valid() && (old(Ordered()) ==> Ordered())
    {
      if id !in lists {
        return Err(NotFound);
      }
      ghost var m := tasks;
      CascadeKeepsConsistent(lists, m, nextListId, nextTaskId, id);
      lists := lists - {id};
      tasks := Cascade(tasks, id);
      r := Ok(MutationResult(true));
      CascadeEmptiesList(m, id);
      forall l: nat | l != id ensures Tasks(tasks, l) == Tasks(m, l) {
        CascadeKeepsOtherLists(m, id, l);
      }
      if AllDense(m) {
        CascadeKeepsAllDense(m, id);
      }
    }
  }
}
