/** The effect of each ordering mutation on the task table, as functions of
    the table before the call. Store (mutation.dfy) performs them step by
    step; OrderingProofs proves what they preserve.

    Reposition and Delete are the scoped, direction-correct versions that the
    service's tests expect; the code as written is modelled in AsWritten. */
module Ordering {
  import opened TaskModel

  /** createTask: every task already in list `l` moves down one rank, then the
      new task is created at rank 0, not completed. */
  function Create(m: Table, l: nat, id: nat, title: string): (r: Table)
    requires id !in m
    ensures r.Keys == m.Keys + {id}
    ensures r[id] == Task(id, l, 0, title, false)
    ensures forall k :: k in m ==>
              r[k] == if m[k].listId == l then m[k].(listOrder := m[k].listOrder + 1) else m[k]
  {
    ShiftWhere(m, Where(Some(l), None, None), 1)[id := Task(id, l, 0, title, false)]
  }

  /** The sibling shift of a move from `origin` to `destination` in list `l`:
      a forward move closes the gap by pulling (origin, destination] up one
      rank; any other move pushes [destination, origin) down one rank, written
      as the bounds `> destination - 1` and `<= origin - 1`. */
  function MoveShift(l: nat, origin: int, destination: int): (Where, int)
  {
    if origin < destination then (Where(Some(l), Some(origin), Some(destination)), -1)
    else (Where(Some(l), Some(destination - 1), Some(origin - 1)), 1)
  }

  /** The rank a sibling at rank `p` takes when a task of its list moves from
      rank `o` to rank `d`: one up inside (o, d], one down inside [d, o),
      unchanged elsewhere. */
  function Displaced(o: int, d: int, p: int): int {
    if o < p <= d then p - 1 else if d <= p < o then p + 1 else p
  }

  /** updateTaskPosition: shift the siblings between the task's rank and the
      destination, then write the destination into the task. Only tasks of
      the mover's list move, and only by one rank. */
  function Reposition(m: Table, id: nat, destination: int): (r: Table)
    requires id in m
    ensures r.Keys == m.Keys
    ensures r[id] == m[id].(listOrder := destination)
    ensures forall k :: k in m ==> r[k].listId == m[k].listId
    ensures forall k :: k in m && k != id ==>
              r[k] == if m[k].listId == m[id].listId
                      then m[k].(listOrder := Displaced(m[id].listOrder, destination, m[k].listOrder))
                      else m[k]
    ensures destination == m[id].listOrder ==> r == m
  {
    var mover := m[id];
    var shift := MoveShift(mover.listId, mover.listOrder, destination);
    var shifted := ShiftWhere(m, shift.0, shift.1);
    shifted[id := shifted[id].(listOrder := destination)]
  }

  /** deleteTask: remove the row, then pull every later task of the same list
      up one rank. */
  function Delete(m: Table, id: nat): (r: Table)
    requires id in m
    ensures r.Keys == m.Keys - {id}
    ensures forall k :: k in r ==>
              r[k] == if m[k].listId == m[id].listId && m[k].listOrder > m[id].listOrder
                      then m[k].(listOrder := m[k].listOrder - 1)
                      else m[k]
  {
    var gone := m[id];
    ShiftWhere(m - {id}, Where(Some(gone.listId), Some(gone.listOrder), None), -1)
  }

  /** deleteList: the data layer cascades the list's deletion to its tasks. */
  function Cascade(m: Table, l: nat): (r: Table)
    ensures r.Keys <= m.Keys
    ensures forall k :: k in r ==> r[k] == m[k] && r[k].listId != l
    ensures forall k :: k in m && m[k].listId != l ==> k in r
  {
    map k | k in m && m[k].listId != l :: m[k]
  }

  /** The input of updateTask as it reaches the resolver: each field left
      out, null, or given. `listId` is a GraphQL `ID`, so it arrives as a
      string. */
  datatype TaskPatch = TaskPatch(
    title: Arg<string>,
    completed: Arg<bool>,
    listId: Arg<string>,
    listOrder: Arg<int>)

  /** The data layer accepts the input only when every field it carries fits
      its column: no null for a required column, and no `listId` at all,
      because the resolver passes that ID on as a string to an integer column
      without the `Number` conversion every other id goes through. */
  predicate Writable(p: TaskPatch) {
    && p.listId.Absent?
    && !p.title.Null? && !p.completed.Null? && !p.listOrder.Null?
  }

  /** updateTask on an accepted input: each given field is written, each
      absent one is left alone; the id and the list never change. */
  function Patch(t: Task, p: TaskPatch): (r: Task)
    requires Writable(p)
    ensures r.id == t.id && r.listId == t.listId
    ensures p.title.Absent? ==> r.title == t.title
    ensures p.completed.Absent? ==> r.completed == t.completed
    ensures p.listOrder.Absent? ==> r.listOrder == t.listOrder
    ensures p.title.Given? ==> r.title == p.title.value
    ensures p.completed.Given? ==> r.completed == p.completed.value
    ensures p.listOrder.Given? ==> r.listOrder == p.listOrder.value
  {
    t.(title := if p.title.Given? then p.title.value else t.title,
       completed := if p.completed.Given? then p.completed.value else t.completed,
       listOrder := if p.listOrder.Given? then p.listOrder.value else t.listOrder)
  }
}
