/** The Task table of the to-do service and the per-list ordering invariant.

    A task belongs to exactly one list and carries `listOrder`, its zero-based
    rank inside that list. The table is keyed by the task's primary key. */
module TaskModel {

  datatype Option<T> = None | Some(value: T)

  /** The three shapes a nullable GraphQL argument or input field can take
      when it reaches a resolver: left out, given as an explicit `null`, or
      given a value. */
  datatype Arg<T> = Absent | Null | Given(value: T)

  /** What the data layer reports when a write cannot be carried out. */
  datatype Error =
    | NotFound            // no row with the given id (findUniqueOrThrow, update, delete)
    | ForeignKeyViolation // a task row would point at a list that does not exist
    | InvalidValue        // the data layer refuses a value of the wrong type, or null for a required column

  datatype Result<T> = Ok(value: T) | Err(error: Error)

  /** One row of the Task table. */
  datatype Task = Task(id: nat, listId: nat, listOrder: int, title: string, completed: bool)

  /** One row of the List table. */
  datatype ListRow = ListRow(id: nat, title: string)

  /** The `{ success }` payload returned by the delete mutations. */
  datatype MutationResult = MutationResult(success: bool)

  /** The task table, indexed by primary key. */
  type Table = map<nat, Task>

  /** Every row is stored under its own id. */
  predicate WellKeyed(m: Table) {
    forall k :: k in m ==> m[k].id == k
  }

  /** The keys of the tasks that belong to list `l`. */
  function ListKeys(m: Table, l: nat): set<nat> {
    set k | k in m && m[k].listId == l
  }

  /** The number of tasks in list `l`. */
  function Count(m: Table, l: nat): nat {
    |ListKeys(m, l)|
  }

  /** Density of list `l`: every order lies in [0, n) where n is the number of
      tasks of the list, and no two tasks of the list share an order. Together
      the two make the orders exactly {0, ..., n-1} (see
      ListResolver.DenseOrdersExactly). */
  predicate Dense(m: Table, l: nat) {
    && (forall k :: k in m && m[k].listId == l ==> 0 <= m[k].listOrder < Count(m, l))
    && (forall j, k ::
          j in m && k in m && m[j].listId == l && m[k].listId == l && m[j].listOrder == m[k].listOrder
          ==> j == k)
  }

  /** Invariant I1 over the whole table: every list is dense. */
  ghost predicate AllDense(m: Table) {
    forall l: nat :: Dense(m, l)
  }

  /** The `where` argument of a bulk `updateMany` over the task table: an
      optional list filter and the optional bounds `listOrder > gt` and
      `listOrder <= lte`, all of which must hold. */
  datatype Where = Where(listId: Option<nat>, gt: Option<int>, lte: Option<int>)

  predicate Matches(w: Where, t: Task) {
    && (w.listId.Some? ==> t.listId == w.listId.value)
    && (w.gt.Some? ==> t.listOrder > w.gt.value)
    && (w.lte.Some? ==> t.listOrder <= w.lte.value)
  }

  /** The effect of `updateMany({ where: w, data: { listOrder: { increment: delta } } })`:
      the rows that match `w` move by `delta`; nothing else in the table changes. */
  function ShiftWhere(m: Table, w: Where, delta: int): (r: Table)
    ensures r.Keys == m.Keys
    ensures forall k :: k in m ==>
              r[k].id == m[k].id && r[k].listId == m[k].listId
              && r[k].title == m[k].title && r[k].completed == m[k].completed
    ensures forall k :: k in m && Matches(w, m[k]) ==> r[k].listOrder == m[k].listOrder + delta
    ensures forall k :: k in m && !Matches(w, m[k]) ==> r[k] == m[k]
  {
    map k | k in m :: if Matches(w, m[k]) then m[k].(listOrder := m[k].listOrder + delta) else m[k]
  }

  /** A shift whose filter names list `l` leaves every other list alone, and
      with no row in `l` it changes nothing at all. */
  lemma ShiftOfEmptyListIsIdentity(m: Table, w: Where, delta: int)
    requires w.listId.Some?
    requires forall k :: k in m ==> m[k].listId != w.listId.value
    ensures ShiftWhere(m, w, delta) == m
  {
    var r := ShiftWhere(m, w, delta);
    assert forall k :: k in m ==> r[k] == m[k];
  }

  /** A shift never moves a task from one list to another, so every list keeps
      its task count. */
  lemma ShiftKeepsListKeys(m: Table, w: Where, delta: int, l: nat)
    ensures ListKeys(ShiftWhere(m, w, delta), l) == ListKeys(m, l)
  {
    var r := ShiftWhere(m, w, delta);
    forall k ensures k in ListKeys(r, l) <==> k in ListKeys(m, l) {
      if k in m { assert r[k].listId == m[k].listId; }
    }
  }
}
