/** The ordering shifts of updateTaskPosition and deleteTask exactly as the
    resolvers write them, next to what each does to a dense list. The model
    of the service (Ordering, Mutation) uses the corrected shifts instead. */
module AsWritten {
  import opened TaskModel
  import opened ListResolver

  /** The filter of the updateTaskPosition shift: `listOrder > origin` and
      `listOrder <= origin`, with no list filter. */
  function RepositionFilter(origin: int): Where {
    Where(None, Some(origin), Some(origin))
  }

  /** No task has a rank both above and at most `origin`. */
  lemma RepositionFilterMatchesNothing(origin: int, t: Task)
    ensures !Matches(RepositionFilter(origin), t)
  {
  }

  /** updateTaskPosition as written: the shift, with its increment on a
      forward move and its decrement on a backward one, runs over the empty
      filter, so only the mover's own rank changes. */
  function RepositionAsWritten(m: Table, id: nat, destination: int): (r: Table)
    requires id in m
    ensures r == m[id := m[id].(listOrder := destination)]
  {
    var origin := m[id].listOrder;
    var shifted := ShiftWhere(m, RepositionFilter(origin), if origin > destination then -1 else 1);
    assert shifted == m by {
      forall k | k in m ensures shifted[k] == m[k] {
        RepositionFilterMatchesNothing(origin, m[k]);
      }
    }
    shifted[id := shifted[id].(listOrder := destination)]
  }

  /** On a dense list, any real move inside the list leaves two tasks on the
      destination rank: the mover and the task that already held it. */
  lemma RepositionAsWrittenBreaksDensity(m: Table, id: nat, destination: int)
    requires id in m
    requires Dense(m, m[id].listId)
    requires 0 <= destination < Count(m, m[id].listId)
    requires destination != m[id].listOrder
    ensures !Dense(RepositionAsWritten(m, id, destination), m[id].listId)
  {
    var l := m[id].listId;
    var r := RepositionAsWritten(m, id, destination);
    DenseOrderTaken(m, l, destination);
    var k :| k in m && m[k].listId == l && m[k].listOrder == destination;
    assert k != id && r[k].listOrder == r[id].listOrder && r[k].listId == r[id].listId;
  }

  /** The range the commented-out filter names, (origin, destination], with
      no list filter, combined with the direction the code picks: decrement
      when origin > destination, increment otherwise. */
  function RepositionCommentedRange(m: Table, id: nat, destination: int): (r: Table)
    requires id in m
    ensures r.Keys == m.Keys
    ensures r[id].listOrder == destination
    ensures forall k :: k in m && k != id && m[id].listOrder < m[k].listOrder <= destination ==>
              r[k].listOrder == m[k].listOrder + 1
    ensures forall k :: k in m && k != id && !(m[id].listOrder < m[k].listOrder <= destination) ==>
              r[k] == m[k]
  {
    var origin := m[id].listOrder;
    var shifted := ShiftWhere(m, Where(None, Some(origin), Some(destination)),
                              if origin > destination then -1 else 1);
    shifted[id := shifted[id].(listOrder := destination)]
  }

  /** With that range, a forward move on a dense list pushes the task at the
      destination rank one place further instead of pulling it back: it then
      lands on the next task's rank, or past the end of the list. */
  lemma CommentedRangeBreaksForwardMove(m: Table, id: nat, destination: int)
    requires id in m
    requires Dense(m, m[id].listId)
    requires m[id].listOrder < destination < Count(m, m[id].listId)
    ensures !Dense(RepositionCommentedRange(m, id, destination), m[id].listId)
  {
    var l := m[id].listId;
    var r := RepositionCommentedRange(m, id, destination);
    assert ListKeys(r, l) == ListKeys(m, l);
    DenseOrderTaken(m, l, destination);
    var k :| k in m && m[k].listId == l && m[k].listOrder == destination;
    assert r[k].listOrder == destination + 1 && r[k].listId == l;
    if destination + 1 < Count(m, l) {
      DenseOrderTaken(m, l, destination + 1);
      var k2 :| k2 in m && m[k2].listId == l && m[k2].listOrder == destination + 1;
      assert k2 != k && r[k2].listOrder == destination + 1 && r[k2].listId == l;
    } else {
      assert r[k].listOrder == Count(r, l);
    }
  }

  /** A backward move fares no better: the range (origin, destination] is
      then empty, so only the mover changes and it lands on the rank of the
      task that already holds the destination. */
  lemma CommentedRangeBreaksBackwardMove(m: Table, id: nat, destination: int)
    requires id in m
    requires Dense(m, m[id].listId)
    requires 0 <= destination < m[id].listOrder
    ensures !Dense(RepositionCommentedRange(m, id, destination), m[id].listId)
  {
    var l := m[id].listId;
    var r := RepositionCommentedRange(m, id, destination);
    assert m[id].listOrder < Count(m, l);
    DenseOrderTaken(m, l, destination);
    var k :| k in m && m[k].listId == l && m[k].listOrder == destination;
    assert k != id && r[k] == m[k];
    assert r[k].listOrder == r[id].listOrder && r[k].listId == l && r[id].listId == l;
  }

  /** deleteTask as written: after the row is gone, every task ranked after
      it moves up one rank, in every list. */
  function DeleteAsWritten(m: Table, id: nat): (r: Table)
    requires id in m
    ensures r.Keys == m.Keys - {id}
    ensures forall k :: k in r ==>
              r[k] == if m[k].listOrder > m[id].listOrder then m[k].(listOrder := m[k].listOrder - 1) else m[k]
  {
    ShiftWhere(m - {id}, Where(None, Some(m[id].listOrder), None), -1)
  }

  /** Another dense list that holds ranks o and o + 1, where o is the deleted
      task's rank, ends up with two tasks at rank o. */
  lemma DeleteAsWrittenBreaksOtherList(m: Table, id: nat, l: nat)
    requires id in m && l != m[id].listId
    requires Dense(m, l)
    requires 0 <= m[id].listOrder && m[id].listOrder + 1 < Count(m, l)
    ensures !Dense(DeleteAsWritten(m, id), l)
  {
    var o := m[id].listOrder;
    var r := DeleteAsWritten(m, id);
    DenseOrderTaken(m, l, o);
    var a :| a in m && m[a].listId == l && m[a].listOrder == o;
    DenseOrderTaken(m, l, o + 1);
    var b :| b in m && m[b].listId == l && m[b].listOrder == o + 1;
    assert a != b && a in r && b in r;
    assert r[a].listOrder == o == r[b].listOrder && r[a].listId == l == r[b].listId;
  }
}
