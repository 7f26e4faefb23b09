/** What the ordering mutations guarantee: each keeps every list dense
    (invariant I1), touches no list but its own (invariant I2), and turns the
    list view into the list edit the user asked for. */
module OrderingProofs {
  import opened TaskModel
  import opened ListResolver
  import opened Ordering
  import opened ListEdits

  // ---------------------------------------------------------------- createTask

  lemma CreateListKeys(m: Table, l: nat, id: nat, title: string, l2: nat)
    requires id !in m
    ensures ListKeys(Create(m, l, id, title), l2)
            == if l2 == l then ListKeys(m, l2) + {id} else ListKeys(m, l2)
  {
  }

  /** createTask keeps every list dense: list `l` grows by one with the new
      task at rank 0, and every other list is unchanged. */
  lemma CreatePreservesDensity(m: Table, l: nat, id: nat, title: string, l2: nat)
    requires id !in m
    requires Dense(m, l2)
    ensures Dense(Create(m, l, id, title), l2)
    ensures Count(Create(m, l, id, title), l2) == Count(m, l2) + (if l2 == l then 1 else 0)
  {
    CreateListKeys(m, l, id, title, l2);
    assert id !in ListKeys(m, l2);
  }

  /** On a dense list, createTask puts the new task at the head of the view
      and pushes every existing task one place down. */
  lemma CreateView(m: Table, l: nat, id: nat, title: string)
    requires id !in m
    requires Dense(m, l)
    ensures Tasks(Create(m, l, id, title), l) == Renumbered([Task(id, l, 0, title, false)] + Tasks(m, l))
  {
    var r := Create(m, l, id, title);
    var vk := DenseViewKeys(m, l);
    var v := Tasks(m, l);
    CreatePreservesDensity(m, l, id, title, l);
    var ks := [id] + vk;
    var expected := Renumbered([Task(id, l, 0, title, false)] + v);
    forall i | 0 <= i < |ks|
      ensures ks[i] in r && r[ks[i]] == expected[i] && expected[i].listId == l && expected[i].listOrder == i
    {
      if i > 0 {
        assert ks[i] == vk[i - 1] && v[i - 1] == m[vk[i - 1]];
      }
    }
    DenseViewIs(r, l, ks, expected);
  }

  lemma CreateKeepsAllDense(m: Table, l: nat, id: nat, title: string)
    requires id !in m
    requires AllDense(m)
    ensures AllDense(Create(m, l, id, title))
  {
    forall l2: nat ensures Dense(Create(m, l, id, title), l2) {
      CreatePreservesDensity(m, l, id, title, l2);
    }
  }

  /** createTask leaves the view of every other list as it was. */
  lemma CreateKeepsOtherLists(m: Table, l: nat, id: nat, title: string, l2: nat)
    requires id !in m
    requires l2 != l
    ensures Tasks(Create(m, l, id, title), l2) == Tasks(m, l2)
  {
    CreateListKeys(m, l, id, title, l2);
    TasksDependOnListOnly(m, Create(m, l, id, title), l2);
  }

  // ------------------------------------------------------- updateTaskPosition

  lemma RepositionListKeys(m: Table, id: nat, d: int, l2: nat)
    requires id in m
    ensures ListKeys(Reposition(m, id, d), l2) == ListKeys(m, l2)
  {
  }

  lemma RepositionRanksInRange(m: Table, id: nat, d: int, l2: nat)
    requires id in m
    requires Dense(m, l2)
    requires m[id].listId == l2 ==> 0 <= d < Count(m, l2)
    ensures forall k :: k in m && Reposition(m, id, d)[k].listId == l2
              ==> 0 <= Reposition(m, id, d)[k].listOrder < Count(m, l2)
  {
  }

  lemma RepositionRanksDistinct(m: Table, id: nat, d: int, l2: nat)
    requires id in m
    requires Dense(m, l2)
    requires m[id].listId == l2 ==> 0 <= d < Count(m, l2)
    ensures forall j, k :: j in m && k in m && j != k
              && Reposition(m, id, d)[j].listId == l2 && Reposition(m, id, d)[k].listId == l2
              ==> Reposition(m, id, d)[j].listOrder != Reposition(m, id, d)[k].listOrder
  {
  }

  /** A move to a rank inside the list keeps that list dense, and leaves every
      other list untouched. */
  lemma RepositionPreservesDensity(m: Table, id: nat, d: int, l2: nat)
    requires id in m
    requires Dense(m, l2)
    requires m[id].listId == l2 ==> 0 <= d < Count(m, l2)
    ensures Dense(Reposition(m, id, d), l2)
  {
    RepositionListKeys(m, id, d, l2);
    RepositionRanksInRange(m, id, d, l2);
    RepositionRanksDistinct(m, id, d, l2);
  }

  lemma RepositionKeepsAllDense(m: Table, id: nat, d: int)
    requires id in m
    requires AllDense(m)
    requires 0 <= d < Count(m, m[id].listId)
    ensures AllDense(Reposition(m, id, d))
  {
    forall l2: nat ensures Dense(Reposition(m, id, d), l2) {
      RepositionPreservesDensity(m, id, d, l2);
    }
  }

  /** The task that ends up at index i of the moved list is the one that sat
      at index MoveSource(o, d, i) before, now ranked i. */
  lemma RepositionRankAt(m: Table, id: nat, d: nat, k: nat, i: nat)
    requires id in m && k in m && m[k].listId == m[id].listId
    requires 0 <= m[id].listOrder
    requires m[k].listOrder == MoveSource(m[id].listOrder as nat, d, i)
    requires k == id <==> m[k].listOrder == m[id].listOrder
    ensures Reposition(m, id, d)[k] == m[k].(listOrder := i)
  {
  }

  /** The key that lands at index i of the moved list, read off the keys of
      the view before the move, holds the right task at rank i. */
  lemma RepositionViewAt(m: Table, id: nat, d: nat, vk: seq<nat>, i: nat)
    requires id in m && d < |vk| && i < |vk|
    requires forall j :: 0 <= j < |vk| ==>
               vk[j] in m && m[vk[j]].listId == m[id].listId && m[vk[j]].listOrder == j
    requires 0 <= m[id].listOrder < |vk| && vk[m[id].listOrder] == id
    ensures MoveSource(m[id].listOrder as nat, d, i) < |vk|
    ensures MoveItem(vk, m[id].listOrder as nat, d)[i] in Reposition(m, id, d)
    ensures Reposition(m, id, d)[MoveItem(vk, m[id].listOrder as nat, d)[i]]
            == m[vk[MoveSource(m[id].listOrder as nat, d, i)]].(listOrder := i)
  {
    var o: nat := m[id].listOrder as nat;
    MoveItemIndex(vk, o, d, i);
    var j := MoveSource(o, d, i);
    RepositionRankAt(m, id, d, vk[j], i);
  }

  /** On a dense list, updateTaskPosition does to the view exactly what the
      user asked: the task at rank o is taken out and put back at rank d, and
      the list is renumbered. */
  lemma RepositionView(m: Table, id: nat, d: nat)
    requires id in m
    requires Dense(m, m[id].listId)
    requires d < Count(m, m[id].listId)
    ensures 0 <= m[id].listOrder < |Tasks(m, m[id].listId)|
    ensures Tasks(Reposition(m, id, d), m[id].listId)
            == Renumbered(MoveItem(Tasks(m, m[id].listId), m[id].listOrder, d))
  {
    var l, o := m[id].listId, m[id].listOrder;
    var r := Reposition(m, id, d);
    var vk := DenseViewKeys(m, l);
    var v := Tasks(m, l);
    RepositionPreservesDensity(m, id, d, l);
    RepositionListKeys(m, id, d, l);
    DenseOrderTaken(m, l, o);
    assert vk[o] == id by {
      var k :| k in m && m[k].listId == l && m[k].listOrder == o;
      assert k == id && m[vk[o]].listOrder == o;
    }
    var ks := MoveItem(vk, o, d);
    var expected := Renumbered(MoveItem(v, o, d));
    MoveItemIndex(vk, o, d, 0);
    MoveItemIndex(v, o, d, 0);
    forall i | 0 <= i < |ks|
      ensures ks[i] in r && r[ks[i]] == expected[i] && expected[i].listId == l && expected[i].listOrder == i
    {
      RepositionViewAt(m, id, d, vk, i);
      MoveItemIndex(v, o, d, i);
    }
    DenseViewIs(r, l, ks, expected);
  }

  lemma RepositionRoundTripAt(m: Table, id: nat, d: int, k: nat)
    requires id in m && k in m
    requires k != id && m[k].listId == m[id].listId ==> m[k].listOrder != m[id].listOrder
    ensures Reposition(Reposition(m, id, d), id, m[id].listOrder)[k] == m[k]
  {
  }

  /** Moving a task from rank o to d and back from d to o restores every
      task's rank. */
  lemma RepositionRoundTrip(m: Table, id: nat, d: int)
    requires id in m
    requires Dense(m, m[id].listId)
    ensures Reposition(Reposition(m, id, d), id, m[id].listOrder) == m
  {
    var back := Reposition(Reposition(m, id, d), id, m[id].listOrder);
    forall k | k in m ensures back[k] == m[k] {
      RepositionRoundTripAt(m, id, d, k);
    }
  }

  /** updateTaskPosition leaves the view of every other list as it was. */
  lemma RepositionKeepsOtherLists(m: Table, id: nat, d: int, l2: nat)
    requires id in m
    requires l2 != m[id].listId
    ensures Tasks(Reposition(m, id, d), l2) == Tasks(m, l2)
  {
    var r := Reposition(m, id, d);
    RepositionListKeys(m, id, d, l2);
    forall k | k in ListKeys(m, l2) ensures r[k] == m[k] {
      assert r[k].(listOrder := m[k].listOrder) == m[k];
    }
    TasksDependOnListOnly(m, r, l2);
  }

  // --------------------------------------------------------------- deleteTask

  lemma DeleteListKeys(m: Table, id: nat, l2: nat)
    requires id in m
    ensures ListKeys(Delete(m, id), l2) == ListKeys(m, l2) - {id}
  {
  }

  /** deleteTask keeps every list dense: the deleted task's list closes the
      gap and has one task fewer; every other list is unchanged. */
  lemma DeletePreservesDensity(m: Table, id: nat, l2: nat)
    requires id in m
    requires Dense(m, l2)
    ensures Dense(Delete(m, id), l2)
    ensures Count(Delete(m, id), l2) == Count(m, l2) - (if m[id].listId == l2 then 1 else 0)
  {
    DeleteListKeys(m, id, l2);
    var r := Delete(m, id);
    forall j, k | j in r && k in r && r[j].listId == l2 && r[k].listId == l2
                  && r[j].listOrder == r[k].listOrder
      ensures j == k
    {
      assert m[j].listOrder != m[id].listOrder || m[j].listId != m[id].listId;
    }
  }

  lemma DeleteKeepsAllDense(m: Table, id: nat)
    requires id in m
    requires AllDense(m)
    ensures AllDense(Delete(m, id))
  {
    forall l2: nat ensures Dense(Delete(m, id), l2) {
      DeletePreservesDensity(m, id, l2);
    }
  }

  /** The key at index i of the view after the delete, read off the keys
      of the view before it, holds the right task at rank i. */
  lemma DeleteViewAt(m: Table, id: nat, vk: seq<nat>, i: nat)
    requires id in m && i + 1 < |vk|
    requires forall j :: 0 <= j < |vk| ==>
               vk[j] in m && m[vk[j]].listId == m[id].listId && m[vk[j]].listOrder == j
    requires 0 <= m[id].listOrder < |vk| && vk[m[id].listOrder] == id
    ensures RemoveAt(vk, m[id].listOrder as nat)[i] in Delete(m, id)
    ensures Delete(m, id)[RemoveAt(vk, m[id].listOrder as nat)[i]]
            == m[vk[if i < m[id].listOrder then i else i + 1]].(listOrder := i)
  {
    RemoveAtIndex(vk, m[id].listOrder as nat, i);
    var j := if i < m[id].listOrder then i else i + 1;
    assert vk[j] != id by { assert m[vk[j]].listOrder != m[id].listOrder; }
  }

  /** On a dense list, deleteTask takes the task out of the view and moves
      every later task one place up. */
  lemma DeleteView(m: Table, id: nat)
    requires id in m
    requires Dense(m, m[id].listId)
    ensures 0 <= m[id].listOrder < |Tasks(m, m[id].listId)|
    ensures Tasks(Delete(m, id), m[id].listId) == Renumbered(RemoveAt(Tasks(m, m[id].listId), m[id].listOrder))
  {
    var l, o := m[id].listId, m[id].listOrder;
    var r := Delete(m, id);
    var vk := DenseViewKeys(m, l);
    var v := Tasks(m, l);
    DeletePreservesDensity(m, id, l);
    DenseOrderTaken(m, l, o);
    assert vk[o] == id by {
      var k :| k in m && m[k].listId == l && m[k].listOrder == o;
      assert k == id && m[vk[o]].listOrder == o;
    }
    var ks := RemoveAt(vk, o);
    var expected := Renumbered(RemoveAt(v, o));
    forall i | 0 <= i < |ks|
      ensures ks[i] in r && r[ks[i]] == expected[i] && expected[i].listId == l && expected[i].listOrder == i
    {
      DeleteViewAt(m, id, vk, i);
      RemoveAtIndex(v, o, i);
    }
    DenseViewIs(r, l, ks, expected);
  }

  /** deleteTask leaves the view of every other list as it was. */
  lemma DeleteKeepsOtherLists(m: Table, id: nat, l2: nat)
    requires id in m
    requires l2 != m[id].listId
    ensures Tasks(Delete(m, id), l2) == Tasks(m, l2)
  {
    DeleteListKeys(m, id, l2);
    TasksDependOnListOnly(m, Delete(m, id), l2);
  }

  // --------------------------------------------------------------- deleteList

  /** After deleteList no task of the list is left: its view is empty. */
  lemma CascadeEmptiesList(m: Table, l: nat)
    ensures Count(Cascade(m, l), l) == 0
    ensures Tasks(Cascade(m, l), l) == []
  {
    assert ListKeys(Cascade(m, l), l) == {};
  }

  /** deleteList leaves every other list, its view and its density as they
      were. */
  lemma CascadeKeepsOtherLists(m: Table, l: nat, l2: nat)
    requires l2 != l
    ensures Tasks(Cascade(m, l), l2) == Tasks(m, l2)
    ensures Dense(Cascade(m, l), l2) <==> Dense(m, l2)
  {
    var r := Cascade(m, l);
    assert ListKeys(r, l2) == ListKeys(m, l2);
    TasksDependOnListOnly(m, r, l2);
  }

  lemma CascadeKeepsAllDense(m: Table, l: nat)
    requires AllDense(m)
    ensures AllDense(Cascade(m, l))
  {
    forall l2: nat ensures Dense(Cascade(m, l), l2) {
      if l2 != l {
        CascadeKeepsOtherLists(m, l, l2);
      } else {
        assert ListKeys(Cascade(m, l), l) == {};
      }
    }
  }

  // --------------------------------------------------------------- updateTask

  /** An accepted updateTask that leaves listOrder out keeps every list
      dense and every rank where it was. */
  lemma PatchFieldsKeepDensity(m: Table, id: nat, p: TaskPatch, l2: nat)
    requires id in m
    requires Writable(p) && p.listOrder.Absent?
    requires Dense(m, l2)
    ensures Dense(m[id := Patch(m[id], p)], l2)
  {
    assert ListKeys(m[id := Patch(m[id], p)], l2) == ListKeys(m, l2);
  }

  lemma PatchFieldsKeepAllDense(m: Table, id: nat, p: TaskPatch)
    requires id in m
    requires Writable(p) && p.listOrder.Absent?
    requires AllDense(m)
    ensures AllDense(m[id := Patch(m[id], p)])
  {
    var r := m[id := Patch(m[id], p)];
    forall l2: nat ensures Dense(r, l2) {
      PatchFieldsKeepDensity(m, id, p, l2);
    }
  }

  /** An accepted updateTask without listOrder changes the task in place: its
      list's view holds the written task at the same index. */
  lemma PatchView(m: Table, id: nat, p: TaskPatch)
    requires id in m && Writable(p) && p.listOrder.Absent?
    requires Dense(m, m[id].listId)
    ensures 0 <= m[id].listOrder < |Tasks(m, m[id].listId)|
    ensures Tasks(m[id := Patch(m[id], p)], m[id].listId)
            == Tasks(m, m[id].listId)[m[id].listOrder := Patch(m[id], p)]
  {
    var l, o := m[id].listId, m[id].listOrder;
    var r := m[id := Patch(m[id], p)];
    var vk := DenseViewKeys(m, l);
    assert id in ListKeys(m, l);
    assert ListKeys(r, l) == ListKeys(m, l);
    PatchFieldsKeepDensity(m, id, p, l);
    var expected := Tasks(m, l)[o := Patch(m[id], p)];
    forall i | 0 <= i < |vk|
      ensures vk[i] in r && r[vk[i]] == expected[i] && expected[i].listId == l && expected[i].listOrder == i
    {
      assert vk[i] == id <==> i == o;
    }
    DenseViewIs(r, l, vk, expected);
  }

  /** updateTask leaves the view of every other list unchanged. */
  lemma PatchKeepsOtherLists(m: Table, id: nat, p: TaskPatch, l2: nat)
    requires id in m && Writable(p)
    requires l2 != m[id].listId
    ensures Tasks(m[id := Patch(m[id], p)], l2) == Tasks(m, l2)
  {
    var r := m[id := Patch(m[id], p)];
    assert ListKeys(r, l2) == ListKeys(m, l2);
    TasksDependOnListOnly(m, r, l2);
  }
}
