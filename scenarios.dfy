/** The service's test scenarios, replayed on the model: the fixture of four
    lists (list 1 holding tasks A..F at ranks 0..5, list 2 holding O, list 3
    holding one task, list 4 empty), each mutation the tests perform on it,
    and the list views the tests expect afterwards. */
module Scenarios {
  import opened TaskModel
  import opened ListResolver
  import opened Ordering
  import opened OrderingProofs
  import opened ListEdits
  import opened AsWritten

  function A(): Task { Task(0, 1, 0, "task A", false) }
  function B(): Task { Task(1, 1, 1, "task B", false) }
  function C(): Task { Task(2, 1, 2, "task C", false) }
  function D(): Task { Task(3, 1, 3, "task D", false) }
  function E(): Task { Task(4, 1, 4, "task E", false) }
  function F(): Task { Task(5, 1, 5, "task F", false) }
  function O(): Task { Task(20, 2, 0, "task O", false) }
  function Lone(): Task { Task(30, 3, 0, "task", false) }

  /** The task table the mutation tests start from. */
  function Fixture(): Table {
    map[0 := A(), 1 := B(), 2 := C(), 3 := D(), 4 := E(), 5 := F(), 20 := O(), 30 := Lone()]
  }

  lemma FixtureListKeys(m: Table)
    requires m == Fixture()
    ensures ListKeys(m, 1) == {0, 1, 2, 3, 4, 5}
    ensures ListKeys(m, 2) == {20}
    ensures ListKeys(m, 3) == {30}
    ensures forall l: nat :: l !in {1, 2, 3} ==> ListKeys(m, l) == {}
  {
    assert ListKeys(m, 1) == {0, 1, 2, 3, 4, 5} by {
      forall k ensures k in ListKeys(m, 1) <==> k in {0, 1, 2, 3, 4, 5} {
        if k in m { assert m[k].listId == 1 <==> k < 6; }
      }
    }
    forall l: nat | l !in {1, 2, 3} ensures ListKeys(m, l) == {} {
      forall k | k in m ensures m[k].listId != l {
      }
    }
  }

  /** Lists 1 and 2 of the fixture are dense. */
  lemma FixtureDenseOne(m: Table)
    requires m == Fixture()
    ensures Dense(m, 1) && Count(m, 1) == 6
  {
    FixtureListKeys(m);
    assert forall k :: k in m && m[k].listId == 1 ==> k < 6 && m[k].listOrder == k;
  }

  lemma FixtureDenseTwo(m: Table)
    requires m == Fixture()
    ensures Dense(m, 2) && Count(m, 2) == 1
  {
    FixtureListKeys(m);
  }

  lemma FixtureDenseThree(m: Table)
    requires m == Fixture()
    ensures Dense(m, 3)
  {
    FixtureListKeys(m);
  }

  lemma FixtureOtherListEmpty(m: Table, l: nat)
    requires m == Fixture()
    requires l !in {1, 2, 3}
    ensures Dense(m, l)
  {
    FixtureListKeys(m);
  }

  /** The fixture satisfies invariant I1. */
  lemma FixtureAllDense(m: Table)
    requires m == Fixture()
    ensures AllDense(m)
  {
    FixtureListKeys(m);
    FixtureDenseOne(m);
    FixtureDenseTwo(m);
    FixtureDenseThree(m);
    forall l: nat ensures Dense(m, l) {
      if l !in {1, 2, 3} {
        FixtureOtherListEmpty(m, l);
      }
    }
  }

  /** Before any mutation, list 1 reads A, B, C, D, E, F. */
  lemma FixtureViewOfListOne(m: Table)
    requires m == Fixture()
    ensures Tasks(m, 1) == ListOne()
  {
    FixtureDenseOne(m);
    DenseViewIs(m, 1, [0, 1, 2, 3, 4, 5], ListOne());
  }

  lemma FixtureViewOfListTwo(m: Table)
    requires m == Fixture()
    ensures Tasks(m, 2) == [O()]
  {
    FixtureDenseTwo(m);
    DenseViewIs(m, 2, [20], [O()]);
  }

  /** createTask "task N" in list 2 (next id 31): list 2 reads N, O. */
  lemma CreateScenario(m: Table)
    requires m == Fixture()
    ensures Tasks(Create(m, 2, 31, "task N"), 2)
            == [Task(31, 2, 0, "task N", false), O().(listOrder := 1)]
  {
    FixtureDenseTwo(m);
    CreateView(m, 2, 31, "task N");
    FixtureViewOfListTwo(m);
  }

  /** List 1 as the fixture has it, with `a` in the place of task A (the
      tests complete A before they move anything). */
  function ListOneWith(a: Task): seq<Task> { [a, B(), C(), D(), E(), F()] }

  function ListOne(): seq<Task> { ListOneWith(A()) }

  lemma MoveBInListOne(a: Task)
    ensures MoveItem(ListOneWith(a), 1, 4) == [a, C(), D(), E(), B(), F()]
  {
    var moved := [a, C(), D(), E(), B(), F()];
    forall i | 0 <= i < 6 ensures MoveItem(ListOneWith(a), 1, 4)[i] == moved[i] {
      MoveItemIndex(ListOneWith(a), 1, 4, i);
    }
    MoveItemIndex(ListOneWith(a), 1, 4, 0);
  }

  lemma RemoveDFromListOne(a: Task)
    ensures RemoveAt(ListOneWith(a), 3) == [a, B(), C(), E(), F()]
  {
    var rest := [a, B(), C(), E(), F()];
    forall i | 0 <= i < 5 ensures RemoveAt(ListOneWith(a), 3)[i] == rest[i] {
      RemoveAtIndex(ListOneWith(a), 3, i);
    }
    RemoveAtIndex(ListOneWith(a), 3, 0);
  }

  lemma RenumberMoved(a: Task)
    requires a.listOrder == 0
    ensures Renumbered([a, C(), D(), E(), B(), F()])
            == [a, C().(listOrder := 1), D().(listOrder := 2), E().(listOrder := 3),
                B().(listOrder := 4), F()]
  {
  }

  /** Any table whose list 1 reads a, B..F, B (id 1) at rank 1: moving B to
      rank 4 gives a, C, D, E, B, F. */
  lemma MoveBToFour(m: Table, a: Task)
    requires 1 in m && m[1].listId == 1 && m[1].listOrder == 1
    requires a.listOrder == 0
    requires Dense(m, 1) && Tasks(m, 1) == ListOneWith(a)
    ensures Tasks(Reposition(m, 1, 4), 1)
            == [a, C().(listOrder := 1), D().(listOrder := 2), E().(listOrder := 3),
                B().(listOrder := 4), F()]
  {
    RepositionView(m, 1, 4);
    MoveBInListOne(a);
    RenumberMoved(a);
  }

  /** updateTaskPosition moves B from rank 1 to rank 4: list 1 reads
      A, C, D, E, B, F at ranks 0..5. */
  lemma MoveScenario(m: Table)
    requires m == Fixture()
    ensures Tasks(Reposition(m, 1, 4), 1)
            == [A(), C().(listOrder := 1), D().(listOrder := 2), E().(listOrder := 3),
                B().(listOrder := 4), F()]
  {
    FixtureDenseOne(m);
    FixtureViewOfListOne(m);
    MoveBToFour(m, A());
  }

  /** Moving B back from rank 4 to rank 1 restores the fixture. */
  lemma MoveBackScenario(m: Table)
    requires m == Fixture()
    ensures Reposition(Reposition(m, 1, 4), 1, 1) == m
    ensures Tasks(Reposition(Reposition(m, 1, 4), 1, 1), 1) == ListOne()
  {
    FixtureDenseOne(m);
    RepositionRoundTrip(m, 1, 4);
    FixtureViewOfListOne(m);
  }

  lemma RenumberRemoved(a: Task)
    requires a.listOrder == 0
    ensures Renumbered([a, B(), C(), E(), F()])
            == [a, B(), C(), E().(listOrder := 3), F().(listOrder := 4)]
  {
  }

  /** Any table whose list 1 reads a, B..F, D (id 3) at rank 3: deleting D
      gives a, B, C, E, F. */
  lemma DeleteD(m: Table, a: Task)
    requires 3 in m && m[3].listId == 1 && m[3].listOrder == 3
    requires a.listOrder == 0
    requires Dense(m, 1) && Tasks(m, 1) == ListOneWith(a)
    ensures Tasks(Delete(m, 3), 1) == [a, B(), C(), E().(listOrder := 3), F().(listOrder := 4)]
  {
    DeleteView(m, 3);
    RemoveDFromListOne(a);
    RenumberRemoved(a);
  }

  /** deleteTask D (id 3, rank 3): list 1 reads A, B, C, E, F at ranks 0..4. */
  lemma DeleteScenario(m: Table)
    requires m == Fixture()
    ensures Tasks(Delete(m, 3), 1)
            == [A(), B(), C(), E().(listOrder := 3), F().(listOrder := 4)]
  {
    FixtureDenseOne(m);
    FixtureViewOfListOne(m);
    DeleteD(m, A());
  }

  /** deleteList 1 on the fixture alone: no task of list 1 is left, list 2
      still reads O. */
  lemma DeleteListScenario(m: Table)
    requires m == Fixture()
    ensures Tasks(Cascade(m, 1), 1) == []
    ensures Tasks(Cascade(m, 1), 2) == [O()]
  {
    CascadeEmptiesList(m, 1);
    CascadeKeepsOtherLists(m, 1, 2);
    FixtureViewOfListTwo(m);
  }

  // ------------------------------------------ the test file run in sequence

  /** The test file runs its tests in order on one database. Its task
      mutations before the moves: create "task N" in list 2 (next id 31),
      complete task A, retitle the task of list 3. */
  function Done(): TaskPatch { TaskPatch(Absent, Given(true), Absent, Absent) }
  function Edited(): TaskPatch { TaskPatch(Given("task (edited)"), Absent, Absent, Absent) }

  function AfterEdits(m: Table): Table
    requires m == Fixture()
  {
    var created := Create(m, 2, 31, "task N");
    var done := created[0 := Patch(created[0], Done())];
    done[30 := Patch(done[30], Edited())]
  }

  function DoneA(): Task { A().(completed := true) }

  function ListTwoAfterCreate(): seq<Task> { [Task(31, 2, 0, "task N", false), O().(listOrder := 1)] }

  lemma ReplaceA(a: Task)
    ensures ListOne()[0 := a] == ListOneWith(a)
  {
    forall i | 0 <= i < 6 ensures ListOne()[0 := a][i] == ListOneWith(a)[i] {
    }
  }

  /** Completing A (id 0) in any table whose list 1 reads A..F. */
  lemma CompleteA(c: Table, two: seq<Task>)
    requires 0 in c && c[0] == A()
    requires Dense(c, 1) && Tasks(c, 1) == ListOne() && Tasks(c, 2) == two
    ensures Dense(c[0 := Patch(c[0], Done())], 1)
    ensures Tasks(c[0 := Patch(c[0], Done())], 1) == ListOneWith(DoneA())
    ensures Tasks(c[0 := Patch(c[0], Done())], 2) == two
  {
    PatchView(c, 0, Done());
    ReplaceA(DoneA());
    PatchKeepsOtherLists(c, 0, Done(), 2);
    PatchFieldsKeepDensity(c, 0, Done(), 1);
  }

  /** Retitling the task of list 3 (id 30) leaves lists 1 and 2 alone. */
  lemma RetitleListThree(d: Table)
    requires 30 in d && d[30].listId == 3
    requires Dense(d, 1)
    ensures Dense(d[30 := Patch(d[30], Edited())], 1)
    ensures Tasks(d[30 := Patch(d[30], Edited())], 1) == Tasks(d, 1)
    ensures Tasks(d[30 := Patch(d[30], Edited())], 2) == Tasks(d, 2)
  {
    PatchKeepsOtherLists(d, 30, Edited(), 1);
    PatchKeepsOtherLists(d, 30, Edited(), 2);
    PatchFieldsKeepDensity(d, 30, Edited(), 1);
  }

  /** After those edits list 1 reads A (completed), B..F, and list 2 reads
      N, O; list 1 is dense. */
  lemma EditsScenario(m: Table)
    requires m == Fixture()
    ensures Dense(AfterEdits(m), 1)
    ensures Tasks(AfterEdits(m), 1) == ListOneWith(DoneA())
    ensures Tasks(AfterEdits(m), 2) == ListTwoAfterCreate()
  {
    assert 0 in m && m[0] == A();
    var created := Create(m, 2, 31, "task N");
    assert created[0] == A();
    FixtureDenseOne(m);
    CreatePreservesDensity(m, 2, 31, "task N", 1);
    CreateKeepsOtherLists(m, 2, 31, "task N", 1);
    FixtureViewOfListOne(m);
    CreateScenario(m);
    CompleteA(created, ListTwoAfterCreate());
    RetitleListThree(created[0 := Patch(created[0], Done())]);
  }

  /** The moves on any table that reads as the edits leave it: B goes to
      rank 4, then back to rank 1, which restores the table. */
  lemma MovesAfterEdits(e: Table)
    requires 1 in e && e[1] == B()
    requires Dense(e, 1) && Tasks(e, 1) == ListOneWith(DoneA())
    ensures Tasks(Reposition(e, 1, 4), 1)
            == [DoneA(), C().(listOrder := 1), D().(listOrder := 2), E().(listOrder := 3),
                B().(listOrder := 4), F()]
    ensures Reposition(Reposition(e, 1, 4), 1, 1) == e
  {
    MoveBToFour(e, DoneA());
    RepositionRoundTrip(e, 1, 4);
  }

  /** The deletes on such a table: D goes, then list 1 goes, leaving list 2
      as it was. */
  lemma DeletesAfterEdits(e: Table)
    requires 3 in e && e[3] == D()
    requires Dense(e, 1) && Tasks(e, 1) == ListOneWith(DoneA()) && Tasks(e, 2) == ListTwoAfterCreate()
    ensures Tasks(Delete(e, 3), 1) == [DoneA(), B(), C(), E().(listOrder := 3), F().(listOrder := 4)]
    ensures Tasks(Cascade(Delete(e, 3), 1), 1) == []
    ensures Tasks(Cascade(Delete(e, 3), 1), 2) == ListTwoAfterCreate()
  {
    DeleteD(e, DoneA());
    DeleteKeepsOtherLists(e, 3, 2);
    CascadeEmptiesList(Delete(e, 3), 1);
    CascadeKeepsOtherLists(Delete(e, 3), 1, 2);
  }

  /** The rest of the file on the edited fixture: B moves to rank 4 and back,
      which restores the table; D is deleted; list 1 is deleted, which empties
      it and leaves list 2 reading N, O. */
  lemma SequenceScenario(m: Table)
    requires m == Fixture()
    ensures Tasks(Reposition(AfterEdits(m), 1, 4), 1)
            == [DoneA(), C().(listOrder := 1), D().(listOrder := 2), E().(listOrder := 3),
                B().(listOrder := 4), F()]
    ensures Reposition(Reposition(AfterEdits(m), 1, 4), 1, 1) == AfterEdits(m)
    ensures Tasks(Delete(AfterEdits(m), 3), 1)
            == [DoneA(), B(), C(), E().(listOrder := 3), F().(listOrder := 4)]
    ensures Tasks(Cascade(Delete(AfterEdits(m), 3), 1), 1) == []
    ensures Tasks(Cascade(Delete(AfterEdits(m), 3), 1), 2) == ListTwoAfterCreate()
  {
    var e := AfterEdits(m);
    assert e[1] == B() && e[3] == D();
    EditsScenario(m);
    MovesAfterEdits(e);
    DeletesAfterEdits(e);
  }

  /** The query test stores C, B, A (ids 1, 2, 3) with ranks 2, 1, 0. */
  function OutOfOrder(): Table {
    map[1 := Task(1, 1, 2, "task C", false),
        2 := Task(2, 1, 1, "task B", false),
        3 := Task(3, 1, 0, "task A", false)]
  }

  /** ... and `List.tasks` returns them as A, B, C. */
  lemma OutOfOrderScenario(m: Table)
    requires m == OutOfOrder()
    ensures Tasks(m, 1)
            == [Task(3, 1, 0, "task A", false), Task(2, 1, 1, "task B", false), Task(1, 1, 2, "task C", false)]
  {
    assert ListKeys(m, 1) == {1, 2, 3};
    DenseViewIs(m, 1, [3, 2, 1], [m[3], m[2], m[1]]);
  }

  /** As written, moving B from rank 1 to rank 4 leaves B and E both at rank
      4 and C, D where they were. */
  lemma MoveAsWrittenScenario(m: Table)
    requires m == Fixture()
    ensures RepositionAsWritten(m, 1, 4)[1].listOrder == 4
    ensures RepositionAsWritten(m, 1, 4)[4].listOrder == 4
    ensures RepositionAsWritten(m, 1, 4)[2] == C()
    ensures !Dense(RepositionAsWritten(m, 1, 4), 1)
  {
    FixtureDenseOne(m);
    RepositionAsWrittenBreaksDensity(m, 1, 4);
  }

  /** A table in which list 2 holds two tasks at ranks 0 and 1 while task 0
      sits at rank 0 of list 1: deleting task 0 as written also pulls the
      task at rank 1 of list 2 onto rank 0. */
  lemma DeleteAsWrittenHitsListTwo(m: Table, n: nat, o: nat)
    requires 0 in m && m[0].listId == 1 && m[0].listOrder == 0
    requires n in m && m[n].listId == 2 && m[n].listOrder == 0
    requires o in m && m[o].listId == 2 && m[o].listOrder == 1
    requires Dense(m, 2) && Count(m, 2) == 2
    ensures DeleteAsWritten(m, 0)[n].listOrder == 0 && DeleteAsWritten(m, 0)[o].listOrder == 0
    ensures !Dense(DeleteAsWritten(m, 0), 2)
  {
    DeleteAsWrittenBreaksOtherList(m, 0, 2);
  }

  /** As written, deleting A (rank 0 of list 1) after "task N" was created in
      list 2 also pulls O, at rank 1 of list 2, onto N's rank 0. */
  lemma DeleteAsWrittenScenario(m: Table)
    requires m == Fixture()
    ensures DeleteAsWritten(Create(m, 2, 31, "task N"), 0)[20].listOrder == 0
    ensures DeleteAsWritten(Create(m, 2, 31, "task N"), 0)[31].listOrder == 0
    ensures !Dense(DeleteAsWritten(Create(m, 2, 31, "task N"), 0), 2)
  {
    FixtureDenseTwo(m);
    CreatePreservesDensity(m, 2, 31, "task N", 2);
    DeleteAsWrittenHitsListTwo(Create(m, 2, 31, "task N"), 31, 20);
  }
}
