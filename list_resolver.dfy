/** The read side of the service: `List.tasks`, the tasks of one list in
    ascending `listOrder`. */
module ListResolver {
  import opened TaskModel

  /** Key `a` comes no later than key `b` in a list view: ascending listOrder.
      The data layer leaves the order of equal listOrder values open; the
      model breaks such ties by id. */
  predicate Precedes(m: Table, a: nat, b: nat)
    requires a in m && b in m
  {
    m[a].listOrder < m[b].listOrder || (m[a].listOrder == m[b].listOrder && a <= b)
  }

  /** `k` is the first of `keys` in view order. */
  predicate IsFirst(m: Table, keys: set<nat>, k: nat)
    requires keys <= m.Keys
  {
    k in keys && forall j :: j in keys ==> Precedes(m, k, j)
  }

  lemma {:induction false} FirstExists(m: Table, keys: set<nat>)
    requires keys <= m.Keys && keys != {}
    ensures exists k :: IsFirst(m, keys, k)
    decreases keys
  {
    var x :| x in keys;
    if keys == {x} {
      assert IsFirst(m, keys, x);
    } else {
      FirstExists(m, keys - {x});
      var y :| IsFirst(m, keys - {x}, y);
      if Precedes(m, x, y) {
        forall j | j in keys ensures Precedes(m, x, j) {
          if j != x { assert Precedes(m, y, j); }
        }
        assert IsFirst(m, keys, x);
      } else {
        assert IsFirst(m, keys, y);
      }
    }
  }

  /** `r` lists every key of `keys` once, in view order. */
  ghost predicate ArrangesInOrder(m: Table, keys: set<nat>, r: seq<nat>)
    requires keys <= m.Keys
  {
    && |r| == |keys|
    && (forall k :: k in r <==> k in keys)
    && (forall i, j :: 0 <= i < j < |r| ==> r[i] != r[j])
    && (forall i, j :: 0 <= i < j < |r| ==> r[i] in m && r[j] in m && Precedes(m, r[i], r[j]))
  }

  /** Putting the first key in front of an arrangement of the others arranges
      all of them. */
  lemma FirstThenRest(m: Table, keys: set<nat>, k: nat, rest: seq<nat>)
    requires keys <= m.Keys && IsFirst(m, keys, k)
    requires ArrangesInOrder(m, keys - {k}, rest)
    ensures ArrangesInOrder(m, keys, [k] + rest)
  {
    var r := [k] + rest;
    forall i, j | 0 <= i < j < |r| ensures r[i] != r[j] && Precedes(m, r[i], r[j]) {
      assert r[j] == rest[j - 1] && r[j] in keys - {k};
      if i > 0 {
        assert r[i] == rest[i - 1];
      }
    }
  }

  /** The keys of `keys` arranged in view order: each key exactly once. */
  function OrderedKeys(m: Table, keys: set<nat>): (r: seq<nat>)
    requires keys <= m.Keys
    ensures |r| == |keys|
    ensures forall k :: k in r <==> k in keys
    ensures forall i, j :: 0 <= i < j < |r| ==> r[i] != r[j]
    ensures forall i, j :: 0 <= i < j < |r| ==> Precedes(m, r[i], r[j])
    decreases keys
  {
    if keys == {} then []
    else
      FirstExists(m, keys);
      var k :| k in keys && IsFirst(m, keys, k);
      var rest := OrderedKeys(m, keys - {k});
      FirstThenRest(m, keys, k, rest);
      [k] + rest
  }

  /** `List.tasks`: the tasks of list `l`, sorted ascending by listOrder
      (TasksSorted, TasksArePermutation). */
  function Tasks(m: Table, l: nat): (r: seq<Task>)
    ensures |r| == Count(m, l)
    ensures forall i :: 0 <= i < |r| ==> r[i].listId == l
  {
    var ks := OrderedKeys(m, ListKeys(m, l));
    seq(|ks|, i requires 0 <= i < |ks| => m[ks[i]])
  }

  /** The view is sorted ascending by listOrder. */
  lemma TasksSorted(m: Table, l: nat)
    ensures forall i, j :: 0 <= i < j < |Tasks(m, l)| ==> Tasks(m, l)[i].listOrder <= Tasks(m, l)[j].listOrder
  {
    var ks := OrderedKeys(m, ListKeys(m, l));
    var r := Tasks(m, l);
    forall i, j | 0 <= i < j < |r| ensures r[i].listOrder <= r[j].listOrder {
      assert Precedes(m, ks[i], ks[j]);
    }
  }

  /** The view is a permutation of the list's tasks: it holds exactly the
      rows whose listId is `l`, and no row twice. */
  lemma TasksArePermutation(m: Table, l: nat)
    requires WellKeyed(m)
    ensures forall t :: t in Tasks(m, l) <==> t in m.Values && t.listId == l
    ensures forall i, j :: 0 <= i < j < |Tasks(m, l)| ==> Tasks(m, l)[i].id != Tasks(m, l)[j].id
  {
    var ks := OrderedKeys(m, ListKeys(m, l));
    var r := Tasks(m, l);
    forall t ensures t in r <==> t in m.Values && t.listId == l {
      if t in r {
        var i :| 0 <= i < |r| && r[i] == t;
        assert m[ks[i]] == t;
      }
      if t in m.Values && t.listId == l {
        var k :| k in m && m[k] == t;
        assert k in ListKeys(m, l);
        var i :| 0 <= i < |ks| && ks[i] == k;
        assert r[i] == t;
      }
    }
  }

  /** A strictly increasing run of integers climbs at least one per step. */
  lemma {:induction false} GapAtLeastDistance(s: seq<int>, i: nat, j: nat)
    requires forall a, b :: 0 <= a < b < |s| ==> s[a] < s[b]
    requires i <= j < |s|
    ensures s[j] - s[i] >= j - i
    decreases j - i
  {
    if i < j {
      GapAtLeastDistance(s, i, j - 1);
    }
  }

  /** n strictly increasing integers inside [0, n) are exactly 0, 1, ..., n-1. */
  lemma IncreasingInRangeIsIdentity(s: seq<int>)
    requires forall a, b :: 0 <= a < b < |s| ==> s[a] < s[b]
    requires forall a :: 0 <= a < |s| ==> 0 <= s[a] < |s|
    ensures forall a :: 0 <= a < |s| ==> s[a] == a
  {
    forall a | 0 <= a < |s| ensures s[a] == a {
      GapAtLeastDistance(s, 0, a);
      GapAtLeastDistance(s, a, |s| - 1);
    }
  }

  /** On a dense list the task at index i of the view has listOrder i. */
  lemma DenseViewIndexIsOrder(m: Table, l: nat)
    requires Dense(m, l)
    ensures forall i :: 0 <= i < |Tasks(m, l)| ==> Tasks(m, l)[i].listOrder == i
  {
    var ks := OrderedKeys(m, ListKeys(m, l));
    var r := Tasks(m, l);
    forall a, b | 0 <= a < b < |r| ensures r[a].listOrder < r[b].listOrder {
      assert ks[a] in ListKeys(m, l) && ks[b] in ListKeys(m, l);
      assert Precedes(m, ks[a], ks[b]);
    }
    forall a | 0 <= a < |r| ensures 0 <= r[a].listOrder < |r| {
      assert ks[a] in ListKeys(m, l);
    }
    var orders := seq(|r|, a requires 0 <= a < |r| => r[a].listOrder);
    IncreasingInRangeIsIdentity(orders);
    forall a | 0 <= a < |r| ensures r[a].listOrder == a {
      assert orders[a] == r[a].listOrder;
    }
  }

  /** On a dense list every rank 0..n-1 is held by some task. */
  lemma DenseOrderTaken(m: Table, l: nat, p: int)
    requires Dense(m, l)
    requires 0 <= p < Count(m, l)
    ensures exists k :: k in m && m[k].listId == l && m[k].listOrder == p
  {
    DenseViewIndexIsOrder(m, l);
    var ks := OrderedKeys(m, ListKeys(m, l));
    assert ks[p] in ListKeys(m, l);
    assert m[ks[p]].listOrder == Tasks(m, l)[p].listOrder == p;
  }

  /** The set of orders held by the tasks of list `l`. */
  function Orders(m: Table, l: nat): set<int> {
    set k | k in m && m[k].listId == l :: m[k].listOrder
  }

  /** Invariant I1 in its set form: on a dense list of n tasks the orders are
      exactly {0, ..., n-1}. */
  lemma DenseOrdersExactly(m: Table, l: nat)
    requires Dense(m, l)
    ensures forall p :: p in Orders(m, l) <==> 0 <= p < Count(m, l)
  {
    forall p | 0 <= p < Count(m, l) ensures p in Orders(m, l) {
      DenseOrderTaken(m, l, p);
      var k :| k in m && m[k].listId == l && m[k].listOrder == p;
      assert m[k].listOrder in Orders(m, l);
    }
  }

  /** The ranks held by a set of the table's keys. */
  function RanksOf(m: Table, keys: set<nat>): set<int>
    requires keys <= m.Keys
  {
    set k | k in keys :: m[k].listOrder
  }

  /** A set of keys holds at most as many ranks as it has keys. */
  lemma {:induction false} RanksAtMostKeys(m: Table, keys: set<nat>)
    requires keys <= m.Keys
    ensures |RanksOf(m, keys)| <= |keys|
    decreases keys
  {
    if keys != {} {
      var k :| k in keys;
      RanksAtMostKeys(m, keys - {k});
      assert RanksOf(m, keys) == RanksOf(m, keys - {k}) + {m[k].listOrder};
    }
  }

  /** The ranks 0..n-1, of which there are n. */
  function Ranks(n: nat): (r: set<int>)
    ensures forall p :: p in r <==> 0 <= p < n
    ensures |r| == n
  {
    if n == 0 then {} else Ranks(n - 1) + {n - 1}
  }

  /** The converse of DenseOrdersExactly: a list whose ranks are exactly
      {0, ..., n-1} is dense, since n tasks sharing a rank would hold fewer
      than n ranks. */
  lemma OrdersExactlyAreDense(m: Table, l: nat)
    requires forall p :: p in Orders(m, l) <==> 0 <= p < Count(m, l)
    ensures Dense(m, l)
  {
    var keys := ListKeys(m, l);
    assert Orders(m, l) == Ranks(Count(m, l));
    forall k | k in m && m[k].listId == l ensures 0 <= m[k].listOrder < Count(m, l) {
      assert m[k].listOrder in Orders(m, l);
    }
    forall i, j | i in m && j in m && m[i].listId == l && m[j].listId == l && m[i].listOrder == m[j].listOrder
      ensures i == j
    {
      if i != j {
        assert i in keys;
        assert Orders(m, l) == RanksOf(m, keys - {i}) by {
          assert forall k :: k in keys ==> m[k].listOrder in RanksOf(m, keys - {i});
        }
        RanksAtMostKeys(m, keys - {i});
        assert false;
      }
    }
  }

  /** The keys behind a dense list's view: the key at index i holds rank i. */
  lemma DenseViewKeys(m: Table, l: nat) returns (vk: seq<nat>)
    requires Dense(m, l)
    ensures |vk| == Count(m, l)
    ensures forall i :: 0 <= i < |vk| ==> vk[i] in m && m[vk[i]].listId == l && m[vk[i]].listOrder == i
    ensures Tasks(m, l) == seq(|vk|, i requires 0 <= i < |vk| => m[vk[i]])
  {
    DenseViewIndexIsOrder(m, l);
    vk := OrderedKeys(m, ListKeys(m, l));
    forall i | 0 <= i < |vk| ensures vk[i] in m && m[vk[i]].listId == l && m[vk[i]].listOrder == i {
      assert vk[i] in ListKeys(m, l);
      assert Tasks(m, l)[i] == m[vk[i]];
    }
  }

  /** A dense list's view is pinned down by its ranks: if `expected` holds, at
      each index i, a row of list `l` whose listOrder is i, the view is
      exactly `expected`. */
  lemma DenseViewIs(m: Table, l: nat, ks: seq<nat>, expected: seq<Task>)
    requires Dense(m, l)
    requires |ks| == |expected| == Count(m, l)
    requires forall i :: 0 <= i < |ks| ==>
               ks[i] in m && m[ks[i]] == expected[i] && expected[i].listId == l && expected[i].listOrder == i
    ensures Tasks(m, l) == expected
  {
    var vk := DenseViewKeys(m, l);
    forall i | 0 <= i < |ks| ensures vk[i] == ks[i] {
      assert m[vk[i]].listOrder == m[ks[i]].listOrder;
    }
  }

  /** The view of a list depends only on that list's rows. */
  lemma {:induction false} OrderedKeysAgree(m: Table, m': Table, keys: set<nat>)
    requires keys <= m.Keys && keys <= m'.Keys
    requires forall k :: k in keys ==> m[k] == m'[k]
    ensures OrderedKeys(m, keys) == OrderedKeys(m', keys)
    decreases keys
  {
    if keys != {} {
      var r, r' := OrderedKeys(m, keys), OrderedKeys(m', keys);
      var k, k' := r[0], r'[0];
      assert IsFirst(m, keys, k);
      assert IsFirst(m', keys, k');
      assert IsFirst(m, keys, k') by {
        forall j | j in keys ensures Precedes(m, k', j) {
          assert Precedes(m', k', j);
        }
      }
      assert Precedes(m, k, k') && Precedes(m, k', k);
      assert k == k';
      OrderedKeysAgree(m, m', keys - {k});
    }
  }

  lemma TasksDependOnListOnly(m: Table, m': Table, l: nat)
    requires ListKeys(m, l) == ListKeys(m', l)
    requires forall k :: k in ListKeys(m, l) ==> m[k] == m'[k]
    ensures Tasks(m, l) == Tasks(m', l)
  {
    OrderedKeysAgree(m, m', ListKeys(m, l));
  }
}
