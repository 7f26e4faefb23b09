/** Reference definitions of the three edits a user makes to a to-do list,
    stated on the list as a sequence rather than on stored ranks: put a new
    task at the head, take one task out, move one task to another place. After
    each edit the list is renumbered 0, 1, ..., n-1. OrderingProofs shows that
    the rank shifts the service performs produce exactly these lists. */
module ListEdits {
  import opened TaskModel

  /** Each task rewritten with its index as its rank. */
  function Renumbered(s: seq<Task>): seq<Task> {
    seq(|s|, i requires 0 <= i < |s| => s[i].(listOrder := i))
  }

  /** `s` without its element at index `o`. */
  function RemoveAt<T>(s: seq<T>, o: nat): seq<T>
    requires o < |s|
  {
    s[..o] + s[o + 1..]
  }

  /** `s` with its element at index `o` taken out and put back at index `d`. */
  function MoveItem<T>(s: seq<T>, o: nat, d: nat): seq<T>
    requires o < |s| && d < |s|
  {
    var rest := RemoveAt(s, o);
    rest[..d] + [s[o]] + rest[d..]
  }

  /** The index, before the move, of the element that ends up at index `i`. */
  function MoveSource(o: nat, d: nat, i: nat): nat {
    if i == d then o
    else if o < d && o <= i < d then i + 1
    else if d < o && d < i <= o then i - 1
    else i
  }

  lemma RemoveAtIndex<T>(s: seq<T>, o: nat, i: nat)
    requires o < |s| && i < |s| - 1
    ensures |RemoveAt(s, o)| == |s| - 1
    ensures RemoveAt(s, o)[i] == s[if i < o then i else i + 1]
  {
  }

  lemma MoveItemIndex<T>(s: seq<T>, o: nat, d: nat, i: nat)
    requires o < |s| && d < |s| && i < |s|
    ensures |MoveItem(s, o, d)| == |s|
    ensures MoveSource(o, d, i) < |s|
    ensures MoveItem(s, o, d)[i] == s[MoveSource(o, d, i)]
  {
    var rest := RemoveAt(s, o);
    if i < d {
      RemoveAtIndex(s, o, i);
    } else if i > d {
      RemoveAtIndex(s, o, i - 1);
    }
  }
}
