/** Tail queues.  A queue head is a pair (first element, address of the last
    next field) and an entry is a pair (next element, address of the previous
    next field).  The macros rely on both having the same layout: the address
    of a next field is the address of the pair it begins, and TAILQ_LAST and
    TAILQ_PREV read the second field of whatever pair they find there.  Both
    are therefore a Cell here, and the address of its `next` is the cell. */
module TailQueue {
  class Cell {
    var next: Cell?
    var back: Cell

    /** TAILQ_INIT */
    constructor ()
      ensures Queue(this, [])
    {
      next := null;
      back := this;
    }
  }

  ghost predicate Distinct(r: seq<Cell>) {
    forall i, j :: 0 <= i < j < |r| ==> r[i] != r[j]
  }

  /** What follows the i-th cell of a ring: the last has no next element. */
  ghost function Succ(r: seq<Cell>, i: int): Cell?
    requires 0 <= i < |r|
  {
    if i + 1 < |r| then r[i + 1] else null
  }

  /** What the back address of the i-th cell points into: the head's is the last. */
  ghost function Pred(r: seq<Cell>, i: int): Cell
    requires 0 <= i < |r|
  {
    if i > 0 then r[i - 1] else r[|r| - 1]
  }

  ghost predicate NextOk(r: seq<Cell>, i: int)
    requires 0 <= i < |r|
    reads r
  {
    r[i].next == Succ(r, i)
  }

  ghost predicate BackOk(r: seq<Cell>, i: int)
    requires 0 <= i < |r|
    reads r
  {
    r[i].back == Pred(r, i)
  }

  /** The links of a ring, except perhaps the next field of one cell and the
      back field of another. */
  ghost predicate LinkedBut(r: seq<Cell>, n: int, b: int)
    reads r
  {
    forall i :: 0 <= i < |r| ==> (i == n || NextOk(r, i)) && (i == b || BackOk(r, i))
  }

  /** A head followed by the elements of its queue. */
  ghost predicate Ring(r: seq<Cell>)
    reads r
  {
    r != [] && Distinct(r) && LinkedBut(r, -1, -1)
  }

  /** The memory reachable from head represents this sequence of elements. */
  ghost predicate Queue(head: Cell, elems: seq<Cell>)
    reads head, elems
  {
    Ring([head] + elems)
  }

  function InsertAt<T>(s: seq<T>, k: nat, x: T): seq<T>
    requires k <= |s|
  {
    s[..k] + [x] + s[k..]
  }

  function RemoveAt<T>(s: seq<T>, k: nat): seq<T>
    requires k < |s|
  {
    s[..k] + s[k + 1..]
  }

  /** The index after i, where the head follows the last cell. */
  function Around(i: int, n: nat): int {
    if i + 1 < n then i + 1 else 0
  }

  /** Writing the links around position k makes the ring with e inserted there. */
  lemma {:induction false} Inserted(r: seq<Cell>, k: nat, e: Cell)
    requires Distinct(r) && 0 < k <= |r| && e !in r && LinkedBut(r, k - 1, Around(k - 1, |r|))
    requires r[k - 1].next == e && e.back == r[k - 1] && e.next == Succ(r, k - 1) && r[Around(k - 1, |r|)].back == e
    ensures Ring(InsertAt(r, k, e))
  {
    var s := InsertAt(r, k, e);
    forall i | 0 <= i < |s| ensures NextOk(s, i) && BackOk(s, i) {
      assert i < k ==> (i == k - 1 || NextOk(r, i)) && (i == Around(k - 1, |r|) || BackOk(r, i));
      assert i > k ==> NextOk(r, i - 1) && (i - 1 == Around(k - 1, |r|) || BackOk(r, i - 1));
    }
  }

  /** Writing the links around position k makes the ring without its cell. */
  lemma {:induction false} Removed(r: seq<Cell>, k: nat)
    requires Distinct(r) && 0 < k < |r| && LinkedBut(r, k - 1, Around(k, |r|))
    requires r[k - 1].next == Succ(r, k) && r[Around(k, |r|)].back == r[k - 1]
    ensures Ring(RemoveAt(r, k))
  {
    var s := RemoveAt(r, k);
    forall i | 0 <= i < |s| ensures NextOk(s, i) && BackOk(s, i) {
      assert i < k ==> (i == k - 1 || NextOk(r, i)) && (i == Around(k, |r|) || BackOk(r, i));
      assert i >= k ==> NextOk(r, i + 1) && (i + 1 == Around(k, |r|) || BackOk(r, i + 1));
    }
  }

  method InsertHead(head: Cell, elm: Cell, ghost elems: seq<Cell>)
    requires Queue(head, elems) && elm != head && elm !in elems
    modifies head, elm, elems
    ensures Queue(head, [elm] + elems)
  {
    ghost var r := [head] + elems;
    assert NextOk(r, 0);
    elm.next := head.next;
    if elm.next != null {
      elm.next.back := elm;
    } else {
      head.back := elm;
    }
    head.next := elm;
    elm.back := head;
    forall i | 0 <= i < |r| ensures (i == 0 || NextOk(r, i)) && (i == Around(0, |r|) || BackOk(r, i)) {
      assert old(NextOk(r, i)) && old(BackOk(r, i));
    }
    Inserted(r, 1, elm);
    assert InsertAt(r, 1, elm) == [head] + ([elm] + elems);
  }

  method InsertTail(head: Cell, elm: Cell, ghost elems: seq<Cell>)
    requires Queue(head, elems) && elm != head && elm !in elems
    modifies head, elm, elems
    ensures Queue(head, elems + [elm])
  {
    ghost var r := [head] + elems;
    assert BackOk(r, 0) && r[|r| - 1] in r;
    elm.next := null;
    elm.back := head.back;
    head.back.next := elm;
    head.back := elm;
    forall i | 0 <= i < |r| ensures (i == |r| - 1 || NextOk(r, i)) && (i == 0 || BackOk(r, i)) {
      assert old(NextOk(r, i)) && old(BackOk(r, i));
    }
    Inserted(r, |r|, elm);
    assert InsertAt(r, |r|, elm) == [head] + (elems + [elm]);
  }

  method InsertAfter(head: Cell, listelm: Cell, elm: Cell, ghost elems: seq<Cell>, ghost k: nat)
    requires Queue(head, elems) && k < |elems| && elems[k] == listelm && elm != head && elm !in elems
    modifies head, elm, elems
    ensures Queue(head, InsertAt(elems, k + 1, elm))
  {
    ghost var r := [head] + elems;
    assert r[k + 1] == listelm && NextOk(r, k + 1);
    elm.next := listelm.next;
    if elm.next != null {
      elm.next.back := elm;
    } else {
      head.back := elm;
    }
    listelm.next := elm;
    elm.back := listelm;
    forall i | 0 <= i < |r| ensures (i == k + 1 || NextOk(r, i)) && (i == Around(k + 1, |r|) || BackOk(r, i)) {
      assert old(NextOk(r, i)) && old(BackOk(r, i)) && (r[i] == r[Around(k + 1, |r|)] ==> i == Around(k + 1, |r|));
    }
    Inserted(r, k + 2, elm);
    assert InsertAt(r, k + 2, elm) == [head] + InsertAt(elems, k + 1, elm);
  }

  /** The head is not passed: it may be the cell that is written through. */
  method InsertBefore(listelm: Cell, elm: Cell, ghost head: Cell, ghost elems: seq<Cell>, ghost k: nat)
    requires Queue(head, elems) && k < |elems| && elems[k] == listelm && elm != head && elm !in elems
    modifies head, elm, elems
    ensures Queue(head, InsertAt(elems, k, elm))
  {
    ghost var r := [head] + elems;
    assert r[k + 1] == listelm && BackOk(r, k + 1) && r[k] in r;
    elm.back := listelm.back;
    elm.next := listelm;
    listelm.back.next := elm;
    listelm.back := elm;
    forall i | 0 <= i < |r| ensures (i == k || NextOk(r, i)) && (i == k + 1 || BackOk(r, i)) {
      assert old(NextOk(r, i)) && old(BackOk(r, i));
    }
    Inserted(r, k + 1, elm);
    assert InsertAt(r, k + 1, elm) == [head] + InsertAt(elems, k, elm);
  }

  method Remove(head: Cell, elm: Cell, ghost elems: seq<Cell>, ghost k: nat)
    requires Queue(head, elems) && k < |elems| && elems[k] == elm
    modifies head, elems
    ensures Queue(head, RemoveAt(elems, k))
  {
    ghost var r := [head] + elems;
    assert r[k + 1] == elm && NextOk(r, k + 1) && BackOk(r, k + 1) && r[k] in r;
    if elm.next != null {
      elm.next.back := elm.back;
    } else {
      head.back := elm.back;
    }
    elm.back.next := elm.next;
    forall i | 0 <= i < |r| ensures (i == k || NextOk(r, i)) && (i == Around(k + 1, |r|) || BackOk(r, i)) {
      assert old(NextOk(r, i)) && old(BackOk(r, i)) && (r[i] == r[Around(k + 1, |r|)] ==> i == Around(k + 1, |r|));
    }
    Removed(r, k + 1);
    assert RemoveAt(r, k + 1) == [head] + RemoveAt(elems, k);
  }

  /** Two rings that share no cell. */
  ghost predicate Apart(r1: seq<Cell>, r2: seq<Cell>) {
    forall c <- r1 :: c !in r2
  }

  /** Linking the elements of r2 behind r1 makes one ring. */
  lemma {:induction false} Joined(r1: seq<Cell>, r2: seq<Cell>)
    requires Distinct(r1) && Distinct(r2) && Apart(r1, r2) && r1 != [] && |r2| > 1
    requires LinkedBut(r1, |r1| - 1, 0)
    requires forall i :: 0 < i < |r2| ==> NextOk(r2, i) && (i == 1 || BackOk(r2, i))
    requires r1[|r1| - 1].next == r2[1] && r2[1].back == r1[|r1| - 1] && r1[0].back == r2[|r2| - 1]
    ensures Ring(r1 + r2[1..])
  {
    var s := r1 + r2[1..];
    forall i, j | 0 <= i < j < |s| ensures s[i] != s[j] {
      assert i < |r1| <= j ==> s[i] in r1 && s[j] in r2;
    }
    forall i | 0 <= i < |s| ensures NextOk(s, i) && BackOk(s, i) {
      assert i < |r1| ==> (i == |r1| - 1 || NextOk(r1, i)) && (i == 0 || BackOk(r1, i));
      assert i >= |r1| ==> NextOk(r2, i - |r1| + 1) && (i == |r1| || BackOk(r2, i - |r1| + 1));
    }
  }

  method Concat(head1: Cell, head2: Cell, ghost elems1: seq<Cell>, ghost elems2: seq<Cell>)
    requires Queue(head1, elems1) && Queue(head2, elems2) && Apart([head1] + elems1, [head2] + elems2)
    modifies head1, elems1, head2, elems2
    ensures Queue(head1, elems1 + elems2) && Queue(head2, [])
  {
    ghost var r1, r2 := [head1] + elems1, [head2] + elems2;
    assert NextOk(r2, 0) && BackOk(r2, 0) && BackOk(r1, 0) && r1[0] in r1 && r1[|r1| - 1] in r1;
    if head2.next == null {
      assert elems2 == [] && elems1 + elems2 == elems1;
      return;
    }
    head1.back.next := head2.next;
    head2.next.back := head1.back;
    head1.back := head2.back;
    head2.next := null;
    head2.back := head2;
    forall i | 0 <= i < |r1| ensures (i == |r1| - 1 || NextOk(r1, i)) && (i == 0 || BackOk(r1, i)) {
      assert old(NextOk(r1, i)) && old(BackOk(r1, i)) && r1[i] in r1;
    }
    forall i | 0 < i < |r2| ensures NextOk(r2, i) && (i == 1 || BackOk(r2, i)) {
      assert old(NextOk(r2, i)) && old(BackOk(r2, i)) && r2[i] in r2;
    }
    Joined(r1, r2);
    assert [head1] + (elems1 + elems2) == r1 + r2[1..];
  }

  /** The elements of a ring under another head. */
  lemma {:induction false} Reheaded(r: seq<Cell>, head: Cell)
    requires Distinct(r) && r != [] && head !in r
    requires head.next == Succ(r, 0) && head.back == if |r| > 1 then r[|r| - 1] else head
    requires |r| > 1 ==> r[1].back == head
    requires forall i :: 0 < i < |r| ==> NextOk(r, i) && (i == 1 || BackOk(r, i))
    ensures Queue(head, r[1..])
  {
    var s := [head] + r[1..];
    forall i | 0 <= i < |s| ensures NextOk(s, i) && BackOk(s, i) {
      assert i > 0 ==> NextOk(r, i) && (i == 1 || BackOk(r, i));
    }
  }

  method Swap(head1: Cell, head2: Cell, ghost elems1: seq<Cell>, ghost elems2: seq<Cell>)
    requires Queue(head1, elems1) && Queue(head2, elems2) && Apart([head1] + elems1, [head2] + elems2)
    modifies head1, elems1, head2, elems2
    ensures Queue(head1, elems2) && Queue(head2, elems1)
  {
    ghost var r1, r2 := [head1] + elems1, [head2] + elems2;
    assert NextOk(r1, 0) && BackOk(r1, 0) && NextOk(r2, 0) && BackOk(r2, 0) && r1[0] in r1 && r2[0] in r2;
    assert head2 !in r1 && head1 !in r2;
    assert |r1| > 1 && |r2| > 1 ==> r1[1] in r1 && r2[1] in r2;
    var first, last := head1.next, head1.back;
    head1.next := head2.next;
    head1.back := head2.back;
    head2.next := first;
    head2.back := last;
    if head1.next != null {
      head1.next.back := head1;
    } else {
      head1.back := head1;
    }
    if head2.next != null {
      head2.next.back := head2;
    } else {
      head2.back := head2;
    }
    forall i | 0 < i < |r1| ensures NextOk(r1, i) && (i == 1 || BackOk(r1, i)) {
      assert old(NextOk(r1, i)) && old(BackOk(r1, i)) && r1[i] in r1;
    }
    forall i | 0 < i < |r2| ensures NextOk(r2, i) && (i == 1 || BackOk(r2, i)) {
      assert old(NextOk(r2, i)) && old(BackOk(r2, i)) && r2[i] in r2;
    }
    Reheaded(r1, head2);
    Reheaded(r2, head1);
    assert r1[1..] == elems1 && r2[1..] == elems2;
  }

  function ElemAt(elems: seq<Cell>, i: int): Cell? {
    if 0 <= i < |elems| then elems[i] else null
  }

  method First(head: Cell, ghost elems: seq<Cell>) returns (c: Cell?)
    requires Queue(head, elems)
    ensures c == ElemAt(elems, 0)
  {
    assert NextOk([head] + elems, 0);
    c := head.next;
  }

  method Next(elm: Cell, ghost head: Cell, ghost elems: seq<Cell>, ghost k: nat) returns (c: Cell?)
    requires Queue(head, elems) && k < |elems| && elems[k] == elm
    ensures c == ElemAt(elems, k + 1)
  {
    assert NextOk([head] + elems, k + 1);
    c := elm.next;
  }

  /** The cell before the last one, or the head, is read as if it were a head. */
  method Last(head: Cell, ghost elems: seq<Cell>) returns (c: Cell?)
    requires Queue(head, elems)
    ensures c == ElemAt(elems, |elems| - 1)
  {
    ghost var r := [head] + elems;
    assert BackOk(r, 0) && BackOk(r, |r| - 1) && NextOk(r, if |r| > 1 then |r| - 2 else 0);
    c := head.back.back.next;
  }

  /** For the first element the pun reads the head's own last field, and the
      last element's next field is NULL. */
  method Prev(elm: Cell, ghost head: Cell, ghost elems: seq<Cell>, ghost k: nat) returns (c: Cell?)
    requires Queue(head, elems) && k < |elems| && elems[k] == elm
    ensures c == ElemAt(elems, k - 1)
  {
    ghost var r := [head] + elems;
    assert BackOk(r, k + 1) && BackOk(r, k) && NextOk(r, if k > 0 then k - 1 else |r| - 1);
    c := elm.back.back.next;
  }

  /** TAILQ_FOREACH */
  method Forward(head: Cell, ghost elems: seq<Cell>) returns (visited: seq<Cell>)
    requires Queue(head, elems)
    ensures visited == elems
  {
    visited := [];
    var c := First(head, elems);
    while c != null
      invariant |visited| <= |elems| && visited == elems[..|visited|] && c == ElemAt(elems, |visited|)
      decreases |elems| - |visited|
    {
      visited := visited + [c];
      c := Next(c, head, elems, |visited| - 1);
    }
  }

  /** TAILQ_FOREACH_REVERSE */
  method Backward(head: Cell, ghost elems: seq<Cell>) returns (visited: seq<Cell>)
    requires Queue(head, elems)
    ensures |visited| == |elems| && forall i :: 0 <= i < |elems| ==> visited[i] == elems[|elems| - 1 - i]
  {
    visited := [];
    var c := Last(head, elems);
    while c != null
      invariant |visited| <= |elems| && c == ElemAt(elems, |elems| - 1 - |visited|)
      invariant forall i :: 0 <= i < |visited| ==> visited[i] == elems[|elems| - 1 - i]
      decreases |elems| - |visited|
    {
      visited := visited + [c];
      c := Prev(c, head, elems, |elems| - |visited|);
    }
  }

  // ---- runs of operations on two queues ----

  datatype Op =
    | AtHead(second: bool, elm: Cell)
    | AtTail(second: bool, elm: Cell)
    | AtAfter(second: bool, listelm: Cell, elm: Cell)
    | AtBefore(second: bool, listelm: Cell, elm: Cell)
    | Take(second: bool, elm: Cell)
    | Join(second: bool)
    | Exchange

  /** Contents of the two queues, as mathematical sequences. */
  datatype Pair = Pair(one: seq<Cell>, two: seq<Cell>)

  ghost function IndexIn(s: seq<Cell>, c: Cell): nat
    requires c in s
    ensures IndexIn(s, c) < |s| && s[IndexIn(s, c)] == c
  {
    var i :| 0 <= i < |s| && s[i] == c;
    i
  }

  /** One operation on a sequence. */
  ghost function OnSeq(s: seq<Cell>, op: Op): seq<Cell>
    requires op.AtAfter? || op.AtBefore? ==> op.listelm in s
    requires op.Take? ==> op.elm in s
  {
    match op
    case AtHead(_, e) => [e] + s
    case AtTail(_, e) => s + [e]
    case AtAfter(_, l, e) => InsertAt(s, IndexIn(s, l) + 1, e)
    case AtBefore(_, l, e) => InsertAt(s, IndexIn(s, l), e)
    case Take(_, e) => RemoveAt(s, IndexIn(s, e))
    case _ => s
  }

  /** What the macros demand: an element inserted is in no queue, an element
      named is in the queue. */
  ghost predicate Legal(heads: set<Cell>, p: Pair, op: Op) {
    match op
    case Join(_) => true
    case Exchange => true
    case Take(second, e) => e in (if second then p.two else p.one)
    case AtHead(_, e) => e !in p.one && e !in p.two && e !in heads
    case AtTail(_, e) => e !in p.one && e !in p.two && e !in heads
    case AtAfter(second, l, e) => e !in p.one && e !in p.two && e !in heads && l in (if second then p.two else p.one)
    case AtBefore(second, l, e) => e !in p.one && e !in p.two && e !in heads && l in (if second then p.two else p.one)
  }

  ghost function OnPair(heads: set<Cell>, p: Pair, op: Op): Pair
    requires Legal(heads, p, op)
  {
    match op
    case Exchange => Pair(p.two, p.one)
    case Join(second) => if second then Pair([], p.two + p.one) else Pair(p.one + p.two, [])
    case _ => if op.second then p.(two := OnSeq(p.two, op)) else p.(one := OnSeq(p.one, op))
  }

  ghost predicate AllLegal(heads: set<Cell>, p: Pair, ops: seq<Op>)
    decreases ops
  {
    ops != [] ==> Legal(heads, p, ops[0]) && AllLegal(heads, OnPair(heads, p, ops[0]), ops[1..])
  }

  ghost function OnPairs(heads: set<Cell>, p: Pair, ops: seq<Op>): Pair
    requires AllLegal(heads, p, ops)
    decreases ops
  {
    if ops == [] then p else OnPairs(heads, OnPair(heads, p, ops[0]), ops[1..])
  }

  /** Two queues in one memory. */
  ghost predicate Two(head1: Cell, head2: Cell, p: Pair)
    reads head1, head2, p.one, p.two
  {
    Queue(head1, p.one) && Queue(head2, p.two) && Apart([head1] + p.one, [head2] + p.two)
  }

  method Perform(head: Cell, op: Op, ghost elems: seq<Cell>)
    requires Queue(head, elems) && !op.Join? && !op.Exchange?
    requires op.Take? ==> op.elm in elems
    requires !op.Take? ==> op.elm != head && op.elm !in elems
    requires op.AtAfter? || op.AtBefore? ==> op.listelm in elems
    modifies head, elems, if op.Take? then {} else {op.elm}
    ensures Queue(head, OnSeq(elems, op))
    ensures forall c <- OnSeq(elems, op) :: c in elems || c == op.elm
  {
    match op {
      case AtHead(_, e) => InsertHead(head, e, elems);
      case AtTail(_, e) => InsertTail(head, e, elems);
      case AtAfter(_, l, e) => InsertAfter(head, l, e, elems, IndexIn(elems, l));
      case AtBefore(_, l, e) => InsertBefore(l, e, head, elems, IndexIn(elems, l));
      case Take(_, e) => Remove(head, e, elems, IndexIn(elems, e));
    }
  }

  /** An operation on one queue leaves the other alone. */
  method PerformBeside(head: Cell, op: Op, ghost elems: seq<Cell>, ghost r: seq<Cell>)
    requires Queue(head, elems) && !op.Join? && !op.Exchange?
    requires op.Take? ==> op.elm in elems
    requires !op.Take? ==> op.elm != head && op.elm !in elems && op.elm !in r
    requires op.AtAfter? || op.AtBefore? ==> op.listelm in elems
    requires Ring(r) && Apart([head] + elems, r)
    modifies head, elems, if op.Take? then {} else {op.elm}
    ensures Queue(head, OnSeq(elems, op)) && Ring(r) && Apart([head] + OnSeq(elems, op), r)
    ensures forall c <- OnSeq(elems, op) :: c in elems || c == op.elm
  {
    hide OnSeq;
    assert head in [head] + elems && head !in r;
    forall c | c in elems ensures c !in r {
      assert c in [head] + elems;
    }
    Perform(head, op, elems);
    forall i | 0 <= i < |r| ensures NextOk(r, i) && BackOk(r, i) {
      assert old(NextOk(r, i)) && old(BackOk(r, i)) && r[i] in r;
    }
  }

  lemma {:induction false} ApartBack(r1: seq<Cell>, r2: seq<Cell>)
    requires Apart(r1, r2)
    ensures Apart(r2, r1)
  {
  }

  lemma {:induction false} ApartRegrouped(head1: Cell, a: seq<Cell>, head2: Cell, b: seq<Cell>)
    requires Distinct([head1] + a) && Distinct([head2] + b) && Apart([head1] + a, [head2] + b)
    ensures Apart([head1] + b, [head2] + a)
    ensures Apart([head1] + (a + b), [head2])
  {
    var r1, r2 := [head1] + a, [head2] + b;
    assert r1[0] == head1 && r2[0] == head2;
    forall c <- a ensures c != head1 && c != head2 && c !in b {
      assert c in b ==> c in r2;
      assert c in r1 && c !in r2;
      var i :| 0 <= i < |a| && a[i] == c;
      assert r1[i + 1] == c;
      assert head2 in r2;
    }
    forall c <- b ensures c != head1 && c != head2 {
      assert c in r2;
      var i :| 0 <= i < |b| && b[i] == c;
      assert r2[i + 1] == c;
      assert head1 in r1;
    }
    assert head1 in r1 && head2 in r2;
  }

  /** Every sequence of operations on two queues computes what the same
      operations compute on two sequences. */
  method Run(head1: Cell, head2: Cell, ops: seq<Op>, ghost start: Pair, ghost cells: set<Cell>) returns (ghost p: Pair)
    requires Two(head1, head2, start) && AllLegal({head1, head2}, start, ops)
    requires head1 in cells && head2 in cells && (forall c <- start.one + start.two :: c in cells)
    requires forall op <- ops :: !op.Join? && !op.Exchange? ==> op.elm in cells
    modifies cells
    ensures p == OnPairs({head1, head2}, start, ops) && Two(head1, head2, p)
  {
    p := start;
    ghost var heads := {head1, head2};
    for i := 0 to |ops|
      invariant AllLegal(heads, p, ops[i..]) && OnPairs(heads, p, ops[i..]) == OnPairs(heads, start, ops)
      invariant Two(head1, head2, p) && forall c <- p.one + p.two :: c in cells
    {
      var op := ops[i];
      assert ops[i..][0] == op && ops[i..][1..] == ops[i + 1..] && op in ops;
      Once(head1, head2, op, p, cells);
      p := OnPair(heads, p, op);
    }
    assert ops[|ops|..] == [];
  }

  method Once(head1: Cell, head2: Cell, op: Op, ghost p: Pair, ghost cells: set<Cell>)
    requires Two(head1, head2, p) && Legal({head1, head2}, p, op)
    requires head1 in cells && head2 in cells && (forall c <- p.one + p.two :: c in cells)
    requires !op.Join? && !op.Exchange? ==> op.elm in cells
    modifies cells
    ensures Two(head1, head2, OnPair({head1, head2}, p, op))
    ensures forall c <- OnPair({head1, head2}, p, op).one + OnPair({head1, head2}, p, op).two :: c in cells
  {
    hide OnSeq, Ring, Apart;
    match op {
      case Exchange =>
        RegroupedBoth(head1, head2, p);
        Swap(head1, head2, p.one, p.two);
      case Join(second) =>
        RegroupedBoth(head1, head2, p);
        if second {
          Concat(head2, head1, p.two, p.one);
        } else {
          Concat(head1, head2, p.one, p.two);
        }
      case _ =>
        ApartBack([head1] + p.one, [head2] + p.two);
        if op.second {
          PerformBeside(head2, op, p.two, [head1] + p.one);
          ApartBack([head2] + OnSeq(p.two, op), [head1] + p.one);
        } else {
          PerformBeside(head1, op, p.one, [head2] + p.two);
        }
    }
  }

  lemma {:induction false} RegroupedBoth(head1: Cell, head2: Cell, p: Pair)
    requires Two(head1, head2, p)
    ensures Apart([head2] + p.two, [head1] + p.one) && Apart([head1] + p.two, [head2] + p.one)
    ensures Apart([head1] + (p.one + p.two), [head2] + []) && Apart([head1] + [], [head2] + (p.two + p.one))
  {
    ApartBack([head1] + p.one, [head2] + p.two);
    ApartRegrouped(head1, p.one, head2, p.two);
    ApartRegrouped(head2, p.two, head1, p.one);
    ApartBack([head2] + (p.two + p.one), [head1]);
    assert [head1] + [] == [head1] && [head2] + [] == [head2];
  }
}
