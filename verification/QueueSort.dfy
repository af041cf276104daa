/** q_sort: an insertion sort that relinks a doubly linked list in place. */
module QueueSort {

  // ---- the order ----

  type Compare<!T> = (T, T) -> int

  /** Where `x` goes: in front of the first element that is greater. */
  function Place<T>(cmp: Compare<T>, r: seq<T>, x: T): (p: nat)
    ensures p <= |r|
    ensures forall i :: 0 <= i < p ==> cmp(r[i], x) <= 0
    ensures p < |r| ==> cmp(r[p], x) > 0
  {
    if r == [] || cmp(r[0], x) > 0 then 0 else 1 + Place(cmp, r[1..], x)
  }

  function Insert<T>(cmp: Compare<T>, r: seq<T>, x: T): seq<T> {
    var p := Place(cmp, r, x);
    r[..p] + [x] + r[p..]
  }

  function Sort<T>(cmp: Compare<T>, s: seq<T>): seq<T> {
    if s == [] then [] else Insert(cmp, Sort(cmp, s[..|s| - 1]), s[|s| - 1])
  }

  lemma InsertPermutes<T>(cmp: Compare<T>, r: seq<T>, x: T)
    ensures multiset(Insert(cmp, r, x)) == multiset(r) + multiset{x} && |Insert(cmp, r, x)| == |r| + 1
  {
    var p := Place(cmp, r, x);
    assert r == r[..p] + r[p..];
  }

  lemma {:induction false} Permutes<T>(cmp: Compare<T>, s: seq<T>)
    ensures multiset(Sort(cmp, s)) == multiset(s) && |Sort(cmp, s)| == |s|
  {
    if s != [] {
      var n := |s| - 1;
      Permutes(cmp, s[..n]);
      InsertPermutes(cmp, Sort(cmp, s[..n]), s[n]);
      assert s == s[..n] + [s[n]];
    }
  }

  /** Asked for the order of three elements; a pattern for the solver. */
  predicate Compared<T>(a: T, b: T, c: T) { true }

  ghost predicate TotalPreorder<T(!new)>(cmp: Compare<T>) {
    && (forall a, b {:trigger Compared(a, b, b)} :: cmp(a, b) <= 0 || cmp(b, a) <= 0)
    && (forall a, b, c {:trigger Compared(a, b, c)} :: cmp(a, b) <= 0 && cmp(b, c) <= 0 ==> cmp(a, c) <= 0)
  }

  predicate Sorted<T>(cmp: Compare<T>, r: seq<T>) {
    forall i, j :: 0 <= i < j < |r| ==> cmp(r[i], r[j]) <= 0
  }

  lemma InsertSorted<T(!new)>(cmp: Compare<T>, r: seq<T>, x: T)
    requires TotalPreorder(cmp) && Sorted(cmp, r)
    ensures Sorted(cmp, Insert(cmp, r, x))
  {
    var p := Place(cmp, r, x);
    var t := Insert(cmp, r, x);
    forall i, j | 0 <= i < j < |t| ensures cmp(t[i], t[j]) <= 0 {
      if i == p {
        assert Compared(x, r[p], r[p]) && Compared(x, r[p], r[j - 1]);
      }
    }
  }

  lemma {:induction false} SortSorts<T(!new)>(cmp: Compare<T>, s: seq<T>)
    requires TotalPreorder(cmp)
    ensures Sorted(cmp, Sort(cmp, s))
  {
    if s != [] {
      SortSorts(cmp, s[..|s| - 1]);
      InsertSorted(cmp, Sort(cmp, s[..|s| - 1]), s[|s| - 1]);
    }
  }

  lemma GoesLast<T>(cmp: Compare<T>, r: seq<T>, x: T)
    requires forall p :: 0 <= p < |r| ==> cmp(r[p], x) <= 0
    ensures Insert(cmp, r, x) == r + [x]
  {
    assert Place(cmp, r, x) == |r|;
    assert r[..|r|] + [x] + r[|r|..] == r + [x];
  }

  /** Where no element is greater than another, nothing moves. */
  lemma {:induction false} NothingMoves<T>(cmp: Compare<T>, s: seq<T>)
    requires forall i, j :: 0 <= i < |s| && 0 <= j < |s| && i != j ==> cmp(s[i], s[j]) <= 0
    ensures Sort(cmp, s) == s
  {
    if s != [] {
      var n := |s| - 1;
      var r := s[..n];
      assert forall i :: 0 <= i < n ==> r[i] == s[i];
      NothingMoves(cmp, r);
      GoesLast(cmp, r, s[n]);
      assert r + [s[n]] == s;
    }
  }

  /** The elements that are as great as `k`, in their order. */
  function Like<T>(cmp: Compare<T>, s: seq<T>, k: T): seq<T> {
    if s == [] then []
    else (if cmp(s[0], k) <= 0 && cmp(k, s[0]) <= 0 then [s[0]] else []) + Like(cmp, s[1..], k)
  }

  lemma {:induction false} LikeSplit<T>(cmp: Compare<T>, xs: seq<T>, ys: seq<T>, k: T)
    ensures Like(cmp, xs + ys, k) == Like(cmp, xs, k) + Like(cmp, ys, k)
  {
    if xs == [] {
      assert xs + ys == ys;
    } else {
      LikeSplit(cmp, xs[1..], ys, k);
      assert (xs + ys)[1..] == xs[1..] + ys;
    }
  }

  lemma {:induction false} NoneLike<T>(cmp: Compare<T>, ys: seq<T>, k: T)
    requires forall j :: 0 <= j < |ys| ==> !(cmp(ys[j], k) <= 0 && cmp(k, ys[j]) <= 0)
    ensures Like(cmp, ys, k) == []
  {
    if ys != [] {
      assert forall j :: 0 <= j < |ys| - 1 ==> ys[1..][j] == ys[j + 1];
      NoneLike(cmp, ys[1..], k);
    }
  }

  lemma StillGreater<T(!new)>(cmp: Compare<T>, a: T, b: T, x: T)
    requires TotalPreorder(cmp) && cmp(a, x) > 0 && cmp(a, b) <= 0
    ensures cmp(b, x) > 0
  {
    assert Compared(a, b, x);
  }

  /** What is behind the place of `x` is greater. */
  lemma Behind<T(!new)>(cmp: Compare<T>, r: seq<T>, x: T, j: nat)
    requires TotalPreorder(cmp) && Sorted(cmp, r) && Place(cmp, r, x) <= j < |r|
    ensures cmp(r[j], x) > 0
  {
    var p := Place(cmp, r, x);
    if j > p {
      StillGreater(cmp, r[p], r[j], x);
    }
  }

  /** If nothing as great as `k` is behind the place of `x`, it makes no difference where `x` is. */
  lemma LikeInsert<T>(cmp: Compare<T>, a: seq<T>, b: seq<T>, x: T, k: T)
    requires Like(cmp, [x], k) == [] || Like(cmp, b, k) == []
    ensures Like(cmp, a + [x] + b, k) == Like(cmp, a + b + [x], k)
  {
    LikeSplit(cmp, a + [x], b, k);
    LikeSplit(cmp, a, [x], k);
    LikeSplit(cmp, a + b, [x], k);
    LikeSplit(cmp, a, b, k);
  }

  lemma NotLike<T(!new)>(cmp: Compare<T>, y: T, x: T, k: T)
    requires TotalPreorder(cmp) && cmp(y, x) > 0 && cmp(k, x) <= 0
    ensures cmp(y, k) > 0
  {
    assert Compared(y, k, x);
  }

  /** Behind the place of `x` nothing is as great as what is as great as `x`. */
  lemma NoneBehind<T(!new)>(cmp: Compare<T>, r: seq<T>, x: T, k: T)
    requires TotalPreorder(cmp) && Sorted(cmp, r) && cmp(x, k) <= 0 && cmp(k, x) <= 0
    ensures Like(cmp, r[Place(cmp, r, x)..], k) == []
  {
    var p := Place(cmp, r, x);
    var ys := r[p..];
    forall j | 0 <= j < |ys| ensures cmp(ys[j], k) > 0 {
      Behind(cmp, r, x, p + j);
      NotLike(cmp, r[p + j], x, k);
    }
    NoneLike(cmp, ys, k);
  }

  /** Equal elements keep their order: the new one goes behind those that are as great. */
  lemma InsertStable<T(!new)>(cmp: Compare<T>, r: seq<T>, x: T, k: T)
    requires TotalPreorder(cmp) && Sorted(cmp, r)
    ensures Like(cmp, Insert(cmp, r, x), k) == Like(cmp, r + [x], k)
  {
    var p := Place(cmp, r, x);
    if cmp(x, k) <= 0 && cmp(k, x) <= 0 {
      NoneBehind(cmp, r, x, k);
    } else {
      NoneLike(cmp, [x], k);
    }
    assert Like(cmp, Insert(cmp, r, x), k) == Like(cmp, r[..p] + r[p..] + [x], k) by {
      LikeInsert(cmp, r[..p], r[p..], x, k);
    }
    assert r[..p] + r[p..] == r;
  }

  lemma {:induction false} SortStable<T(!new)>(cmp: Compare<T>, s: seq<T>, k: T)
    requires TotalPreorder(cmp)
    ensures Like(cmp, Sort(cmp, s), k) == Like(cmp, s, k)
  {
    if s != [] {
      var n := |s| - 1;
      SortStable(cmp, s[..n], k);
      SortSorts(cmp, s[..n]);
      InsertStable(cmp, Sort(cmp, s[..n]), s[n], k);
      LikeSplit(cmp, Sort(cmp, s[..n]), [s[n]], k);
      LikeSplit(cmp, s[..n], [s[n]], k);
      assert s == s[..n] + [s[n]];
    }
  }

  // ---- the list ----

  class Node<T> {
    const val: T
    var next: Node?<T>
    var prev: Node?<T>

    constructor (val: T)
      ensures this.val == val && next == null && prev == null
    {
      this.val := val;
      next, prev := null, null;
    }
  }

  /** The node behind position `i`. */
  function At<T>(s: seq<Node<T>>, i: int): Node?<T> { if 0 <= i < |s| then s[i] else null }

  ghost predicate Distinct<T>(s: seq<Node<T>>) { forall i, j :: 0 <= i < j < |s| ==> s[i] != s[j] }

  ghost predicate Chain<T>(s: seq<Node<T>>)
    reads s
  {
    forall i :: 0 <= i < |s| ==> s[i].next == At(s, i + 1)
  }

  /** `next` and `prev` are inverse to each other, and the list ends on both sides. */
  ghost predicate IsList<T>(s: seq<Node<T>>)
    reads s
  {
    Distinct(s) && Chain(s) && forall i :: 0 <= i < |s| ==> s[i].prev == At(s, i - 1)
  }

  ghost function Values<T>(s: seq<Node<T>>): (v: seq<T>)
    ensures |v| == |s|
  {
    seq(|s|, i requires 0 <= i < |s| => s[i].val)
  }

  /** The search for the place of `q`. */
  method Search<T>(cmp: Compare<T>, head: Node<T>, q: Node<T>, ghost r: seq<Node<T>>)
    returns (cur: Node?<T>, ghost p: nat)
    requires IsList(r) && r != [] && r[0] == head
    ensures p == Place(cmp, Values(r), q.val) && cur == At(r, p)
  {
    cur, p := head, 0;
    ghost var v := Values(r);
    while cur != null
      invariant p <= |r| && cur == At(r, p)
      invariant forall i :: 0 <= i < p ==> cmp(v[i], q.val) <= 0
      decreases |r| - p
    {
      if cmp(cur.val, q.val) > 0 {
        break;
      }
      cur, p := cur.next, p + 1;
    }
    PlaceIs(cmp, v, q.val, p);
  }

  lemma {:induction false} PlaceIs<T>(cmp: Compare<T>, v: seq<T>, x: T, p: nat)
    requires p <= |v| && (forall i :: 0 <= i < p ==> cmp(v[i], x) <= 0) && (p < |v| ==> cmp(v[p], x) > 0)
    ensures Place(cmp, v, x) == p
  {
  }

  /** `q` is linked in at `p`, node by node. */
  ghost predicate LinkedAt<T>(r: seq<Node<T>>, q: Node<T>, p: nat)
    reads r, q
  {
    && p <= |r| && q.next == At(r, p) && q.prev == At(r, p - 1)
    && (forall i :: 0 <= i < |r| ==> r[i].next == if i == p - 1 then q else At(r, i + 1))
    && (forall i :: 0 <= i < |r| ==> r[i].prev == if i == p then q else At(r, i - 1))
  }

  function With<T>(r: seq<T>, q: T, p: nat): (t: seq<T>)
    requires p <= |r|
    ensures |t| == |r| + 1
    ensures forall i :: 0 <= i < |t| ==> t[i] == if i < p then r[i] else if i == p then q else r[i - 1]
  {
    r[..p] + [q] + r[p..]
  }

  lemma LinkedIsList<T>(r: seq<Node<T>>, q: Node<T>, p: nat)
    requires Distinct(r) && q !in r && LinkedAt(r, q, p)
    ensures IsList(With(r, q, p))
  {
    var t := With(r, q, p);
    forall i, j | 0 <= i < j < |t| ensures t[i] != t[j] {
      assert t[i] == if i < p then r[i] else if i == p then q else r[i - 1];
      assert t[j] == if j < p then r[j] else if j == p then q else r[j - 1];
    }
    forall i | 0 <= i < |t| ensures t[i].next == At(t, i + 1) && t[i].prev == At(t, i - 1) {
      assert i + 1 < |t| ==> t[i + 1] == At(t, i + 1);
      assert i > 0 ==> t[i - 1] == At(t, i - 1);
    }
  }

  /** Link `q` in front of `cur`, or at the end. */
  method Link<T>(head: Node<T>, tail: Node<T>, q: Node<T>, cur: Node?<T>, ghost r: seq<Node<T>>, ghost p: nat)
      returns (head': Node<T>, tail': Node<T>)
    requires IsList(r) && r != [] && r[0] == head && r[|r| - 1] == tail && q !in r && p <= |r| && cur == At(r, p)
    modifies r, q
    ensures LinkedAt(r, q, p)
    ensures head' == (if p == 0 then q else head) && tail' == if p == |r| then q else tail
  {
    head', tail' := head, tail;
    q.next := cur;
    if cur != null {
      q.prev := cur.prev;
      if cur.prev != null {
        cur.prev.next := q;
      } else {
        head' := q;
      }
      cur.prev := q;
    } else {
      q.prev := tail;
      tail.next := q;
      tail' := q;
    }
  }

  lemma WithMembers<T>(r: seq<Node<T>>, q: Node<T>, p: nat)
    requires p <= |r|
    ensures multiset(With(r, q, p)) == multiset(r) + multiset{q}
  {
    assert r == r[..p] + r[p..];
  }

  lemma WithEnds<T>(r: seq<Node<T>>, q: Node<T>, p: nat)
    requires p <= |r| && r != []
    ensures var t := With(r, q, p);
      && t != [] && t[0] == (if p == 0 then q else r[0]) && t[|t| - 1] == (if p == |r| then q else r[|r| - 1])
      && Elements(t) == Elements(r) + {q}
  {
    assert r == r[..p] + r[p..];
  }

  lemma WithValues<T>(cmp: Compare<T>, r: seq<Node<T>>, q: Node<T>)
    ensures var p := Place(cmp, Values(r), q.val); p <= |r| && Values(With(r, q, p)) == Insert(cmp, Values(r), q.val)
  {
  }

  /** One round: the first node of the rest is linked in at its place. */
  method Round<T>(cmp: Compare<T>, head: Node<T>, tail: Node<T>, q: Node<T>, ghost r: seq<Node<T>>)
      returns (head': Node<T>, tail': Node<T>, ghost r': seq<Node<T>>)
    requires IsList(r) && r != [] && r[0] == head && r[|r| - 1] == tail && q !in r
    modifies r, q
    ensures IsList(r') && r' != [] && r'[0] == head' && r'[|r'| - 1] == tail'
    ensures multiset(r') == multiset(r) + multiset{q} && Elements(r') == Elements(r) + {q}
    ensures Values(r') == Insert(cmp, Values(r), q.val)
  {
    var cur, p := Search(cmp, head, q, r);
    head', tail' := Link(head, tail, q, cur, r, p);
    LinkedIsList(r, q, p);
    WithEnds(r, q, p);
    WithMembers(r, q, p);
    WithValues(cmp, r, q);
    r' := With(r, q, p);
  }

  ghost function Elements<T>(r: seq<Node<T>>): set<Node<T>> { set x | x in r }

  /** The nodes `t` that are still to be linked are a chain, apart from the nodes in `done`. */
  ghost predicate Rest<T>(all: set<Node<T>>, done: set<Node<T>>, t: seq<Node<T>>)
    reads all
  {
    && done <= all && (forall i :: 0 <= i < |t| ==> t[i] in all && t[i] !in done)
    && Distinct(t) && forall i :: 0 <= i < |t| ==> t[i].next == At(t, i + 1)
  }

  lemma RestTail<T>(all: set<Node<T>>, done: set<Node<T>>, t: seq<Node<T>>)
    requires Rest(all, done, t) && t != []
    ensures Rest(all, done + {t[0]}, t[1..])
  {
    var u := t[1..];
    forall i | 0 <= i < |u| ensures u[i] in all && u[i] !in done + {t[0]} && u[i].next == At(u, i + 1) {
      assert u[i] == t[i + 1];
    }
    forall i, j | 0 <= i < j < |u| ensures u[i] != u[j] {
      assert u[i] == t[i + 1] && u[j] == t[j + 1];
    }
  }

  /** The nodes `r` that are linked already, and the rest `t`. */
  ghost predicate Parts<T>(all: set<Node<T>>, done: set<Node<T>>, r: seq<Node<T>>, t: seq<Node<T>>, first: Node<T>,
      tail: Node<T>)
    reads all, r
  {
    && IsList(r) && r != [] && r[0] == first && r[|r| - 1] == tail
    && Elements(r) == done && Rest(all, done, t)
  }

  /** One more round of q_sort. */
  method NextRound<T>(cmp: Compare<T>, x: Node<T>, head: Node<T>, tail: Node<T>,
      ghost all: set<Node<T>>, ghost done: set<Node<T>>, ghost r: seq<Node<T>>, ghost t: seq<Node<T>>)
      returns (qnext: Node?<T>, head': Node<T>, tail': Node<T>, ghost r': seq<Node<T>>)
    requires Parts(all, done, r, t, head, tail) && t != [] && x == t[0]
    modifies done, x
    ensures Parts(all, done + {x}, r', t[1..], head', tail') && qnext == At(t[1..], 0)
    ensures Values(r') == Insert(cmp, Values(r), x.val) && multiset(r') == multiset(r) + multiset{x}
  {
    qnext := x.next;
    RestTail(all, done, t);
    head', tail', r' := Round(cmp, head, tail, x, r);
  }

  lemma OneMore<T>(s: seq<Node<T>>, k: nat, r: seq<Node<T>>, t: seq<Node<T>>)
    requires k < |s| && multiset(r) == multiset(s[..k]) && multiset(t) == multiset(r) + multiset{s[k]}
    ensures multiset(t) == multiset(s[..k + 1])
  {
    assert s[..k + 1] == s[..k] + [s[k]];
  }

  /** The first node alone. */
  method FirstNode<T>(q: Node<T>, ghost s: seq<Node<T>>) returns (qnext: Node?<T>, ghost all: set<Node<T>>)
    requires s != [] && q == s[0] && Distinct(s) && Chain(s) && q.prev == null
    modifies q
    ensures all == (set x | x in s) && Parts(all, {q}, [q], s[1..], q, q) && qnext == At(s[1..], 0)
  {
    all := set x | x in s;
    qnext := q.next;
    RestTail(all, {}, s);
    assert {} + {s[0]} == {q};
    q.next := null;
  }

  lemma SortStep<T>(cmp: Compare<T>, v: seq<T>, k: nat)
    requires k < |v|
    ensures Sort(cmp, v[..k + 1]) == Insert(cmp, Sort(cmp, v[..k]), v[k])
  {
    assert v[..k + 1][..k] == v[..k];
  }

  lemma RestSlices<T>(s: seq<Node<T>>, k: nat)
    requires k < |s|
    ensures s[k..][1..] == s[k + 1..] && s[k..][0] == s[k] && Values(s)[k] == s[k].val
  {
  }

  lemma AllTaken<T, V>(s: seq<Node<T>>, v: seq<V>, k: nat)
    requires k <= |s| == |v| && At(s[k..], 0) == null
    ensures k == |s| && s[..k] == s && v[..k] == v
  {
  }

  lemma FirstTaken<T>(cmp: Compare<T>, s: seq<Node<T>>)
    requires s != []
    ensures Values([s[0]]) == Sort(cmp, Values(s)[..1]) && s[..1] == [s[0]]
  {
    var v := Values(s);
    assert v[..1] == [s[0].val] && v[..1][..0] == [];
    assert Values([s[0]]) == [s[0].val];
  }

  /** q_sort: the same nodes, relinked in the order of the insertion sort. */
  method QSort<T>(cmp: Compare<T>, q: Node?<T>, ghost s: seq<Node<T>>) returns (head: Node?<T>, ghost r: seq<Node<T>>)
    requires q == At(s, 0) && Distinct(s) && Chain(s) && (q != null ==> q.prev == null)
    modifies s
    ensures IsList(r) && head == At(r, 0) && multiset(r) == multiset(s)
    ensures Values(r) == Sort(cmp, Values(s))
  {
    if q == null {
      return null, [];
    }
    ghost var v := Values(s);
    var first: Node<T>, tail: Node<T> := q, q;
    var qnext, all := FirstNode(q, s);
    r := [q];
    ghost var done: set<Node<T>> := {first};
    ghost var k := 1;
    FirstTaken(cmp, s);
    while qnext != null
      invariant 1 <= k <= |s| && Parts(all, done, r, s[k..], first, tail) && qnext == At(s[k..], 0)
      invariant Values(r) == Sort(cmp, v[..k]) && multiset(r) == multiset(s[..k])
      decreases |s| - k
    {
      RestSlices(s, k);
      SortStep(cmp, v, k);
      ghost var r0 := r;
      ghost var x: Node<T> := qnext;
      qnext, first, tail, r := NextRound(cmp, qnext, first, tail, all, done, r, s[k..]);
      done := done + {x};
      OneMore(s, k, r0, r);
      k := k + 1;
    }
    AllTaken(s, v, k);
    head := first;
  }
}
