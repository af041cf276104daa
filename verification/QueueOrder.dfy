/** In which order mail goes out: q_cmp, by which the queue of a session is sorted. */
module QueueOrder {
  import opened QueueSort

  datatype Addr = Null | Addr(z: int, net: int, node: int, p: int, domain: string)

  datatype Entry = Entry(fa: Addr, kind: char, sent: bool, path: string)

  function Rank(kind: char, order: seq<char>): nat {
    if order == [] || order[0] == kind then 0 else 1 + Rank(kind, order[1..])
  }

  /** The loop over an order of preference: whichever of the two comes first in it decides. */
  function FirstOf<T(==)>(a: T, b: T, order: seq<T>): int {
    if order == [] then 0 else if a == order[0] then -1 else if b == order[0] then 1 else FirstOf(a, b, order[1..])
  }

  function Bit(b: bool): int { if b then 1 else 0 }

  /** q_cmp; `boxes` compares files of the same file box. */
  function QCmp(fa: seq<Addr>, boxes: (string, string) -> int, a: Entry, b: Entry): int {
    if a.sent || b.sent then Bit(b.sent) - Bit(a.sent)
    else
      var aka := if a.fa != b.fa then 0 else if a.fa.Null? then -1 else FirstOf(a.fa, b.fa, fa);
      if aka != 0 then aka
      else
        var kind := if a.kind == b.kind then 0 else FirstOf(a.kind, b.kind, ['s', 'r', 'm', 'l', 'd']);
        if kind != 0 then kind
        else if a.kind == 'd' && b.kind == 'd' then boxes(a.path, b.path)
        else 0
  }

  function Comparing(fa: seq<Addr>, boxes: (string, string) -> int): Compare<Entry> {
    (a: Entry, b: Entry) => QCmp(fa, boxes, a, b)
  }

  /** An address that the session has, or none. */
  predicate Ours(fa: seq<Addr>, a: Addr) { a.Null? || a in fa }

  lemma {:induction false} OwnAddressFirst(a: Addr, order: seq<Addr>)
    requires a in order
    ensures FirstOf(a, a, order) == -1
  {
    if order[0] != a {
      OwnAddressFirst(a, order[1..]);
    }
  }

  /** Two entries for one address of the session: each of them goes in front of the other, whatever they are. */
  lemma BothFirst(fa: seq<Addr>, boxes: (string, string) -> int, a: Entry, b: Entry)
    requires !a.sent && !b.sent && a.fa == b.fa && Ours(fa, a.fa)
    ensures QCmp(fa, boxes, a, b) == QCmp(fa, boxes, b, a) == -1
  {
    if a.fa != Null {
      OwnAddressFirst(a.fa, fa);
    }
  }

  /** Entries of one link, none of them sent. */
  ghost predicate OneLink(fa: seq<Addr>, q: seq<Entry>) {
    forall i, j :: 0 <= i < |q| && 0 <= j < |q| ==> !q[i].sent && q[i].fa == q[j].fa && Ours(fa, q[i].fa)
  }

  /** The queue of one link is not sorted at all. */
  lemma OneLinkStays(fa: seq<Addr>, boxes: (string, string) -> int, q: seq<Entry>)
    requires OneLink(fa, q)
    ensures Sort(Comparing(fa, boxes), q) == q
  {
    var cmp := Comparing(fa, boxes);
    forall i, j | 0 <= i < |q| && 0 <= j < |q| && i != j ensures cmp(q[i], q[j]) <= 0 {
      BothFirst(fa, boxes, q[i], q[j]);
    }
    NothingMoves(cmp, q);
  }

  /** A pending status is offered first if and only if it was scanned first: the order of the types does not put it
      there. */
  lemma StatusFirst(fa: seq<Addr>, boxes: (string, string) -> int, q: seq<Entry>)
    requires OneLink(fa, q) && q != []
    ensures var r := Sort(Comparing(fa, boxes), q); r != [] && (r[0].kind == 's' <==> q[0].kind == 's')
  {
    OneLinkStays(fa, boxes, q);
  }

  /** So q_cmp is no preorder as soon as the session has an address. */
  lemma NoPreorder(fa: seq<Addr>, boxes: (string, string) -> int)
    ensures exists a, b :: QCmp(fa, boxes, a, b) < 0 && QCmp(fa, boxes, b, a) < 0 && a.kind != b.kind
  {
    var a, b := Entry(Null, 's', false, ""), Entry(Null, 'l', false, "");
    BothFirst(fa, boxes, a, b);
    assert a.kind != b.kind;
  }
}
