/** Which node to call next: q_next_node picks the node with the most urgent mail. */
module NextNode {

  const PRIO: string := ['I', 'i', 'C', 'c', 'D', 'd', 'O', 'o', 'F', 'f', 'H', 'h']
  const WORST: nat := 12
  const NONE: char := 0 as char

  /** The place that strchr finds in PRIO: the terminating zero is the last of all, and a letter that is not in it
      has none. */
  function Place(f: char): (p: nat)
    ensures f in PRIO <==> p < WORST
    ensures p < WORST ==> PRIO[p] == f
    ensures p == WORST <==> f == NONE
  {
    if f == 'I' then 0 else if f == 'i' then 1 else if f == 'C' then 2 else if f == 'c' then 3
    else if f == 'D' then 4 else if f == 'd' then 5 else if f == 'O' then 6 else if f == 'o' then 7
    else if f == 'F' then 8 else if f == 'f' then 9 else if f == 'H' then 10 else if f == 'h' then 11
    else if f == NONE then WORST else WORST + 1
  }

  predicate IsFlavour(f: char) { Place(f) <= WORST }

  /** MAXFLVR */
  function Better(a: char, b: char): char {
    if Place(a) < Place(b) then a else b
  }

  datatype FtnNode = FtnNode(mail: char, files: char, busy: bool, hosts: string, holdUntil: int)

  ghost predicate Flavoured(ns: seq<FtnNode>) {
    forall n :: n in ns ==> IsFlavour(n.mail) && IsFlavour(n.files)
  }

  predicate MayCall(n: FtnNode, now: int) { !n.busy && n.hosts != "-" && n.holdUntil < now }

  /** How urgent the mail for a node is; a node that must not be called has none. */
  function Urgency(n: FtnNode, now: int): nat {
    if MayCall(n, now) then (if Place(n.mail) < Place(n.files) then Place(n.mail) else Place(n.files)) else WORST
  }

  ghost function Urgencies(ns: seq<FtnNode>, now: int): (u: seq<nat>)
    ensures |u| == |ns|
  {
    seq(|ns|, i requires 0 <= i < |ns| => Urgency(ns[i], now))
  }

  // ---- the choice ----

  /** Mail on hold is not a reason to call. */
  const HOLD: nat := 10

  ghost predicate IsNext(u: seq<nat>, i: nat) {
    i < |u| && u[i] < HOLD && forall j :: 0 <= j < |u| ==> u[i] <= u[j] && (j < i ==> u[i] < u[j])
  }

  ghost predicate NobodyNext(u: seq<nat>) { forall j :: 0 <= j < |u| ==> u[j] >= HOLD }

  /** The calls of q_next_node, one after the other, until it gives none. */
  ghost predicate Calls(u: seq<nat>, order: seq<nat>)
    decreases |order|
  {
    if order == [] then NobodyNext(u)
    else IsNext(u, order[0]) && Calls(u[order[0] := WORST], order[1..])
  }

  predicate Before(u: seq<nat>, i: nat, j: nat)
    requires i < |u| && j < |u|
  {
    u[i] < u[j] || (u[i] == u[j] && i < j)
  }

  /** Every node with mail that is not on hold is called exactly once, the most urgent first, and nodes with equally
      urgent mail in their order. */
  lemma {:induction false} CalledOnce(u: seq<nat>, order: seq<nat>)
    requires Calls(u, order)
    ensures forall k :: 0 <= k < |order| ==> order[k] < |u| && u[order[k]] < HOLD
    ensures forall k, l :: 0 <= k < l < |order| ==> Before(u, order[k], order[l])
    ensures forall i :: 0 <= i < |u| && u[i] < HOLD ==> i in order
    decreases |order|
  {
    if order != [] {
      var i := order[0];
      var w := u[i := WORST];
      CalledOnce(w, order[1..]);
      forall k | 1 <= k < |order| ensures order[k] < |u| && u[order[k]] < HOLD && Before(u, i, order[k]) {
        assert order[k] == order[1..][k - 1] && w[order[k]] < HOLD;
      }
      forall k, l | 1 <= k < l < |order| ensures Before(u, order[k], order[l]) {
        assert order[k] == order[1..][k - 1] && order[l] == order[1..][l - 1];
        assert Before(w, order[k], order[l]);
      }
      forall j | 0 <= j < |u| && u[j] < HOLD ensures j in order {
        assert j != i ==> j in order[1..];
      }
    }
  }

  class Scheduler {
    const nodes: array<FtnNode>

    constructor (nodes: array<FtnNode>)
      ensures this.nodes == nodes
    {
      this.nodes := nodes;
    }

    /** One call of qn_not_empty. */
    method QnNotEmpty(fn: FtnNode, n: int, now: int, maxflvr: char, i: int) returns (maxflvr': char, i': int)
      requires IsFlavour(fn.mail) && IsFlavour(fn.files) && IsFlavour(maxflvr)
      ensures IsFlavour(maxflvr')
      ensures if Urgency(fn, now) < Place(maxflvr) then i' == n && Place(maxflvr') == Urgency(fn, now)
        else i' == i && maxflvr' == maxflvr
    {
      maxflvr', i' := maxflvr, i;
      if MayCall(fn, now) {
        if maxflvr != Better(fn.mail, Better(fn.files, maxflvr)) {
          PlaceNew(fn.mail, fn.files, maxflvr);
          maxflvr', i' := Better(fn.mail, fn.files), n;
        } else {
          PlaceOld(fn.mail, fn.files, maxflvr);
        }
      }
    }

    /** q_not_empty: the node with the best flavour, -1 if there is none or it is on hold. */
    method QNotEmpty(now: int) returns (i: int)
      requires Flavoured(nodes[..])
      ensures var u := Urgencies(nodes[..], now); if i == -1 then NobodyNext(u) else i >= 0 && IsNext(u, i)
    {
      ghost var u := Urgencies(nodes[..], now);
      var maxflvr := NONE;
      i := -1;
      var n := 0;
      while n < nodes.Length
        invariant n <= nodes.Length && IsFlavour(maxflvr)
        invariant forall j :: 0 <= j < n ==> Place(maxflvr) <= u[j]
        invariant if i == -1 then maxflvr == NONE
          else 0 <= i < n && u[i] == Place(maxflvr) && forall j :: 0 <= j < i ==> u[i] < u[j]
      {
        assert nodes[n] in nodes[..];
        maxflvr, i := QnNotEmpty(nodes[n], n, now, maxflvr, i);
        n := n + 1;
      }
      HoldIs(maxflvr);
      if maxflvr == NONE || maxflvr == 'h' || maxflvr == 'H' {
        i := -1;
      }
    }

    /** q_next_node: the node is busy from now on, and its mail does not count any more. */
    method QNextNode(now: int) returns (i: int)
      requires Flavoured(nodes[..])
      modifies nodes
      ensures Flavoured(nodes[..])
      ensures var u := old(Urgencies(nodes[..], now));
        if i == -1 then NobodyNext(u) && nodes[..] == old(nodes[..])
        else 0 <= i < nodes.Length && IsNext(u, i) && Urgencies(nodes[..], now) == u[i := WORST]
             && nodes[..] == old(nodes[..])[i := old(nodes[i]).(mail := NONE, files := NONE, busy := true)]
    {
      i := QNotEmpty(now);
      if i >= 0 {
        ghost var was := nodes[..];
        nodes[i] := nodes[i].(mail := NONE, files := NONE, busy := true);
        assert nodes[..] == was[i := nodes[i]];
      }
    }

    /** The calls between two scans. */
    method CallAll(now: int) returns (order: seq<nat>)
      requires Flavoured(nodes[..])
      modifies nodes
      ensures Calls(old(Urgencies(nodes[..], now)), order)
      decreases Waiting(Urgencies(nodes[..], now))
    {
      ghost var u := Urgencies(nodes[..], now);
      var i := QNextNode(now);
      if i == -1 {
        return [];
      }
      OneLess(u, i);
      var rest := CallAll(now);
      order := [i] + rest;
    }
  }

  /** How many nodes wait to be called. */
  ghost function Waiting(u: seq<nat>): nat {
    if u == [] then 0 else (if u[0] < HOLD then 1 else 0) + Waiting(u[1..])
  }

  lemma {:induction false} OneLess(u: seq<nat>, i: nat)
    requires i < |u| && u[i] < HOLD
    ensures Waiting(u[i := WORST]) == Waiting(u) - 1
  {
    var w := u[i := WORST];
    if i == 0 {
      assert w[1..] == u[1..];
    } else {
      assert w[1..] == u[1..][i - 1 := WORST];
      OneLess(u[1..], i - 1);
    }
  }

  /** The flavour changes only for a better one. */
  lemma PlaceNew(m: char, f: char, x: char)
    requires IsFlavour(m) && IsFlavour(f) && IsFlavour(x) && x != Better(m, Better(f, x))
    ensures var p := if Place(m) < Place(f) then Place(m) else Place(f);
      Place(Better(m, f)) == p < Place(x) && IsFlavour(Better(m, f))
  {
  }

  lemma PlaceOld(m: char, f: char, x: char)
    requires x == Better(m, Better(f, x))
    ensures Place(x) <= Place(m) && Place(x) <= Place(f)
  {
  }

  lemma HoldIs(f: char)
    requires IsFlavour(f)
    ensures f == NONE || f == 'h' || f == 'H' <==> Place(f) >= HOLD
  {
  }
}
