/** Busy flags: a lock file per address, the list of the flags that a process holds, and the addresses of a session. */
module Locks {
  import opened Options

  /** An address with a busy flag (F_BSY) or a call flag (F_CSY). */
  datatype Flag<+A> = Flag(fa: A, csy: bool)

  /** The file of a flag; empty for an address that has none. */
  type Naming<!A> = Flag<A> -> string

  // ---- what the two operations do ----

  /** create_sem_file creates the file exclusively. */
  predicate CanAdd<A>(path: Naming<A>, files: set<string>, f: Flag<A>) {
    path(f) != "" && path(f) !in files
  }

  /** A free cell of the list, or a new one in front. */
  function PutCell<A>(cells: seq<Option<Flag<A>>>, f: Flag<A>): seq<Option<Flag<A>>> {
    var i := FreeCell(cells);
    if i < |cells| then cells[i := Some(f)] else [Some(f)] + cells
  }

  function FreeCell<A>(cells: seq<Option<Flag<A>>>): (i: nat)
    ensures i <= |cells| && (i < |cells| ==> cells[i].None?) && forall j :: 0 <= j < i ==> cells[j].Some?
  {
    if cells == [] || cells[0].None? then 0 else 1 + FreeCell(cells[1..])
  }

  function FindCell<A(==)>(cells: seq<Option<Flag<A>>>, f: Flag<A>): (i: nat)
    ensures i <= |cells| && (i < |cells| ==> cells[i] == Some(f)) && forall j :: 0 <= j < i ==> cells[j] != Some(f)
  {
    if cells == [] || cells[0] == Some(f) then 0 else 1 + FindCell(cells[1..], f)
  }

  /** What a process and the disk hold. */
  datatype Held<A> = Held(files: set<string>, cells: seq<Option<Flag<A>>>)

  function Add<A>(path: Naming<A>, h: Held<A>, f: Flag<A>): Held<A> {
    if CanAdd(path, h.files, f) then Held(h.files + {path(f)}, PutCell(h.cells, f)) else h
  }

  function Remove<A(==)>(path: Naming<A>, h: Held<A>, f: Flag<A>): Held<A> {
    var i := FindCell(h.cells, f);
    if path(f) == "" || i == |h.cells| then h
    else Held(h.files - {path(f)}, h.cells[i := None])
  }

  /** The flags in the list. */
  ghost predicate Has<A>(cells: seq<Option<Flag<A>>>, f: Flag<A>) { Some(f) in cells }

  lemma PutCellHas<A>(cells: seq<Option<Flag<A>>>, f: Flag<A>, g: Flag<A>)
    ensures Has(PutCell(cells, f), g) <==> g == f || Has(cells, g)
  {
    var i := FreeCell(cells);
    var r := PutCell(cells, f);
    if i < |cells| {
      assert r[i] == Some(f);
      if Has(cells, g) {
        var j :| 0 <= j < |cells| && cells[j] == Some(g);
        assert r[j] == Some(g);
      }
    }
  }

  /** No flag is listed twice, and each listed flag has its file. */
  ghost predicate Listed<A(!new)>(path: Naming<A>, h: Held<A>) {
    && (forall i, j :: 0 <= i < j < |h.cells| && h.cells[i].Some? && h.cells[j].Some? ==>
          path(h.cells[i].value) != path(h.cells[j].value))
    && (forall i :: 0 <= i < |h.cells| && h.cells[i].Some? ==>
          path(h.cells[i].value) in h.files && path(h.cells[i].value) != "")
  }

  lemma AddListed<A(!new)>(path: Naming<A>, h: Held<A>, f: Flag<A>)
    requires Listed(path, h)
    ensures Listed(path, Add(path, h, f))
    ensures CanAdd(path, h.files, f) ==> Has(Add(path, h, f).cells, f) && !Has(h.cells, f)
  {
    if CanAdd(path, h.files, f) {
      PutCellHas(h.cells, f, f);
      var i := FreeCell(h.cells);
      var r := PutCell(h.cells, f);
      assert i == |h.cells| ==> forall j :: 0 < j < |r| ==> r[j] == h.cells[j - 1];
    }
  }

  lemma RemoveListed<A(!new)>(path: Naming<A>, h: Held<A>, f: Flag<A>, g: Flag<A>)
    requires Listed(path, h)
    ensures Listed(path, Remove(path, h, f))
    ensures Has(h.cells, f) ==>
      (Has(Remove(path, h, f).cells, g) <==> Has(h.cells, g) && g != f) &&
      Remove(path, h, f).files == h.files - {path(f)}
    ensures !Has(h.cells, f) ==> Remove(path, h, f) == h
  {
    var i := FindCell(h.cells, f);
    if i < |h.cells| {
      var r := h.cells[i := None];
      if Has(h.cells, g) && g != f {
        var j :| 0 <= j < |h.cells| && h.cells[j] == Some(g);
        assert r[j] == Some(g);
      }
      if Has(r, g) {
        var j :| 0 <= j < |r| && r[j] == Some(g);
        assert j != i && h.cells[j] == Some(g);
      }
    }
  }

  // ---- the program ----

  /** The directory with the lock files, shared by all processes. */
  class Disk {
    var files: set<string>

    constructor ()
      ensures files == {}
    {
      files := {};
    }
  }

  /** The list of the flags that this process holds. */
  class BsyList<A(==)> {
    const disk: Disk
    const path: Naming<A>
    var cells: seq<Option<Flag<A>>>

    constructor (disk: Disk, path: Naming<A>)
      ensures this.disk == disk && this.path == path && cells == []
    {
      this.disk, this.path, cells := disk, path, [];
    }

    ghost function State(): Held<A>
      reads this, disk
    {
      Held(disk.files, cells)
    }

    /** bsy_get_free_cell, and the flag is put into the cell. */
    method UseFreeCell(f: Flag<A>)
      modifies this
      ensures cells == PutCell(old(cells), f)
    {
      var i := 0;
      while i < |cells| && cells[i].Some?
        invariant i <= FreeCell(cells)
      {
        i := i + 1;
      }
      if i < |cells| {
        cells := cells[i := Some(f)];
      } else {
        cells := [Some(f)] + cells;
      }
    }

    /** bsy_add */
    method BsyAdd(f: Flag<A>) returns (ok: bool)
      modifies this, disk
      ensures ok == CanAdd(path, old(disk.files), f) && State() == Add(path, old(State()), f)
    {
      ok := false;
      var buf := path(f);
      if buf != "" && buf !in disk.files {
        disk.files := disk.files + {buf};
        UseFreeCell(f);
        ok := true;
      }
    }

    /** bsy_remove */
    method BsyRemove(f: Flag<A>)
      modifies this, disk
      ensures State() == Remove(path, old(State()), f)
    {
      var buf := path(f);
      if buf == "" {
        return;
      }
      var i := 0;
      while i < |cells|
        invariant i <= FindCell(cells, f)
      {
        if cells[i] == Some(f) {
          disk.files := disk.files - {buf};
          cells := cells[i := None];
          return;
        }
        i := i + 1;
      }
    }
  }

  // ---- the addresses of a session ----

  /** What the checks of ADR say of an address before its flag is tried: take it, pass over it, or drop the session. */
  datatype Verdict = Take | PassOver | Drop

  /** An address of an M_ADR; `secure` says that its being busy drops the session. */
  datatype Offer<+A> = Offer(fa: A, verdict: Verdict, secure: bool)

  datatype Login<A> = Login(active: seq<A>, others: seq<A>, held: Held<A>, ok: bool)

  /** The loop of ADR. */
  function Adr<A>(path: Naming<A>, l: Login<A>, offers: seq<Offer<A>>): Login<A>
    decreases |offers|
  {
    if offers == [] || !l.ok then l
    else
      var o := offers[0];
      var f := Flag(o.fa, false);
      match o.verdict
      case Drop => l.(ok := false)
      case PassOver => Adr(path, l, offers[1..])
      case Take =>
        if CanAdd(path, l.held.files, f)
          then Adr(path, l.(active := l.active + [o.fa], held := Add(path, l.held, f)), offers[1..])
        else if o.secure then l.(ok := false)
        else Adr(path, l.(others := l.others + [o.fa]), offers[1..])
  }

  /** The active addresses are locked, once each. */
  ghost predicate Locked<A(!new)>(path: Naming<A>, l: Login<A>) {
    && Listed(path, l.held)
    && (forall i, j :: 0 <= i < j < |l.active| ==> l.active[i] != l.active[j])
    && (forall a :: a in l.active ==> Has(l.held.cells, Flag(a, false)))
  }

  /** At every exit of ADR the active addresses are those that this session has locked, and the flags that others
      hold in this process are as they were. */
  lemma {:induction false} AdrLocks<A(!new)>(path: Naming<A>, l: Login<A>, offers: seq<Offer<A>>, g: Flag<A>)
    requires Locked(path, l)
    ensures var t := Adr(path, l, offers);
      && Locked(path, t) && l.active <= t.active && l.others <= t.others
      && (Has(t.held.cells, g) <==> Has(l.held.cells, g) || (!g.csy && g.fa in t.active[|l.active|..]))
    decreases |offers|
  {
    if offers != [] && l.ok {
      var o := offers[0];
      var f := Flag(o.fa, false);
      if o.verdict.PassOver? {
        AdrLocks(path, l, offers[1..], g);
      } else if o.verdict.Take? && CanAdd(path, l.held.files, f) {
        AddListed(path, l.held, f);
        var u := l.(active := l.active + [o.fa], held := Add(path, l.held, f));
        forall h ensures Has(u.held.cells, h) <==> h == f || Has(l.held.cells, h) { PutCellHas(l.held.cells, f, h); }
        AdrLocks(path, u, offers[1..], g);
        var t := Adr(path, u, offers[1..]);
        assert t.active[|l.active|] == u.active[|l.active|] == o.fa;
        assert t.active[|l.active|..] == [o.fa] + t.active[|u.active|..];
      } else if o.verdict.Take? && !o.secure {
        AdrLocks(path, l.(others := l.others + [o.fa]), offers[1..], g);
      }
    }
  }

  /** The addresses whose flags are tried. */
  function Tried<A>(offers: seq<Offer<A>>): seq<A> {
    if offers == [] then []
    else (if offers[0].verdict.Take? then [offers[0].fa] else []) + Tried(offers[1..])
  }

  /** Those of the addresses that were locked, or those that were not, in their order. */
  function Pick<A>(tried: seq<A>, got: seq<bool>, which: bool): seq<A>
    requires |got| == |tried|
  {
    if tried == [] then [] else (if got[0] == which then [tried[0]] else []) + Pick(tried[1..], got[1..], which)
  }

  /** The lock files at the time that address `i` is tried. */
  function FilesAt<A>(path: Naming<A>, files: set<string>, tried: seq<A>, got: seq<bool>, i: nat): set<string>
    requires |got| == |tried| && i <= |tried|
    decreases i
  {
    if i == 0 then files
    else FilesAt(path, if got[0] then files + {path(Flag(tried[0], false))} else files, tried[1..], got[1..], i - 1)
  }

  /** An address is locked exactly when its flag can be set at the time that it is tried. */
  ghost predicate Decides<A>(path: Naming<A>, files: set<string>, tried: seq<A>, got: seq<bool>) {
    && |got| == |tried|
    && forall i :: 0 <= i < |tried| ==>
       (got[i] <==> CanAdd(path, FilesAt(path, files, tried, got, i), Flag(tried[i], false)))
  }

  lemma DecidesMore<A>(path: Naming<A>, files: set<string>, a: A, tried: seq<A>, got: seq<bool>)
    requires var free := CanAdd(path, files, Flag(a, false));
      Decides(path, if free then files + {path(Flag(a, false))} else files, tried, got)
    ensures Decides(path, files, [a] + tried, [CanAdd(path, files, Flag(a, false))] + got)
  {
    var tried1, got1 := [a] + tried, [CanAdd(path, files, Flag(a, false))] + got;
    assert tried1[1..] == tried && got1[1..] == got;
    forall i | 0 <= i < |tried1|
      ensures got1[i] <==> CanAdd(path, FilesAt(path, files, tried1, got1, i), Flag(tried1[i], false)) {
      if i > 0 {
        assert got1[i] == got[i - 1] && tried1[i] == tried[i - 1];
      }
    }
  }

  /** What a login has become of `l` after these addresses were tried. */
  ghost predicate Splits<A>(path: Naming<A>, l: Login<A>, t: Login<A>, tried: seq<A>, got: seq<bool>) {
    && Decides(path, l.held.files, tried, got)
    && t.active == l.active + Pick(tried, got, true) && t.others == l.others + Pick(tried, got, false)
    && t.held.files == FilesAt(path, l.held.files, tried, got, |tried|)
  }

  /** A login that fails stops at an offer that drops the session, or at a secure one that is busy. */
  ghost predicate StopsAt<A>(path: Naming<A>, t: Login<A>, offers: seq<Offer<A>>, n: nat) {
    if t.ok then n == |offers|
    else
      && n < |offers|
      && (offers[n].verdict.Drop? ||
          (offers[n].verdict.Take? && offers[n].secure && !CanAdd(path, t.held.files, Flag(offers[n].fa, false))))
  }

  function TakeOffer<A>(path: Naming<A>, l: Login<A>, a: A): Login<A> {
    var f := Flag(a, false);
    if CanAdd(path, l.held.files, f) then l.(active := l.active + [a], held := Add(path, l.held, f))
    else l.(others := l.others + [a])
  }

  lemma SplitsMore<A>(path: Naming<A>, l: Login<A>, t: Login<A>, a: A, tried: seq<A>, got: seq<bool>)
    requires Splits(path, TakeOffer(path, l, a), t, tried, got)
    ensures Splits(path, l, t, [a] + tried, [CanAdd(path, l.held.files, Flag(a, false))] + got)
  {
    var free := CanAdd(path, l.held.files, Flag(a, false));
    var tried1, got1 := [a] + tried, [free] + got;
    DecidesMore(path, l.held.files, a, tried, got);
    assert tried1[1..] == tried && got1[1..] == got;
    var u := TakeOffer(path, l, a);
    assert u.active + Pick(tried, got, true) == l.active + Pick(tried1, got1, true);
    assert u.others + Pick(tried, got, false) == l.others + Pick(tried1, got1, false);
  }

  /** At every exit of ADR, after `n` of the offers: the addresses tried so far are the new active ones, which could
      be locked when they were tried, and the new others, which could not; both in the order of the offers. */
  lemma {:induction false} AdrSplits<A>(path: Naming<A>, l: Login<A>, offers: seq<Offer<A>>)
    returns (n: nat, got: seq<bool>)
    requires l.ok
    ensures n <= |offers| && Splits(path, l, Adr(path, l, offers), Tried(offers[..n]), got)
    ensures StopsAt(path, Adr(path, l, offers), offers, n)
    decreases |offers|
  {
    n, got := 0, [];
    assert offers[..0] == [];
    if offers != [] {
      var o := offers[0];
      var t := Adr(path, l, offers);
      if o.verdict.PassOver? {
        n, got := AdrSplits(path, l, offers[1..]);
        n := n + 1;
        assert offers[..n][1..] == offers[1..][..n - 1] && offers[..n][0] == o;
        assert Tried(offers[..n]) == Tried(offers[1..][..n - 1]);
      } else if o.verdict.Take? && (CanAdd(path, l.held.files, Flag(o.fa, false)) || !o.secure) {
        n, got := AdrSplits(path, TakeOffer(path, l, o.fa), offers[1..]);
        SplitsMore(path, l, t, o.fa, Tried(offers[1..][..n]), got);
        n, got := n + 1, [CanAdd(path, l.held.files, Flag(o.fa, false))] + got;
        assert offers[..n][1..] == offers[1..][..n - 1] && offers[..n][0] == o;
        assert Tried(offers[..n]) == [o.fa] + Tried(offers[1..][..n - 1]);
      }
    }
  }

  /** deinit_protocol */
  function Release<A(==)>(path: Naming<A>, h: Held<A>, active: seq<A>): Held<A>
    decreases |active|
  {
    if active == [] then h else Release(path, Remove(path, h, Flag(active[0], false)), active[1..])
  }

  /** Exactly the active addresses are released. */
  lemma {:induction false} ReleaseFrees<A(!new)>(path: Naming<A>, l: Login<A>, g: Flag<A>)
    requires Locked(path, l)
    ensures var t := Release(path, l.held, l.active);
      && Listed(path, t)
      && (Has(t.cells, g) <==> Has(l.held.cells, g) && !(!g.csy && g.fa in l.active))
      && t.files == l.held.files - set a | a in l.active :: path(Flag(a, false))
    decreases |l.active|
  {
    if l.active != [] {
      var a := l.active[0];
      var f := Flag(a, false);
      RemoveListed(path, l.held, f, g);
      var u := l.(active := l.active[1..], held := Remove(path, l.held, f));
      forall b | b in u.active ensures Has(u.held.cells, Flag(b, false)) {
        var j :| 0 <= j < |u.active| && u.active[j] == b;
        assert l.active[j + 1] == b;
        RemoveListed(path, l.held, f, Flag(b, false));
      }
      assert forall i, j :: 0 <= i < j < |u.active| ==>
        u.active[i] == l.active[i + 1] && u.active[j] == l.active[j + 1];
      ReleaseFrees(path, u, g);
    }
  }

  class Addresses<A(==)> {
    const bsy: BsyList<A>
    var fa: array<A>
    var nfa: nat
    var nallfa: nat

    constructor (bsy: BsyList<A>)
      ensures this.bsy == bsy && Valid() && nfa == nallfa == 0 && fresh(fa)
    {
      this.bsy := bsy;
      fa := new A[0];
      nfa, nallfa := 0, 0;
    }

    ghost predicate Valid() reads this { nfa <= nallfa == fa.Length }

    /** xrealloc, with one element more; what the new one holds does not matter. */
    method Grow(a: A)
      requires Valid()
      modifies this`fa, this`nallfa
      ensures Valid() && fresh(fa) && nallfa == old(nallfa) + 1 && fa[..nallfa - 1] == old(fa[..nallfa])
    {
      var n := nallfa;
      var was := fa;
      var now := new A[n + 1](i reads was => if 0 <= i < n && n == was.Length then was[i] else a);
      assert now[..n] == was[..n];
      fa, nallfa := now, n + 1;
    }

    /** An address is locked: it goes behind the other locked ones, and the rest moves up. */
    method AddActive(a: A)
      requires Valid()
      modifies this
      ensures Valid() && fresh(fa) && nfa == old(nfa) + 1 && nallfa == old(nallfa) + 1
      ensures fa[..nfa] == old(fa[..nfa]) + [a] && fa[nfa..nallfa] == old(fa[nfa..nallfa])
    {
      ghost var was, n := fa[..nallfa], nfa;
      Grow(a);
      nfa := nfa + 1;
      var j := nallfa - 1;
      while j >= nfa
        invariant n < nfa == n + 1 && nfa - 1 <= j < nallfa == fa.Length == |was| + 1 && fresh(fa)
        invariant forall i :: 0 <= i <= j && i < |was| ==> fa[i] == was[i]
        invariant forall i :: j < i < nallfa ==> fa[i] == was[i - 1]
      {
        fa[j] := fa[j - 1];
        j := j - 1;
      }
      fa[nfa - 1] := a;
    }

    /** An address that is busy. */
    method AddOther(a: A)
      requires Valid()
      modifies this
      ensures Valid() && fresh(fa) && nfa == old(nfa) && nallfa == old(nallfa) + 1
      ensures fa[..nfa] == old(fa[..nfa]) && fa[nfa..nallfa] == old(fa[nfa..nallfa]) + [a]
    {
      ghost var was := fa[..nallfa];
      Grow(a);
      fa[nallfa - 1] := a;
      assert fa[..nallfa - 1] == was;
    }

    ghost function State(ok: bool): Login<A>
      requires Valid()
      reads this, fa, bsy, bsy.disk
    {
      Login(fa[..nfa], fa[nfa..nallfa], bsy.State(), ok)
    }

    /** ADR */
    method ADR(offers: seq<Offer<A>>) returns (ok: bool)
      requires Valid()
      modifies this, bsy, bsy.disk
      ensures Valid() && State(ok) == Adr(bsy.path, old(State(true)), offers)
    {
      ghost var start := State(true);
      var i := 0;
      ok := true;
      assert offers[0..] == offers;
      while i < |offers|
        invariant i <= |offers| && Valid() && (fa == old(fa) || fresh(fa))
        invariant Adr(bsy.path, State(true), offers[i..]) == Adr(bsy.path, start, offers)
      {
        var o := offers[i];
        assert offers[i..][0] == o && offers[i..][1..] == offers[i + 1..];
        i := i + 1;
        if o.verdict.Drop? {
          return false;
        }
        if o.verdict.PassOver? {
          continue;
        }
        var got := bsy.BsyAdd(Flag(o.fa, false));
        if got {
          AddActive(o.fa);
        } else {
          if o.secure {
            return false;
          }
          AddOther(o.fa);
        }
      }
    }

    /** deinit_protocol */
    method Deinit()
      requires Valid()
      modifies bsy, bsy.disk
      ensures bsy.State() == Release(bsy.path, old(bsy.State()), old(fa[..nfa]))
    {
      ghost var all := fa[..nfa];
      var i := 0;
      assert all[0..] == all;
      while i < nfa
        invariant i <= nfa
        invariant Release(bsy.path, bsy.State(), all[i..]) == Release(bsy.path, old(bsy.State()), all)
      {
        assert all[i..][1..] == all[i + 1..];
        bsy.BsyRemove(Flag(fa[i], false));
        i := i + 1;
      }
    }
  }
}
