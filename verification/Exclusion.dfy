/** Any number of processes and sessions on one disk. */
module Exclusion {
  import opened Options
  import opened Locks

  /** A session of a process, and the addresses that it has locked and not yet released. */
  datatype Session<A> = Session(proc: nat, active: seq<A>)

  datatype Sys<A> = Sys(files: set<string>, lists: map<nat, seq<Option<Flag<A>>>>, sessions: seq<Session<A>>)

  datatype Label<A> =
    | Open(proc: nat)                    // a session starts
    | Lock(i: nat, a: A)                 // one round of ADR
    | Unlock(i: nat)                     // one round of deinit_protocol
    | Call(proc: nat, a: A)              // the client's own F_CSY flag
    | CallDone(proc: nat, a: A)
    | Die(proc: nat)                     // the process ends at once; its lock files stay

  function Cells<A>(s: Sys<A>, p: nat): seq<Option<Flag<A>>> { if p in s.lists then s.lists[p] else [] }

  function At<A>(s: Sys<A>, p: nat): Held<A> { Held(s.files, Cells(s, p)) }

  function Put<A>(s: Sys<A>, p: nat, h: Held<A>): Sys<A> { s.(files := h.files, lists := s.lists[p := h.cells]) }

  ghost predicate Next<A(!new)>(path: Naming<A>, s: Sys<A>, l: Label<A>, t: Sys<A>) {
    match l
    case Open(p) => t == s.(sessions := s.sessions + [Session(p, [])])
    case Lock(i, a) =>
      && i < |s.sessions|
      && var e, f := s.sessions[i], Flag(a, false);
        t == if CanAdd(path, s.files, f)
          then Put(s, e.proc, Add(path, At(s, e.proc), f))
          .(sessions := s.sessions[i := e.(active := e.active + [a])])
          else s
    case Unlock(i) =>
      && i < |s.sessions| && s.sessions[i].active != []
      && var e := s.sessions[i];
        t == Put(s, e.proc, Remove(path, At(s, e.proc), Flag(e.active[0], false)))
          .(sessions := s.sessions[i := e.(active := e.active[1..])])
    case Call(p, a) => t == Put(s, p, Add(path, At(s, p), Flag(a, true)))
    case CallDone(p, a) => t == Put(s, p, Remove(path, At(s, p), Flag(a, true)))
    case Die(p) => t == s.(lists := s.lists[p := []], sessions := Without(s.sessions, p))
  }

  /** The sessions after process `p` is gone. */
  function Without<A>(ss: seq<Session<A>>, p: nat): (r: seq<Session<A>>)
    ensures |r| == |ss|
    ensures forall i :: 0 <= i < |ss| ==> r[i] == if ss[i].proc == p then ss[i].(active := []) else ss[i]
  {
    seq(|ss|, i requires 0 <= i < |ss| => if ss[i].proc == p then ss[i].(active := []) else ss[i])
  }

  /** What each process holds, it alone holds. */
  ghost predicate Apart<A(!new)>(path: Naming<A>, s: Sys<A>) {
    && (forall p :: Listed(path, At(s, p)))
    && (forall p, q, f, g :: p != q && Has(Cells(s, p), f) && Has(Cells(s, q), g) ==> path(f) != path(g))
  }

  /** Address `a` is active in session `i`. */
  ghost predicate Active<A>(s: Sys<A>, i: int, a: A) { 0 <= i < |s.sessions| && a in s.sessions[i].active }

  /** What each session has locked is in the list of its process, and no other session of the process has locked it. */
  ghost predicate Owned<A(!new)>(s: Sys<A>) {
    && (forall i, a :: Active(s, i, a) ==> Has(Cells(s, s.sessions[i].proc), Flag(a, false)))
    && (forall i, j, a :: i != j && Active(s, i, a) && Active(s, j, a) ==> s.sessions[i].proc != s.sessions[j].proc)
    && (forall i, k, l :: 0 <= i < |s.sessions| && 0 <= k < l < |s.sessions[i].active| ==>
          s.sessions[i].active[k] != s.sessions[i].active[l])
  }

  /** A flag with a file of its own that some process holds. */
  lemma HasFile<A(!new)>(path: Naming<A>, h: Held<A>, f: Flag<A>)
    requires Listed(path, h) && Has(h.cells, f)
    ensures path(f) in h.files && path(f) != ""
    ensures forall g :: Has(h.cells, g) && g != f ==> path(g) != path(f)
  {
    var i :| 0 <= i < |h.cells| && h.cells[i] == Some(f);
    forall g | Has(h.cells, g) && g != f ensures path(g) != path(f) {
      var j :| 0 <= j < |h.cells| && h.cells[j] == Some(g);
    }
  }

  lemma SameCells<A(!new)>(path: Naming<A>, s: Sys<A>, t: Sys<A>)
    requires Apart(path, s) && t.files == s.files && forall q :: Cells(t, q) == Cells(s, q)
    ensures Apart(path, t)
  {
    forall q ensures Listed(path, At(t, q)) {
      assert Listed(path, At(s, q)) && At(t, q) == At(s, q);
    }
  }

  lemma AddCells<A(!new)>(path: Naming<A>, s: Sys<A>, p: nat, f: Flag<A>, q: nat, g: Flag<A>)
    ensures var t := Put(s, p, Add(path, At(s, p), f));
      Has(Cells(t, q), g) <==> Has(Cells(s, q), g) || (q == p && g == f && CanAdd(path, s.files, f))
  {
    PutCellHas(Cells(s, p), f, g);
  }

  lemma RemoveCells<A(!new)>(path: Naming<A>, s: Sys<A>, p: nat, f: Flag<A>, q: nat, g: Flag<A>)
    requires Listed(path, At(s, p))
    ensures var t := Put(s, p, Remove(path, At(s, p), f));
      Has(Cells(t, q), g) <==> Has(Cells(s, q), g) && !(q == p && g == f)
  {
    RemoveListed(path, At(s, p), f, g);
  }

  lemma AddApart<A(!new)>(path: Naming<A>, s: Sys<A>, p: nat, f: Flag<A>)
    requires Apart(path, s)
    ensures Apart(path, Put(s, p, Add(path, At(s, p), f)))
  {
    var t := Put(s, p, Add(path, At(s, p), f));
    AddListed(path, At(s, p), f);
    forall q ensures Listed(path, At(t, q)) {
      assert Listed(path, At(s, q));
    }
    forall q, r, g, h | q != r && Has(Cells(t, q), g) && Has(Cells(t, r), h) ensures path(g) != path(h) {
      AddCells(path, s, p, f, q, g);
      AddCells(path, s, p, f, r, h);
      if Has(Cells(s, q), g) { HasFile(path, At(s, q), g); }
      if Has(Cells(s, r), h) { HasFile(path, At(s, r), h); }
    }
  }

  lemma RemoveApart<A(!new)>(path: Naming<A>, s: Sys<A>, p: nat, f: Flag<A>)
    requires Apart(path, s)
    ensures Apart(path, Put(s, p, Remove(path, At(s, p), f)))
  {
    var t := Put(s, p, Remove(path, At(s, p), f));
    assert Listed(path, At(s, p));
    if !Has(Cells(s, p), f) {
      RemoveListed(path, At(s, p), f, f);
      SameCells(path, s, t);
    } else {
      HasFile(path, At(s, p), f);
      forall q ensures Listed(path, At(t, q)) {
        RemoveListed(path, At(s, p), f, f);
        if q != p {
          assert Listed(path, At(s, q));
          forall i | 0 <= i < |Cells(s, q)| && Cells(s, q)[i].Some? ensures path(Cells(s, q)[i].value) in t.files {
            assert Has(Cells(s, q), Cells(s, q)[i].value);
          }
        }
      }
      forall q, r, g, h | q != r && Has(Cells(t, q), g) && Has(Cells(t, r), h) ensures path(g) != path(h) {
        RemoveCells(path, s, p, f, q, g);
        RemoveCells(path, s, p, f, r, h);
      }
    }
  }

  /** An address whose flag can still be set is active in no session. */
  lemma NobodyHas<A(!new)>(path: Naming<A>, s: Sys<A>, j: int, a: A)
    requires Apart(path, s) && Owned(s) && CanAdd(path, s.files, Flag(a, false))
    ensures !Active(s, j, a)
  {
    if Active(s, j, a) {
      HasFile(path, At(s, s.sessions[j].proc), Flag(a, false));
    }
  }

  lemma LockOwned<A(!new)>(path: Naming<A>, s: Sys<A>, i: nat, a: A)
    requires Apart(path, s) && Owned(s) && i < |s.sessions| && CanAdd(path, s.files, Flag(a, false))
    ensures var e, f := s.sessions[i], Flag(a, false);
      Owned(Put(s, e.proc, Add(path, At(s, e.proc), f)).(sessions := s.sessions[i := e.(active := e.active + [a])]))
  {
    var e, f := s.sessions[i], Flag(a, false);
    var u := Put(s, e.proc, Add(path, At(s, e.proc), f));
    var t := u.(sessions := s.sessions[i := e.(active := e.active + [a])]);
    forall j, b | Active(t, j, b)
      ensures (Active(s, j, b) || (j == i && b == a)) && Has(Cells(t, t.sessions[j].proc), Flag(b, false)) {
      AddCells(path, s, e.proc, f, t.sessions[j].proc, Flag(b, false));
    }
    forall j ensures !Active(s, j, a) { NobodyHas(path, s, j, a); }
    assert Active(s, i, a) <==> a in e.active;
  }

  lemma UnlockOwned<A(!new)>(path: Naming<A>, s: Sys<A>, i: nat)
    requires Apart(path, s) && Owned(s) && i < |s.sessions| && s.sessions[i].active != []
    ensures var e := s.sessions[i];
      Owned(Put(s, e.proc, Remove(path, At(s, e.proc), Flag(e.active[0], false)))
        .(sessions := s.sessions[i := e.(active := e.active[1..])]))
  {
    var e := s.sessions[i];
    var a, f := e.active[0], Flag(e.active[0], false);
    var u := Put(s, e.proc, Remove(path, At(s, e.proc), f));
    var t := u.(sessions := s.sessions[i := e.(active := e.active[1..])]);
    assert Active(s, i, a) && Listed(path, At(s, e.proc));
    forall j, b | Active(t, j, b) ensures Active(s, j, b) && Has(Cells(t, t.sessions[j].proc), Flag(b, false)) {
      if j == i {
        var k :| 0 <= k < |e.active[1..]| && e.active[1..][k] == b;
        assert e.active[k + 1] == b;
      }
      RemoveCells(path, s, e.proc, f, t.sessions[j].proc, Flag(b, false));
    }
    forall j, k, l | 0 <= j < |t.sessions| && 0 <= k < l < |t.sessions[j].active|
      ensures t.sessions[j].active[k] != t.sessions[j].active[l] {
      if j == i {
        assert t.sessions[j].active[k] == e.active[k + 1] && t.sessions[j].active[l] == e.active[l + 1];
      }
    }
  }

  ghost predicate Inv<A(!new)>(path: Naming<A>, s: Sys<A>) { Apart(path, s) && Owned(s) }

  /** Flags that no session has as an active address come and go. */
  lemma StillOwned<A(!new)>(s: Sys<A>, t: Sys<A>)
    requires Owned(s) && t.sessions == s.sessions
    requires forall q, a :: Has(Cells(s, q), Flag(a, false)) ==> Has(Cells(t, q), Flag(a, false))
    ensures Owned(t)
  {
    assert forall j, b :: Active(t, j, b) <==> Active(s, j, b);
  }

  lemma CallKeeps<A(!new)>(path: Naming<A>, s: Sys<A>, p: nat, a: A)
    requires Inv(path, s)
    ensures Inv(path, Put(s, p, Add(path, At(s, p), Flag(a, true))))
  {
    var f := Flag(a, true);
    AddApart(path, s, p, f);
    var t := Put(s, p, Add(path, At(s, p), f));
    forall q, b | Has(Cells(s, q), Flag(b, false)) ensures Has(Cells(t, q), Flag(b, false)) {
      AddCells(path, s, p, f, q, Flag(b, false));
    }
    StillOwned(s, t);
  }

  lemma CallDoneKeeps<A(!new)>(path: Naming<A>, s: Sys<A>, p: nat, a: A)
    requires Inv(path, s)
    ensures Inv(path, Put(s, p, Remove(path, At(s, p), Flag(a, true))))
  {
    var f := Flag(a, true);
    assert Listed(path, At(s, p));
    RemoveApart(path, s, p, f);
    var t := Put(s, p, Remove(path, At(s, p), f));
    forall q, b | Has(Cells(s, q), Flag(b, false)) ensures Has(Cells(t, q), Flag(b, false)) {
      RemoveCells(path, s, p, f, q, Flag(b, false));
    }
    StillOwned(s, t);
  }

  lemma DieKeeps<A(!new)>(path: Naming<A>, s: Sys<A>, p: nat)
    requires Inv(path, s)
    ensures Inv(path, s.(lists := s.lists[p := []], sessions := Without(s.sessions, p)))
  {
    var t := s.(lists := s.lists[p := []], sessions := Without(s.sessions, p));
    forall q ensures Listed(path, At(t, q)) {
      assert Listed(path, At(s, q)) && (q != p ==> Cells(t, q) == Cells(s, q));
    }
    forall j, b | Active(t, j, b) ensures Active(s, j, b) && s.sessions[j].proc != p && t.sessions[j] == s.sessions[j] {
    }
    assert forall q, f :: Has(Cells(t, q), f) ==> q != p && Has(Cells(s, q), f);
  }

  lemma OpenKeeps<A(!new)>(path: Naming<A>, s: Sys<A>, p: nat)
    requires Inv(path, s)
    ensures Inv(path, s.(sessions := s.sessions + [Session(p, [])]))
  {
    var t := s.(sessions := s.sessions + [Session(p, [])]);
    forall q ensures Listed(path, At(t, q)) {
      assert Listed(path, At(s, q)) && At(t, q) == At(s, q);
    }
    assert forall q :: Cells(t, q) == Cells(s, q);
    assert forall j, b :: Active(t, j, b) ==> Active(s, j, b) && t.sessions[j] == s.sessions[j];
  }

  lemma NextInv<A(!new)>(path: Naming<A>, s: Sys<A>, l: Label<A>, t: Sys<A>)
    requires Inv(path, s) && Next(path, s, l, t)
    ensures Inv(path, t)
  {
    match l
    case Open(p) => OpenKeeps(path, s, p);
    case Lock(i, a) =>
      if CanAdd(path, s.files, Flag(a, false)) {
        AddApart(path, s, s.sessions[i].proc, Flag(a, false));
        LockOwned(path, s, i, a);
        SameCells(path, Put(s, s.sessions[i].proc, Add(path, At(s, s.sessions[i].proc), Flag(a, false))), t);
      }
    case Unlock(i) =>
      var f := Flag(s.sessions[i].active[0], false);
      RemoveApart(path, s, s.sessions[i].proc, f);
      UnlockOwned(path, s, i);
      SameCells(path, Put(s, s.sessions[i].proc, Remove(path, At(s, s.sessions[i].proc), f)), t);
    case Call(p, a) => CallKeeps(path, s, p, a);
    case CallDone(p, a) => CallDoneKeeps(path, s, p, a);
    case Die(p) => DieKeeps(path, s, p);
  }

  lemma OneOwner<A(!new)>(path: Naming<A>, s: Sys<A>, i: int, j: int, a: A)
    requires Inv(path, s) && i != j && Active(s, i, a)
    ensures !Active(s, j, a)
  {
    var f := Flag(a, false);
    var p := s.sessions[i].proc;
    assert Has(Cells(s, p), f);
    assert forall q :: q != p && Has(Cells(s, q), f) ==> path(f) != path(f);
  }

  /** No two sessions ever share an active address, in one process or in different ones, in any state of any run that
      starts without sessions. */
  lemma {:induction false} NeverShared<A(!new)>(path: Naming<A>, ss: seq<Sys<A>>, ls: seq<Label<A>>, n: nat)
    requires |ss| == |ls| + 1 && forall k :: 0 <= k < |ls| ==> Next(path, ss[k], ls[k], ss[k + 1])
    requires ss[0].lists == map[] && ss[0].sessions == [] && n < |ss|
    ensures Inv(path, ss[n])
    ensures forall i, j, a :: i != j && Active(ss[n], i, a) ==> !Active(ss[n], j, a)
  {
    if n > 0 {
      NeverShared(path, ss, ls, n - 1);
      NextInv(path, ss[n - 1], ls[n - 1], ss[n]);
    }
    var s := ss[n];
    forall i, j, a | i != j && Active(s, i, a) ensures !Active(s, j, a) {
      OneOwner(path, s, i, j, a);
    }
  }
}
