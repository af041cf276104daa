/** Reference-counted configurations: a reload puts a new one in place while running threads still hold older ones. */
module ConfigRefs {
  import opened Options

  type Addr = nat

  /** `gen` tells apart the configurations that have had the same address; `parsed` is lost when
      lock_config_structure puts the default values back. */
  datatype Config = Config(usage: int, gen: nat, parsed: bool)

  /** `heap`: what xalloc gave and free has not taken back; `freed`: the generations freed, in order;
      `fault`: some thread has used a configuration after it was freed. */
  datatype Store = Store(heap: map<Addr, Config>, current: Option<Addr>, gens: nat, freed: seq<nat>, fault: bool)

  // ---- atomic steps on the store ----

  datatype Op =
    | Touch(a: Addr)      // read a field
    | Inc(a: Addr)        // lock_config_structure
    | Dec(a: Addr)        // the count in unlock_config_structure
    | Free(a: Addr)       // the rest of unlock_config_structure
    | Load(a: Addr)       // readcfg: a copy of work_config, which has been locked once
    | Swap(a: Addr)       // checkcfg: the new configuration becomes current_config

  function Apply(s: Store, op: Op): Store {
    match op
    case Load(a) => if a in s.heap then s else s.(heap := s.heap[a := Config(1, s.gens, true)], gens := s.gens + 1)
    case Swap(a) => s.(current := Some(a))
    case _ =>
      if op.a !in s.heap then s.(fault := true) else
      var c := s.heap[op.a];
      match op
      case Inc(a) => s.(heap := s.heap[a := c.(usage := c.usage + 1, parsed := c.parsed && c.usage + 1 != 1)])
      case Dec(a) => s.(heap := s.heap[a := c.(usage := c.usage - 1)])
      case Free(a) => s.(heap := s.heap - {a}, freed := s.freed + [c.gen])
      case _ => s
  }

  // ---- threads ----

  datatype Thread =
    | Fresh                              // about to call lock_current_config
    | Uses(c: Addr)                      // runs with its configuration
    | Spawning(c: Addr)                  // do_client: locked once more for the thread to come
    | Checking(c: Addr, seen: Addr)      // checkcfg: has read current_config and not locked it
    | Loaded(c: Addr, new_: Addr)        // checkcfg: readcfg has succeeded
    | Swapped(c: Addr, old_: Addr)       // checkcfg: the old configuration is still counted
    | Reread(c: Addr, now: Addr)         // do_server: rescan_delay of the new configuration
    | Freeing(a: Addr, next: Thread)     // unlock_config_structure: the count was zero
    | Ended

  /** How many counts on `a` belong to the thread. */
  function Refs(t: Thread, a: Addr): nat {
    match t
    case Fresh => 0
    case Ended => 0
    case Uses(c) => One(c, a)
    case Spawning(c) => 2 * One(c, a)
    case Checking(c, _) => One(c, a)
    case Loaded(c, n) => One(c, a) + One(n, a)
    case Swapped(c, o) => One(c, a) + One(o, a)
    case Reread(c, n) => One(c, a) + One(n, a)
    case Freeing(_, next) => Refs(next, a)
  }

  function One(c: Addr, a: Addr): nat { if c == a then 1 else 0 }

  /** Counts of zero that the thread has seen, and has not yet acted on. */
  function Frees(t: Thread, a: Addr): nat {
    if t.Freeing? then One(t.a, a) + Frees(t.next, a) else 0
  }

  function Share(frees: bool, t: Thread, a: Addr): nat { if frees then Frees(t, a) else Refs(t, a) }

  function Total(frees: bool, ts: seq<Thread>, a: Addr): nat {
    if ts == [] then 0 else Total(frees, ts[..|ts| - 1], a) + Share(frees, ts[|ts| - 1], a)
  }

  /** How many counts on `a` belong to threads. */
  function Holders(ts: seq<Thread>, a: Addr): nat { Total(false, ts, a) }

  /** Threads: 0 is clientmgr, 1 is servmgr, the others are sessions. */
  datatype Sys = Sys(store: Store, threads: seq<Thread>)

  const CLIENT := 0
  const SERVER := 1

  /** Only the main thread calls checkcfg. */
  function Reloader(serverFlag: bool): nat { if serverFlag then SERVER else CLIENT }

  datatype Label = Label(i: nat, y: Thread, spawned: seq<Thread>, op: Op)

  /** What follows a decrement. */
  function Dropped(s: Store, a: Addr, next: Thread): Thread {
    if a in s.heap && s.heap[a].usage == 1 then Freeing(a, next) else next
  }

  /** The thread's next step may be this one. */
  ghost predicate CanStep(serverFlag: bool, s: Store, i: nat, x: Thread, l: Label) {
    match x
    case Fresh => s.current.Some? && l == Label(i, Uses(s.current.value), [], Inc(s.current.value))
    case Uses(c) =>
      || l == Label(i, x, [], Touch(c))
      // clientmgr: config != current_config; servmgr: do_server has returned
      || (i <= SERVER && (i == CLIENT ==> s.current != Some(c)) && l == Label(i, Dropped(s, c, Fresh), [], Dec(c)))
      // a session ends, a manager stops
      || l == Label(i, Dropped(s, c, Ended), [], Dec(c))
      // do_client is about to start a session
      || (i == CLIENT && l == Label(i, Spawning(c), [], Inc(c)))
      // do_server starts a session, which finds its configuration itself
      || (i == SERVER && l == Label(i, x, [Fresh], Touch(c)))
      || (i == SERVER && s.current.Some? && l == Label(i, Reread(c, s.current.value), [], Inc(s.current.value)))
      || (i == Reloader(serverFlag) && s.current.Some? && l == Label(i, Checking(c, s.current.value), [], Touch(c)))
    case Spawning(c) =>
      || l == Label(i, Uses(c), [Uses(c)], Touch(c))
      || l == Label(i, Dropped(s, c, Uses(c)), [], Dec(c))
    case Checking(c, seen) =>
      || l == Label(i, x, [], Touch(seen))
      || l == Label(i, Uses(c), [], Touch(seen))
      || (l.op.Load? && l.op.a !in s.heap && l == Label(i, Loaded(c, l.op.a), [], l.op))
    case Loaded(c, n) => s.current.Some? && l == Label(i, Swapped(c, s.current.value), [], Swap(n))
    case Swapped(c, o) => l == Label(i, Dropped(s, o, Uses(c)), [], Dec(o))
    case Reread(c, n) => l == Label(i, x, [], Touch(n)) || l == Label(i, Dropped(s, n, Uses(c)), [], Dec(n))
    case Freeing(a, next) => l == Label(i, next, [], Free(a))
    case Ended => false
  }

  ghost predicate Next(serverFlag: bool, s: Sys, l: Label, t: Sys) {
    && l.i < |s.threads|
    && CanStep(serverFlag, s.store, l.i, s.threads[l.i], l)
    && t == Sys(Apply(s.store, l.op), s.threads[l.i := l.y] + l.spawned)
  }

  /** The first configuration has been read, and no manager runs yet. */
  predicate Starts(s: Sys) {
    && (exists a | a in s.store.heap :: s.store == Store(map[a := Config(1, 0, true)], Some(a), 1, [], false))
    && |s.threads| == 2
    && (forall i :: 0 <= i < 2 ==> s.threads[i] in {Fresh, Ended})
  }

  // ---- counting ----

  lemma {:induction false} TotalSet(frees: bool, ts: seq<Thread>, i: nat, y: Thread, a: Addr)
    requires i < |ts|
    ensures Total(frees, ts[i := y], a) == Total(frees, ts, a) - Share(frees, ts[i], a) + Share(frees, y, a)
    ensures Share(frees, ts[i], a) <= Total(frees, ts, a)
  {
    var n := |ts| - 1;
    if i < n {
      TotalSet(frees, ts[..n], i, y, a);
      assert ts[i := y][..n] == ts[..n][i := y];
    } else {
      assert ts[i := y][..n] == ts[..n];
    }
  }

  lemma TotalAdd(frees: bool, ts: seq<Thread>, us: seq<Thread>, a: Addr)
    requires |us| <= 1
    ensures Total(frees, ts + us, a) == Total(frees, ts, a) + Total(frees, us, a)
  {
    if us == [] {
      assert ts + us == ts;
    } else {
      assert (ts + us)[..|ts|] == ts && us[..0] == [];
      assert Total(frees, us, a) == Total(frees, [], a) + Share(frees, us[0], a);
    }
  }

  lemma StepTotal(frees: bool, ts: seq<Thread>, l: Label, a: Addr)
    requires l.i < |ts| && |l.spawned| <= 1
    ensures Total(frees, ts[l.i := l.y] + l.spawned, a)
      == Total(frees, ts, a) - Share(frees, ts[l.i], a) + Share(frees, l.y, a) + Total(frees, l.spawned, a)
  {
    TotalSet(frees, ts, l.i, l.y, a);
    TotalAdd(frees, ts[l.i := l.y], l.spawned, a);
  }

  // ---- the invariant ----

  function Usage(s: Store, a: Addr): int { if a in s.heap then s.heap[a].usage else 0 }

  function Current(s: Store, a: Addr): nat { if s.current == Some(a) then 1 else 0 }

  /** usageCount is the number of holders, plus one for current_config. */
  ghost predicate Counted(s: Sys) {
    forall a :: Usage(s.store, a) == Holders(s.threads, a) + Current(s.store, a)
  }

  /** A configuration with no count left is about to be freed, by one thread and once. */
  ghost predicate Pending(s: Sys) {
    forall a :: Total(true, s.threads, a) == if a in s.store.heap && s.store.heap[a].usage == 0 then 1 else 0
  }

  /** Only the main thread reloads, so what it has read from current_config stays current. */
  ghost predicate OneReloader(serverFlag: bool, s: Sys) {
    && (forall i :: 0 <= i < |s.threads| && i != Reloader(serverFlag) ==> !Reloading(s.threads[i]))
    && (forall i :: 0 <= i < |s.threads| && s.threads[i].Checking? ==> s.store.current == Some(s.threads[i].seen))
    && (forall i :: 0 <= i < |s.threads| && s.threads[i].Freeing? ==> Rests(s.threads[i].next))
  }

  predicate Reloading(t: Thread) { t.Checking? || t.Loaded? || t.Swapped? }

  /** What a thread goes on with after unlock_config_structure. */
  predicate Rests(t: Thread) { t.Fresh? || t.Ended? || t.Uses? }

  /** Every configuration ever read is in memory or has been freed once. */
  ghost predicate Kept(s: Store) {
    && (forall a :: a in s.heap ==> s.heap[a].gen < s.gens && s.heap[a].gen !in s.freed && s.heap[a].parsed)
    && (forall a, b :: a in s.heap && b in s.heap && a != b ==> s.heap[a].gen != s.heap[b].gen)
    && (forall i, j :: 0 <= i < j < |s.freed| ==> s.freed[i] != s.freed[j])
    && (forall i :: 0 <= i < |s.freed| ==> s.freed[i] < s.gens)
    && (forall g: nat :: g < s.gens ==> g in s.freed || InMemory(s, g))
  }

  ghost predicate InMemory(s: Store, g: nat) { exists a :: a in s.heap && s.heap[a].gen == g }

  ghost predicate Inv(serverFlag: bool, s: Sys) {
    && !s.store.fault && s.store.current.Some? && |s.threads| >= 2
    && Counted(s) && Pending(s) && OneReloader(serverFlag, s) && Kept(s.store)
  }

  // ---- one step ----

  /** What the next operation touches is in memory; a count goes up only from one that is above zero, and so no
      configuration is reset to the defaults; what is freed is held by nobody. */
  lemma StepIsSafe(serverFlag: bool, s: Sys, l: Label)
    requires Inv(serverFlag, s) && l.i < |s.threads| && CanStep(serverFlag, s.store, l.i, s.threads[l.i], l)
    ensures |l.spawned| <= 1
    ensures !l.op.Load? ==> l.op.a in s.store.heap
    ensures l.op.Load? ==> l.op.a !in s.store.heap
    ensures l.op.Inc? || l.op.Dec? || l.op.Swap? ==> s.store.heap[l.op.a].usage >= 1
    ensures l.op.Free? ==> s.store.heap[l.op.a].usage == 0
    ensures l.op.Free? ==> Holders(s.threads, l.op.a) == 0 && s.store.current != Some(l.op.a)
  {
    var x := s.threads[l.i];
    var a := l.op.a;
    TotalSet(false, s.threads, l.i, x, a);
    TotalSet(true, s.threads, l.i, x, a);
    assert Usage(s.store, a) == Holders(s.threads, a) + Current(s.store, a);
  }

  lemma SpawnedTotal(frees: bool, us: seq<Thread>, a: Addr)
    requires |us| <= 1
    ensures Total(frees, us, a) == if us == [] then 0 else Share(frees, us[0], a)
  {
    if us != [] {
      assert us[..0] == [];
      assert Total(frees, us, a) == Total(frees, [], a) + Share(frees, us[0], a);
    }
  }

  lemma OpCounts(s: Store, op: Op, a: Addr)
    requires Sound(s, op)
    ensures var t := Apply(s, op);
      && Current(t, a) == (if op.Swap? then One(op.a, a) else Current(s, a))
      && Usage(t, a) == Usage(s, a)
        + (if op.Inc? || op.Load? then One(op.a, a) else 0) - (if op.Dec? then One(op.a, a) else 0)
        - (if op.Free? then Usage(s, op.a) * One(op.a, a) else 0)
  {
  }

  /** How the counts that belong to threads change with an operation. */
  function Moved(s: Store, op: Op, a: Addr): int {
    match op
    case Inc(b) => One(b, a)
    case Load(b) => One(b, a)
    case Dec(b) => 0 - One(b, a)
    case Swap(b) => Current(s, a) - One(b, a)
    case _ => 0
  }

  lemma ThreadCounts(serverFlag: bool, s: Store, x: Thread, l: Label, a: Addr)
    requires CanStep(serverFlag, s, l.i, x, l)
    ensures |l.spawned| <= 1
    ensures Refs(l.y, a) + Total(false, l.spawned, a) - Refs(x, a) == Moved(s, l.op, a)
  {
    assert |l.spawned| <= 1;
    SpawnedTotal(false, l.spawned, a);
  }

  /** The counts of the threads and of current_config change as the stored count does. */
  lemma StepCounts(serverFlag: bool, s: Sys, l: Label, a: Addr)
    requires Inv(serverFlag, s) && l.i < |s.threads| && CanStep(serverFlag, s.store, l.i, s.threads[l.i], l)
    ensures |l.spawned| <= 1
    ensures var x, t := s.threads[l.i], Apply(s.store, l.op);
      Usage(t, a) - Current(t, a) - Refs(l.y, a) - Total(false, l.spawned, a)
        == Usage(s.store, a) - Current(s.store, a) - Refs(x, a)
  {
    assert Sound(s.store, l.op) && (l.op.Free? ==> Usage(s.store, l.op.a) == 0) by { StepIsSafe(serverFlag, s, l); }
    ThreadCounts(serverFlag, s.store, s.threads[l.i], l, a);
    OpCounts(s.store, l.op, a);
  }

  lemma ThreadFrees(serverFlag: bool, s: Store, x: Thread, l: Label, a: Addr)
    requires CanStep(serverFlag, s, l.i, x, l) && Sound(s, l.op) && (l.op.Free? ==> s.heap[l.op.a].usage == 0)
    requires forall b :: b in s.heap ==> s.heap[b].usage >= 0
    ensures |l.spawned| <= 1
    ensures Frees(l.y, a) + Total(true, l.spawned, a) - Frees(x, a) == Empty(Apply(s, l.op), a) - Empty(s, a)
  {
    assert |l.spawned| <= 1;
    SpawnedTotal(true, l.spawned, a);
  }

  lemma StepFrees(serverFlag: bool, s: Sys, l: Label, a: Addr)
    requires Inv(serverFlag, s) && l.i < |s.threads| && CanStep(serverFlag, s.store, l.i, s.threads[l.i], l)
    ensures |l.spawned| <= 1
    ensures var x, t := s.threads[l.i], Apply(s.store, l.op);
      Frees(l.y, a) + Total(true, l.spawned, a) - Frees(x, a) == Empty(t, a) - Empty(s.store, a)
  {
    assert Sound(s.store, l.op) && (l.op.Free? ==> s.store.heap[l.op.a].usage == 0) by { StepIsSafe(serverFlag, s, l); }
    forall b | b in s.store.heap ensures s.store.heap[b].usage >= 0 { assert Usage(s.store, b) >= 0; }
    ThreadFrees(serverFlag, s.store, s.threads[l.i], l, a);
  }

  function Empty(s: Store, a: Addr): nat { if a in s.heap && s.heap[a].usage == 0 then 1 else 0 }

  lemma StepKeeps(serverFlag: bool, s: Sys, l: Label)
    requires Inv(serverFlag, s) && l.i < |s.threads| && CanStep(serverFlag, s.store, l.i, s.threads[l.i], l)
    ensures Kept(Apply(s.store, l.op)) && !Apply(s.store, l.op).fault && Apply(s.store, l.op).current.Some?
  {
    StepIsSafe(serverFlag, s, l);
    OpKeeps(s.store, l.op);
  }

  /** An operation on a configuration in memory, or a new one. */
  ghost predicate Sound(s: Store, op: Op) {
    if op.Load? then op.a !in s.heap else op.a in s.heap && (op.Inc? || op.Dec? ==> s.heap[op.a].usage >= 1)
  }

  lemma OpKeeps(s: Store, op: Op)
    requires Kept(s) && Sound(s, op)
    ensures Kept(Apply(s, op)) && Apply(s, op).fault == s.fault
  {
    match op
    case Load(a) => LoadKeeps(s, a);
    case Free(a) => FreeKeeps(s, a);
    case _ => SameGens(s, Apply(s, op));
  }

  lemma SameGens(s: Store, t: Store)
    requires Kept(s) && t.freed == s.freed && t.gens == s.gens && t.heap.Keys == s.heap.Keys
    requires forall a :: a in s.heap ==> t.heap[a].gen == s.heap[a].gen && t.heap[a].parsed
    ensures Kept(t)
  {
    forall g: nat | g < t.gens ensures g in t.freed || InMemory(t, g) {
      if g !in s.freed {
        var a :| a in s.heap && s.heap[a].gen == g;
        assert a in t.heap;
      }
    }
  }

  lemma LoadKeeps(s: Store, a: Addr)
    requires Kept(s) && a !in s.heap
    ensures Kept(Apply(s, Load(a)))
  {
    var t := Apply(s, Load(a));
    forall g: nat | g < t.gens ensures g in t.freed || InMemory(t, g) {
      if g == s.gens {
        assert t.heap[a].gen == g;
      } else if g !in s.freed {
        var b :| b in s.heap && s.heap[b].gen == g;
        assert t.heap[b].gen == g;
      }
    }
  }

  lemma FreeKeeps(s: Store, a: Addr)
    requires Kept(s) && a in s.heap
    ensures Kept(Apply(s, Free(a)))
  {
    var t := Apply(s, Free(a));
    assert t.freed[|s.freed|] == s.heap[a].gen;
    assert forall i :: 0 <= i < |s.freed| ==> t.freed[i] == s.freed[i];
    forall g: nat | g < t.gens ensures g in t.freed || InMemory(t, g) {
      if g !in s.freed {
        var b :| b in s.heap && s.heap[b].gen == g;
        assert b == a || b in t.heap;
      }
    }
  }

  lemma ThreadReloads(serverFlag: bool, s: Store, x: Thread, l: Label)
    requires CanStep(serverFlag, s, l.i, x, l) && (x.Freeing? ==> Rests(x.next))
    ensures |l.spawned| <= 1 && forall u :: u in l.spawned ==> !Reloading(u) && !u.Freeing?
    ensures Reloading(x) || Reloading(l.y) ==>
      l.i == Reloader(serverFlag) || (l.i != Reloader(serverFlag) && Reloading(x))
    ensures l.op.Swap? ==> Reloading(x) && !l.y.Checking?
    ensures l.y.Freeing? ==> Rests(l.y.next)
    ensures l.y.Checking? ==> if x.Checking? then l.y == x else s.current == Some(l.y.seen)
  {
  }

  lemma StepReloader(serverFlag: bool, s: Sys, l: Label, t: Sys)
    requires OneReloader(serverFlag, s) && Next(serverFlag, s, l, t)
    ensures OneReloader(serverFlag, t)
  {
    var x := s.threads[l.i];
    ThreadReloads(serverFlag, s.store, x, l);
    assert !l.op.Swap? ==> t.store.current == s.store.current;
    assert forall k :: |s.threads| <= k < |t.threads| ==> t.threads[k] in l.spawned;
    assert forall k :: 0 <= k < |s.threads| ==> t.threads[k] == if k == l.i then l.y else s.threads[k];
  }

  /** Every step of every thread keeps the invariant. */
  lemma NextInv(serverFlag: bool, s: Sys, l: Label, t: Sys)
    requires Inv(serverFlag, s) && Next(serverFlag, s, l, t)
    ensures Inv(serverFlag, t)
  {
    StepKeeps(serverFlag, s, l);
    StepReloader(serverFlag, s, l, t);
    forall a ensures Usage(t.store, a) == Holders(t.threads, a) + Current(t.store, a) {
      StepCounts(serverFlag, s, l, a);
      StepTotal(false, s.threads, l, a);
    }
    forall a ensures Total(true, t.threads, a) == Empty(t.store, a) {
      StepFrees(serverFlag, s, l, a);
      StepTotal(true, s.threads, l, a);
    }
  }

  // ---- over whole runs ----

  ghost predicate Run(serverFlag: bool, ss: seq<Sys>, ls: seq<Label>) {
    && |ss| == |ls| + 1 && Starts(ss[0])
    && forall k :: 0 <= k < |ls| ==> Next(serverFlag, ss[k], ls[k], ss[k + 1])
  }

  lemma StartInv(serverFlag: bool, s: Sys)
    requires Starts(s)
    ensures Inv(serverFlag, s)
  {
    var c :| c in s.store.heap && s.store == Store(map[c := Config(1, 0, true)], Some(c), 1, [], false);
    forall a, frees ensures Total(frees, s.threads, a) == 0 {
      assert Total(frees, s.threads, a) == Total(frees, s.threads[..1], a) + Share(frees, s.threads[1], a);
      assert Total(frees, s.threads[..1], a) == Total(frees, s.threads[..1][..0], a) + Share(frees, s.threads[0], a);
    }
    assert s.store.heap[c].gen == 0;
    assert InMemory(s.store, 0);
  }

  /** In every state of every run usageCount is the number of holders plus one for current_config; a configuration
      with a holder is in memory with the values read from the file; each generation is in memory or was freed, never
      both and never twice; and nothing freed is ever used. */
  lemma {:induction false} CountedAlways(serverFlag: bool, ss: seq<Sys>, ls: seq<Label>, n: nat)
    requires Run(serverFlag, ss, ls) && n < |ss|
    ensures Inv(serverFlag, ss[n])
    ensures forall a :: Holders(ss[n].threads, a) > 0 ==> a in ss[n].store.heap && ss[n].store.heap[a].parsed
  {
    if n == 0 {
      StartInv(serverFlag, ss[0]);
    } else {
      CountedAlways(serverFlag, ss, ls, n - 1);
      NextInv(serverFlag, ss[n - 1], ls[n - 1], ss[n]);
    }
    var s := ss[n];
    forall a | Holders(s.threads, a) > 0 ensures a in s.store.heap && s.store.heap[a].parsed {
      assert Usage(s.store, a) == Holders(s.threads, a) + Current(s.store, a);
    }
  }

  /** A configuration that a thread holds is the same one after any step of any thread: its address is not given to
      another. */
  lemma HeldStays(serverFlag: bool, s: Sys, l: Label, t: Sys, a: Addr)
    requires Inv(serverFlag, s) && Next(serverFlag, s, l, t) && Holders(s.threads, a) > 0
    ensures a in t.store.heap && t.store.heap[a].gen == s.store.heap[a].gen
  {
    StepIsSafe(serverFlag, s, l);
    assert Usage(s.store, a) == Holders(s.threads, a) + Current(s.store, a);
  }

  /** ... and so for as long as some thread holds it, over any part of a run. */
  lemma {:induction false} HeldIsSame(serverFlag: bool, ss: seq<Sys>, ls: seq<Label>, m: nat, n: nat, a: Addr)
    requires Run(serverFlag, ss, ls) && m <= n < |ss|
    requires forall k :: m <= k <= n ==> Holders(ss[k].threads, a) > 0
    ensures a in ss[m].store.heap && a in ss[n].store.heap && ss[n].store.heap[a].gen == ss[m].store.heap[a].gen
  {
    if m == n {
      CountedAlways(serverFlag, ss, ls, n);
    } else {
      HeldIsSame(serverFlag, ss, ls, m, n - 1, a);
      assert Inv(serverFlag, ss[n - 1]) by { CountedAlways(serverFlag, ss, ls, n - 1); }
      HeldStays(serverFlag, ss[n - 1], ls[n - 1], ss[n], a);
    }
  }

  /** Nothing leaks: when every thread is between two uses, only the current configuration is in memory. */
  lemma NothingLeaks(serverFlag: bool, s: Sys)
    requires Inv(serverFlag, s)
    requires forall i :: 0 <= i < |s.threads| ==> s.threads[i].Fresh? || s.threads[i].Ended?
    ensures s.store.heap.Keys == {s.store.current.value} && s.store.heap[s.store.current.value].usage == 1
  {
    forall a, frees ensures Total(frees, s.threads, a) == 0 {
      IdleTotal(frees, s.threads, a);
    }
    forall a: Addr ensures a in s.store.heap <==> Some(a) == s.store.current {
      assert Usage(s.store, a) == Holders(s.threads, a) + Current(s.store, a);
      assert Total(true, s.threads, a) == 0;
    }
    assert Usage(s.store, s.store.current.value) == 1;
  }

  lemma {:induction false} IdleTotal(frees: bool, ts: seq<Thread>, a: Addr)
    requires forall i :: 0 <= i < |ts| ==> ts[i].Fresh? || ts[i].Ended?
    ensures Total(frees, ts, a) == 0
  {
    if ts != [] {
      IdleTotal(frees, ts[..|ts| - 1], a);
    }
  }

  // ---- the functions themselves ----

  /** The configurations of the process, as readcfg.c keeps them. */
  class Configs {
    var heap: map<Addr, Config>
    var current: Option<Addr>
    var gens: nat
    ghost var freed: seq<nat>
    ghost var fault: bool

    ghost function State(): Store reads this { Store(heap, current, gens, freed, fault) }

    method LockConfigStructure(a: Addr)
      requires a in heap
      modifies this
      ensures State() == Apply(old(State()), Inc(a))
    {
      var c := heap[a];
      c := c.(usage := c.usage + 1);
      if c.usage == 1 {
        c := c.(parsed := false);
      }
      heap := heap[a := c];
    }

    method UnlockConfigStructure(a: Addr)
      requires a in heap
      modifies this
      ensures var s := Apply(old(State()), Dec(a));
        State() == if s.heap[a].usage == 0 then Apply(s, Free(a)) else s
    {
      var usage := heap[a].usage - 1;
      heap := heap[a := heap[a].(usage := usage)];
      if usage == 0 {
        freed := freed + [heap[a].gen];
        heap := heap - {a};
      }
    }

    method LockCurrentConfig() returns (ret: Option<Addr>)
      requires current.Some? ==> current.value in heap
      modifies this
      ensures ret == old(current)
      ensures State() == if ret.Some? then Apply(old(State()), Inc(ret.value)) else old(State())
    {
      ret := current;
      if ret.Some? {
        LockConfigStructure(ret.value);
      }
    }

    /** checkcfg from readcfg on; `a` is the address of the new configuration, None when there are errors in the
        file. */
    method Reload(a: Option<Addr>) returns (done: bool)
      requires current.Some? && current.value in heap
      requires a.Some? ==> a.value !in heap
      modifies this
      ensures done <==> a.Some?
      ensures !done ==> State() == old(State())
      ensures done ==> current == a && a.value in heap && heap[a.value] == Config(1, old(gens), true)
      // a configuration held by nobody goes; one that is held stays until its last holder unlocks it
      ensures done ==> var (o, new_) := (old(current.value), Config(1, old(gens), true));
        if old(heap)[o].usage == 1 then
          && heap.Keys == old(heap).Keys - {o} + {a.value}
          && freed == old(freed) + [old(heap)[o].gen]
        else
          && heap == old(heap)[o := old(heap)[o].(usage := old(heap)[o].usage - 1)][a.value := new_]
          && freed == old(freed)
    {
      if a.None? {
        return false;
      }
      heap := heap[a.value := Config(1, gens, true)];
      gens := gens + 1;
      var oldConfig := current;
      current := a;
      UnlockConfigStructure(oldConfig.value);
      return true;
    }
  }
}
