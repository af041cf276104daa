/** Where the pending link status has to be in the queue: a session keeps the file that it stands for if and only if
    no file that the receiver takes, or has, comes before it. */
module StatusOrder {
  import opened Options
  import opened Frames
  import S = Sender
  import R = Receiver
  import opened Session
  import opened Walk
  import E = ExactlyOnce
  import D = Disagreement

  ghost const ALLOWED: Rule := (s: Sys, l: Label) => E.Allowed(s, l)

  /** Between two files of the sender `a`: the queue, its disk, and what the receiver has not changed. */
  ghost predicate Poised(t: Sys, q: Option<seq<S.Entry>>, disk: S.Disk, r: R.Rcv) {
    && Sends(t.a.snd, q, disk) && Receives(t.b.rcv, r) && Idle(t.b.snd, t.a.rcv)
    && t.a.tx == [] && t.b.tx == []
    && t.a.bat == t.b.bat == Batch(true, false, false, t.a.bat.msgs, [])
  }

  ghost predicate Sends(s: S.Snd, q: Option<seq<S.Entry>>, disk: S.Disk) {
    && s.q == q && s.out.None? && s.sent == [] && s.mode == S.Mode(true, true) && s.disk == disk
    && !s.g.offReq && !s.g.waiting && !s.g.sendEof && !s.g.ndAddr
  }

  ghost predicate Receives(x: R.Rcv, r: R.Rcv) {
    && x.inn.None? && x.inComplete.None? && x.g.balance == 0 && x.g.theyND && !x.g.skipAll
    && x.masks == r.masks && x.disk == r.disk && x.hist == r.hist
  }

  /** The other direction: nothing to send, nothing being received. */
  ghost predicate Idle(s: S.Snd, r: R.Rcv) {
    s.q.None? && s.sent == [] && !Sending(s) && r.inn.None? && r.inComplete.None? && r.g.balance == 0
  }

  // ---- files before the status ----

  /** A file that is missing. */
  lemma Misses(z: Sys, t: Sys, q: seq<S.Entry>, disk: S.Disk, r: R.Rcv) returns (u: Sys)
    requires Reaches(ALLOWED, z, t) && Poised(t, Some(q), disk, r)
    requires q != [] && !q[0].status && q[0].k !in disk.spool
    ensures Reaches(ALLOWED, z, u) && Poised(u, Some(q[1..]), disk, r)
  {
    var x := S.Start(t.a.snd);
    u := Starts(ALLOWED, z, t, t.b.rcv, [], [], t.a.snd, x);
  }

  /** The file is offered: what the sender waits with. */
  lemma Asks(z: Sys, t: Sys, q: seq<S.Entry>, disk: S.Disk, r: R.Rcv) returns (u: Sys, s: S.Snd)
    requires Reaches(ALLOWED, z, t) && Poised(t, Some(q), disk, r)
    requires q != [] && !q[0].status && q[0].k in disk.spool
    ensures s.out == Some(S.TFile(q[0].k, false, Some(S.Handle(disk.spool[q[0].k], 0)))) && s.g.offReq
    ensures Sends(s.(out := None, g := s.g.(offReq := false)), Some(q[1..]), disk)
    ensures Reaches(ALLOWED, z, u) && Is(u, s, t.b.rcv, [MFile(q[0].k, -1, false)], []) && Counted(t, u, 1, 0)
  {
    var x := S.Start(t.a.snd);
    s := x.s;
    var offer := MFile(q[0].k, -1, false);
    assert x.tx == [offer] && [offer][1..] == [] && Msgs([offer]) == 1;
    u := Starts(ALLOWED, z, t, t.b.rcv, [], [], t.a.snd, x);
  }

  /** A file that the receiver skips. */
  lemma IsSkipped(z: Sys, t: Sys, q: seq<S.Entry>, disk: S.Disk, r: R.Rcv) returns (u: Sys)
    requires Reaches(ALLOWED, z, t) && Poised(t, Some(q), disk, r)
    requires q != [] && !q[0].status && q[0].k in disk.spool && E.Masked(r.masks, q[0].k)
    ensures Reaches(ALLOWED, z, u) && Poised(u, Some(q[1..]), disk, r)
  {
    var k := q[0].k;
    var s;
    u, s := Asks(z, t, q, disk, r);
    var x := R.File(t.b.rcv, k, -1, false, false);
    assert x.tx == [MSkip(k)] && [MSkip(k)][1..] == [];
    u := TakesFile(ALLOWED, z, u, t.b.rcv, [MFile(k, -1, false)], [], s, x);
    assert S.Without([], k) == [];
    u := TakesAnswer(ALLOWED, z, u, x.r, [], [MSkip(k)], s, S.Skip(s, k));
  }

  /** The status does not say `k` any more, and nothing else has changed that could save it. */
  ghost predicate Overwritten(u: Sys, disk: S.Disk, r: R.Rcv, k: Key) {
    && u.a.snd.disk.stc != Some(k) && (forall j :: j in u.a.snd.disk.spool ==> j in disk.spool)
    && u.b.rcv.masks == r.masks && u.b.rcv.hist == r.hist
  }

  /** A file that the receiver has, or throws away: its M_GOT clears the status. */
  lemma IsThere(z: Sys, t: Sys, q: seq<S.Entry>, disk: S.Disk, r: R.Rcv, k: Key) returns (u: Sys)
    requires Reaches(ALLOWED, z, t) && Poised(t, Some(q), disk, r)
    requires q != [] && !q[0].status && q[0].k in disk.spool && !E.Masked(r.masks, q[0].k)
    requires q[0].k in r.masks || PartOf(q[0].k) in r.disk.inbound
    ensures Reaches(ALLOWED, z, u) && Overwritten(u, disk, r, k)
  {
    var f := q[0].k;
    var s;
    u, s := Asks(z, t, q, disk, r);
    var x := R.File(t.b.rcv, f, -1, false, false);
    assert x.tx == [MGot(f)];
    u := TakesFile(ALLOWED, z, u, t.b.rcv, [MFile(f, -1, false)], [], s, x);
    u := TakesAnswer(ALLOWED, z, u, x.r, [], [MGot(f)], s, S.Got(s, f));
  }

  /** What the receiver makes of the offer of a new file, of the file, and of its last block. */
  ghost predicate Opens(x: R.Rcv, r: R.Rcv, f: Key, have: nat) {
    && x.inn == Some(R.In(f, false)) && x.inComplete.None? && x.g.theyND && |R.Part(x, f)| == have
    && x.masks == r.masks && x.hist == r.hist
  }

  /** The receiver asks for what it does not have of a new file. */
  lemma IsAsked(z: Sys, t: Sys, q: seq<S.Entry>, disk: S.Disk, r: R.Rcv)
    returns (u: Sys, s: S.Snd, x: R.Rcv, have: nat)
    requires Reaches(ALLOWED, z, t) && Poised(t, Some(q), disk, r)
    requires q != [] && !q[0].status && q[0].k in disk.spool
    requires q[0].k !in r.masks && PartOf(q[0].k) !in r.disk.inbound
    ensures s.out == Some(S.TFile(q[0].k, false, Some(S.Handle(disk.spool[q[0].k], 0)))) && s.g.offReq
    ensures Sends(s.(out := None, g := s.g.(offReq := false)), Some(q[1..]), disk)
    ensures Offering(x, r, q[0].k, have) && have <= q[0].k.size
    ensures Reaches(ALLOWED, z, u) && Is(u, s, x, [], [MGet(q[0].k, have)])
  {
    var f := q[0].k;
    u, s := Asks(z, t, q, disk, r);
    var y := R.File(t.b.rcv, f, -1, false, false);
    x, have := y.r, |R.Part(y.r, f)|;
    assert y.tx == [MGet(f, have)];
    u := TakesFile(ALLOWED, z, u, t.b.rcv, [MFile(f, -1, false)], [], s, y);
  }

  /** The receiver has asked for `f` from `have` on. */
  ghost predicate Offering(x: R.Rcv, r: R.Rcv, f: Key, have: nat) {
    && x.inn.None? && x.inComplete.None? && x.g.theyND && !x.g.skipAll && |R.Part(x, f)| == have
    && x.masks == r.masks && f !in x.masks && PartOf(f) !in x.disk.inbound && x.hist == r.hist
  }

  lemma FileOpens(x: R.Rcv, r: R.Rcv, f: Key, have: nat)
    requires Offering(x, r, f, have) && have <= f.size
    ensures var y := R.File(x, f, have, false, false); y.ok && y.tx == [] && Opens(y.r, r, f, have)
  {
  }

  lemma IsAgreed(z: Sys, t: Sys, q: seq<S.Entry>, disk: S.Disk, r: R.Rcv) returns (u: Sys, s: S.Snd, have: nat)
    requires Reaches(ALLOWED, z, t) && Poised(t, Some(q), disk, r)
    requires q != [] && !q[0].status && q[0].k in disk.spool
    requires q[0].k !in r.masks && PartOf(q[0].k) !in r.disk.inbound
    ensures have <= q[0].k.size
    ensures s.out == Some(S.TFile(q[0].k, false, Some(S.Handle(disk.spool[q[0].k], have))))
    ensures s.sent == [] && s.mode == S.Mode(true, true) && s.disk == disk && !s.g.offReq && !s.g.waiting
    ensures Reaches(ALLOWED, z, u) && Is(u, s, u.b.rcv, [], []) && Opens(u.b.rcv, r, q[0].k, have)
  {
    var f := q[0].k;
    var x;
    u, s, x, have := IsAsked(z, t, q, disk, r);
    var y := S.Get(s, f, have);
    assert y.tx == [MFile(f, have, false)];
    u := TakesAnswer(ALLOWED, z, u, x, [], [MGet(f, have)], s, y);
    s := y.s;
    FileOpens(x, r, f, have);
    u := TakesFile(ALLOWED, z, u, x, [MFile(f, have, false)], [], s, R.File(x, f, have, false, false));
  }

  /** The receiver has all of `f`. */
  lemma Completes(x: R.Rcv, r: R.Rcv, f: Key, have: nat, bytes: seq<Byte>)
    requires Opens(x, r, f, have) && have + |bytes| == f.size
    ensures var y := R.Data(x, bytes);
      y.ok && y.tx == [MGot(f)] && y.r.masks == r.masks && y.r.hist == r.hist && y.r.inn.None?
  {
  }

  /** The file is sent. */
  lemma Sends1(s: S.Snd, f: Key, bytes: seq<Byte>, have: nat)
    requires s.out == Some(S.TFile(f, false, Some(S.Handle(bytes, have)))) && have <= f.size == |bytes|
    requires s.sent == [] && s.mode == S.Mode(true, true) && !s.g.offReq && !s.g.waiting
    ensures S.CanBlock(s)
    ensures var x := S.Block(s, f.size + 1);
      && x.ok && x.tx == [Data(bytes[have..f.size])] && x.s.out.None? && x.s.sent == [S.TFile(f, false, None)]
      && x.s.disk == s.disk && x.s.mode == s.mode && !x.s.g.offReq
  {
  }

  /** A new file: its M_GOT makes it the link status. */
  lemma IsNew(z: Sys, t: Sys, q: seq<S.Entry>, disk: S.Disk, r: R.Rcv, k: Key) returns (u: Sys)
    requires Reaches(ALLOWED, z, t) && Poised(t, Some(q), disk, r)
    requires q != [] && !q[0].status && q[0].k in disk.spool && |disk.spool[q[0].k]| == q[0].k.size
    requires q[0].k !in r.masks && PartOf(q[0].k) !in r.disk.inbound && k != q[0].k
    ensures Reaches(ALLOWED, z, u) && Overwritten(u, disk, r, k) && u.a.snd.disk.stc == Some(q[0].k)
  {
    var f, s, have := q[0].k, t.a.snd, 0;
    u, s, have := IsAgreed(z, t, q, disk, r);
    var r1 := u.b.rcv;
    Sends1(s, f, disk.spool[f], have);
    var x := S.Block(s, f.size + 1);
    u := SendsBlock(ALLOWED, z, u, r1, [], [], s, f.size + 1, x);
    var bytes := disk.spool[f][have..f.size];
    Completes(r1, r, f, have, bytes);
    var y := R.Data(r1, bytes);
    u := TakesFile(ALLOWED, z, u, r1, [Data(bytes)], [], x.s, y);
    u := TakesAnswer(ALLOWED, z, u, y.r, [], [MGot(f)], x.s, S.Got(x.s, f));
  }

  // ---- a session without the status ----

  /** Both peers send M_EOB and take the other's. */
  lemma Eobs(z: Sys, s: Sys) returns (t: Sys)
    requires Reaches(ALLOWED, z, s) && D.Quiet(s.a) && D.Quiet(s.b) && s.a.tx == [] && s.b.tx == []
    requires s.a.bat == s.b.bat == Batch(true, false, false, s.a.bat.msgs, s.a.bat.ends)
    ensures Reaches(ALLOWED, z, t) && t.a.tx == [] && t.b.tx == []
    ensures t.a == s.a.(bat := t.a.bat) && t.b == s.b.(bat := t.b.bat)
    ensures t.a.bat == t.b.bat == Batch(true, true, true, s.a.bat.msgs + 2, s.a.bat.ends)
  {
    D.EobSent(s.a, s.b.tx);
    t := GoA(ALLOWED, z, s, SendEob);
    D.EobSent(t.b, t.a.tx);
    t := GoB(ALLOWED, z, t, SendEob);
    assert t.a.tx == [MEob] && t.b.tx == [MEob];
    D.EobTaken(t.a, t.b.tx);
    t := GoA(ALLOWED, z, t, Recv(false));
    D.EobTaken(t.b, t.a.tx);
    t := GoB(ALLOWED, z, t, Recv(false));
    assert t.a.tx == [] && t.b.tx == [];
  }

  /** The batch that ends after the files: at most one more follows, and the session ends with success. */
  lemma Withheld(z: Sys, t: Sys, disk: S.Disk, r: R.Rcv) returns (u: Sys)
    requires Reaches(ALLOWED, z, t) && Poised(t, None, disk, r)
    ensures Reaches(ALLOWED, z, u) && u.a.snd.disk.spool == disk.spool
    ensures u.b.rcv.masks == r.masks && u.b.rcv.hist == r.hist && u.b.rcv.disk.parts == map[]
  {
    u := Eobs(z, t);
    if t.a.bat.msgs > 0 {
      D.BatchEnded(u.a, u.b.tx);
      u := GoA(ALLOWED, z, u, EndBatch([]));
      D.BatchEnded(u.b, u.a.tx);
      u := GoB(ALLOWED, z, u, EndBatch([]));
      u := Eobs(z, u);
    }
    u := GoB(ALLOWED, z, u, EndBatch([]));
  }

  // ---- the queue ----

  /** What is needed of the files: those in the spool are whole, and none has the key of the status. */
  ghost predicate Plain(q: seq<S.Entry>, disk: S.Disk, k: Key) {
    && (forall e :: e in q && e.status ==> e.k == k) && k !in disk.spool
    && (forall j :: j in disk.spool ==> |disk.spool[j]| == j.size)
  }

  /** The status does not lead: the file is lost. */
  lemma {:induction false} Loses(z: Sys, t: Sys, q: seq<S.Entry>, disk: S.Disk, r: R.Rcv, k: Key) returns (u: Sys)
    requires Reaches(ALLOWED, z, t) && Poised(t, Some(q), disk, r)
    requires Plain(q, disk, k) && !E.Leads(q, disk.spool, r.masks, k)
    requires PartOf(k) !in r.hist.had && !E.ThrownAway(r, k) && k.size > 0
    ensures Reaches(ALLOWED, z, u) && !E.Safe(u, k)
    decreases |q|
  {
    if q == [] {
      var x := S.Start(t.a.snd);
      u := Starts(ALLOWED, z, t, t.b.rcv, [], [], t.a.snd, x);
      u := Withheld(z, u, disk, r);
    } else {
      var e := q[0];
      assert e in q && !e.status;
      if e.k !in disk.spool {
        u := Misses(z, t, q, disk, r);
        u := Loses(z, u, q[1..], disk, r, k);
      } else if E.Masked(r.masks, e.k) {
        u := IsSkipped(z, t, q, disk, r);
        u := Loses(z, u, q[1..], disk, r, k);
      } else if e.k in r.masks || PartOf(e.k) in r.disk.inbound {
        u := IsThere(z, t, q, disk, r, k);
      } else {
        u := IsNew(z, t, q, disk, r, k);
      }
    }
  }

  // ---- the place of the status ----

  /** A session of the sender `p` that offers `q` to the receiver `u`, whatever goes the other way. */
  ghost predicate Session1(p: Peer, u: Peer, q: Option<seq<S.Entry>>, s: Sys) {
    exists nra, qb, nrb, ndb :: s == Sys(Fresh(p, q, nra, true, ndb), Fresh(u, qb, nrb, ndb, true))
  }

  ghost predicate SafeIn(all: set<Key>, ss: seq<Sys>) { forall s, k :: s in ss && k in all ==> E.Safe(s, k) }

  /** Whatever happens in the session, and in those that follow it, no file is lost. */
  ghost predicate KeepsAll(all: set<Key>, p: Peer, u: Peer, q: Option<seq<S.Entry>>) {
    forall ss, ls :: Obeys(ALLOWED, ss, ls) && Session1(p, u, q, ss[0]) ==> SafeIn(all, ss)
  }

  /** What the scan puts into the queue: the one status of the link, if there is one. */
  ghost predicate Scanned(disk: S.Disk, q: Option<seq<S.Entry>>) {
    q.Some? ==> E.OneStatus(q.value) && forall e :: e in q.value && e.status ==> disk.stc == Some(e.k)
  }

  lemma LeadingKeeps(all: set<Key>, p: Peer, u: Peer, q: Option<seq<S.Entry>>)
    requires E.Good(all) && E.OnDisk(all, p.snd, u.rcv) && E.Offers(p.snd.disk, u.rcv.masks, q)
    ensures KeepsAll(all, p, u, q)
  {
    forall ss, ls | Obeys(ALLOWED, ss, ls) && Session1(p, u, q, ss[0]) ensures SafeIn(all, ss) {
      assert E.Opens(all, ss[0]);
      assert forall i :: 0 <= i < |ls| ==> ALLOWED(ss[i], ls[i]) == E.Allowed(ss[i], ls[i]);
      forall i | 0 <= i < |ss| ensures forall k :: k in all ==> E.Safe(ss[i], k) {
        E.DeliversOnce(all, ss, ls, i);
      }
    }
  }

  /** The status does not lead: there is a session in which the file is lost. */
  lemma NotLeadingLoses(all: set<Key>, p: Peer, u: Peer, q: Option<seq<S.Entry>>, k: Key)
    returns (ss: seq<Sys>, ls: seq<Label>)
    requires E.Good(all) && E.OnDisk(all, p.snd, u.rcv) && Scanned(p.snd.disk, q) && p.snd.disk.stc == Some(k)
    requires PartOf(k) !in u.rcv.hist.had && !E.ThrownAway(u.rcv, k)
    requires q.None? || !E.Leads(q.value, p.snd.disk.spool, u.rcv.masks, k)
    ensures Obeys(ALLOWED, ss, ls) && Session1(p, u, q, ss[0]) && !E.Safe(ss[|ss| - 1], k)
  {
    var z := Sys(Fresh(p, q, false, true, false), Fresh(u, None, false, false, true));
    Stay(ALLOWED, z);
    var disk, r := p.snd.disk, z.b.rcv;
    E.CloseKeeps(u.rcv);
    assert Poised(z, q, disk, r);
    var t;
    if q.None? {
      t := Withheld(z, z, disk, r);
    } else {
      t := Loses(z, z, q.value, disk, r, k);
    }
    ss, ls :| Obeys(ALLOWED, ss, ls) && ss[0] == z && ss[|ss| - 1] == t;
  }

  /** The exact condition of exactly-once delivery: with a file whole at the receiver that only the link status speaks
      for, a session cannot lose it if and only if the status leads in the queue. */
  lemma StatusPlace(all: set<Key>, p: Peer, u: Peer, q: Option<seq<S.Entry>>, k: Key)
    requires E.Good(all) && E.OnDisk(all, p.snd, u.rcv) && Scanned(p.snd.disk, q) && p.snd.disk.stc == Some(k)
    requires PartOf(k) !in u.rcv.hist.had && !E.ThrownAway(u.rcv, k)
    ensures KeepsAll(all, p, u, q) <==> q.Some? && E.Leads(q.value, p.snd.disk.spool, u.rcv.masks, k)
  {
    if q.Some? && E.Leads(q.value, p.snd.disk.spool, u.rcv.masks, k) {
      LeadingKeeps(all, p, u, q);
    } else {
      var ss, ls := NotLeadingLoses(all, p, u, q, k);
      assert ss[|ss| - 1] in ss && k in all;
    }
  }

  /** A new file just ahead of the status: after its M_GOT the status speaks for that file, and the other is in no
      spool, not delivered, and no status speaks for it. */
  lemma FileAhead(p: Peer, u: Peer, k: Key, f: Key) returns (t: Sys)
    requires p.snd.disk.stc == Some(k) && k !in p.snd.disk.spool && k != f
    requires f in p.snd.disk.spool && |p.snd.disk.spool[f]| == f.size
    requires f !in u.rcv.masks && PartOf(f) !in u.rcv.disk.inbound
    requires PartOf(k) !in u.rcv.hist.had && !E.ThrownAway(u.rcv, k)
    ensures Reaches(ALLOWED, Sys(Fresh(p, Some([S.Entry(f, false), S.Entry(k, true)]), true, true, false),
      Fresh(u, None, false, false, true)), t)
    ensures t.a.snd.disk.stc == Some(f) && !E.Safe(t, k)
  {
    var q := [S.Entry(f, false), S.Entry(k, true)];
    var z := Sys(Fresh(p, Some(q), true, true, false), Fresh(u, None, false, false, true));
    Stay(ALLOWED, z);
    t := IsNew(z, z, q, p.snd.disk, z.b.rcv, k);
  }
}
