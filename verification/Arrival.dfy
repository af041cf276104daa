/** The conditions of the results about runs can be met, all of them at once, and the mail does arrive: a run in which
    the connection breaks at the worst moment, and the next session delivers the file by its link status. */
module Arrival {
  import opened Options
  import opened Frames
  import S = Sender
  import R = Receiver
  import opened Session
  import D = DataSafety
  import B = BatchAgreement
  import E = ExactlyOnce
  import opened Walk

  /** What ExactlyOnce, DataSafety and BatchAgreement ask of a run. */
  ghost predicate Meets(ss: seq<Sys>, ls: seq<Label>) {
    Run(ss, ls) && E.AllowedRun(ss, ls) && D.NamesOk(ss, ls) && B.CleanRun(ss, ls)
  }

  ghost predicate MeetsStep(s: Sys, l: Label) {
    && E.Allowed(s, l)
    && (l.ActA? ==> D.NameOk(s.a, l.act) && B.CleanStep(s.a, l.act))
    && (l.ActB? ==> D.NameOk(s.b, l.act) && B.CleanStep(s.b, l.act))
  }

  ghost const MEETING: Rule := (s: Sys, l: Label) => MeetsStep(s, l)

  lemma ObeysMeets(ss: seq<Sys>, ls: seq<Label>)
    requires Obeys(MEETING, ss, ls)
    ensures Meets(ss, ls)
  {
    assert forall i :: 0 <= i < |ls| ==> MEETING(ss[i], ls[i]) == MeetsStep(ss[i], ls[i]);
  }

  /** The connection breaks, and the next session offers the pending status. */
  lemma Breaks(t: Sys, rcv: R.Rcv, s: S.Snd, k: Key) returns (l: Label, u: Sys)
    requires Is(t, s, rcv, t.a.tx, t.b.tx) && s.disk.stc == Some(k) && rcv.inn.None?
    ensures l.Again? && Next(t, l, u) && MeetsStep(t, l)
    ensures Is(u, Offering(k, true, s.disk), Resting(rcv), [], [])
  {
    var q := Some([S.Entry(k, true)]);
    l := Again(q, None, false, true, false, false);
    u := Sys(Fresh(t.a, q, false, true, false), Fresh(t.b, None, false, false, true));
  }

  /** A sender at the start of a session in ND mode, and a receiver. */
  function Offering(k: Key, status: bool, disk: S.Disk): S.Snd {
    S.Snd(Some([S.Entry(k, status)]), None, [], S.Flags(false, false, false, false, false), S.Mode(true, true), disk,
      S.Hist(map[], S.NEVER, S.NEVER))
  }

  function Resting(r: R.Rcv): R.Rcv { r.(inComplete := None, g := R.Flags(0, false, true, false)) }

  // ---- the run ----

  /** The file is open for reading, from its beginning. */
  function Opened(k: Key, bytes: seq<Byte>): S.TFile { S.TFile(k, false, Some(S.Handle(bytes, 0))) }

  function Status(k: Key): S.TFile { S.TFile(k, true, None) }

  /** A sender that has offered its only entry. */
  function Offered(k: Key, out: Option<S.TFile>, sent: seq<S.TFile>, g: S.Flags, disk: S.Disk, hist: S.Hist): S.Snd {
    S.Snd(Some([]), out, sent, g, S.Mode(true, true), disk, hist)
  }

  /** A receiver in ND mode without masks. */
  function Receiving(inn: Option<R.In>, done: Option<Key>, balance: int, nr: bool, parts: map<PartKey, seq<Byte>>)
    : R.Rcv
  {
    R.Rcv(inn, done, R.Flags(balance, nr, true, false), map[], R.Disk(parts, map[]), R.Hist([], {}))
  }

  const IDLE := S.Flags(false, false, false, false, false)

  function Told(k: Key, status: bool, answered: bool): S.Hist {
    S.Hist(map[k.name := k], if status then S.NEVER else S.Plus(S.NEVER, k, 1),
      if status || !answered then S.NEVER else S.Plus(S.NEVER, k, 1))
  }

  /** What the receiver makes of an offer in NR mode: it asks for the rest. */
  lemma AsksForRest(k: Key, r: R.Rcv, have: seq<Byte>)
    requires r == Receiving(None, None, 0, r.g.theyNR, r.disk.parts)
    requires R.Part(r, k) == have && |have| <= k.size
    ensures R.File(r, k, -1, false, false) ==
      R.Result(Receiving(None, None, 1, true, r.disk.parts[PartOf(k) := have]), [MGet(k, |have|)], true)
  {
  }

  /** ... and of the file that is sent from there. */
  lemma TakesRest(k: Key, r: R.Rcv, have: seq<Byte>)
    requires r == Receiving(None, None, 1, true, map[PartOf(k) := have]) && |have| <= k.size
    ensures R.File(r, k, |have|, false, false) ==
      R.Result(Receiving(Some(R.In(k, false)), None, 0, true, map[PartOf(k) := have]), [], true)
  {
    assert map[PartOf(k) := have][PartOf(k) := have] == map[PartOf(k) := have];
  }

  lemma TakesLast(k: Key, r: R.Rcv, have: seq<Byte>, bytes: seq<Byte>)
    requires r == Receiving(Some(R.In(k, false)), None, 0, true, map[PartOf(k) := have])
    requires |have + bytes| == k.size
    ensures R.Data(r, bytes) ==
      R.Result(Receiving(None, Some(k), 0, true, map[PartOf(k) := have + bytes]),
        [MGot(k)], true)
  {
    assert map[PartOf(k) := have][PartOf(k) := have + bytes] == map[PartOf(k) := have + bytes];
  }

  lemma Offers(k: Key, status: bool, disk: S.Disk)
    requires status || k in disk.spool
    ensures S.Start(Offering(k, status, disk)) ==
      S.Result(Offered(k, Some(if status then Status(k) else Opened(k, disk.spool[k])), [], IDLE.(offReq := true), disk,
        Told(k, status, false)), [MFile(k, -1, false)], true)
  {
    var none: map<string, Key> := map[];
    assert none[k.name := k] == map[k.name := k];
    assert [S.Entry(k, status)][1..] == [];
  }

  /** The first session: the receiver asks for the file from its beginning ... */
  lemma IsAsked(z: Sys, t0: Sys, k: Key, bytes: seq<Byte>) returns (t: Sys)
    requires |bytes| == k.size > 0
    requires Reaches(MEETING, z, t0)
    requires Is(t0, Offering(k, false, S.Disk(map[k := bytes], None)), Receiving(None, None, 0, false, map[]), [],
      [])
    ensures Reaches(MEETING, z, t)
    ensures Is(t, Offered(k, Some(Opened(k, bytes)), [], IDLE.(offReq := true), S.Disk(map[k := bytes], None),
      Told(k, false, false)), Receiving(None, None, 1, true, map[PartOf(k) := []]), [], [MGet(k, 0)])
  {
    var disk := S.Disk(map[k := bytes], None);
    var s0, r0 := t0.a.snd, t0.b.rcv;
    var s1 := Offered(k, Some(Opened(k, bytes)), [], IDLE.(offReq := true), disk, Told(k, false, false));
    Offers(k, false, disk);
    t := Starts(MEETING, z, t0, r0, [], [], s0, S.Result(s1, [MFile(k, -1, false)], true));
    AsksForRest(k, r0, []);
    var r1 := Receiving(None, None, 1, true, map[PartOf(k) := []]);
    t := TakesFile(MEETING, z, t, r0, [MFile(k, -1, false)], [], s1, R.Result(r1, [MGet(k, 0)], true));
  }

  /** ... and the file is open on both sides ... */
  lemma Agree(z: Sys, t0: Sys, k: Key, bytes: seq<Byte>) returns (t: Sys)
    requires |bytes| == k.size > 0
    requires Reaches(MEETING, z, t0)
    requires Is(t0, Offering(k, false, S.Disk(map[k := bytes], None)), Receiving(None, None, 0, false, map[]), [],
      [])
    ensures Reaches(MEETING, z, t)
    ensures Is(t, Offered(k, Some(Opened(k, bytes)), [], IDLE, S.Disk(map[k := bytes], None), Told(k, false, false)),
      Receiving(Some(R.In(k, false)), None, 0, true, map[PartOf(k) := []]), [], [])
  {
    t := IsAsked(z, t0, k, bytes);
    var s1, r1 := t.a.snd, t.b.rcv;
    var s2 := s1.(g := IDLE);
    t := TakesAnswer(MEETING, z, t, r1, [], [MGet(k, 0)], s1, S.Result(s2, [MFile(k, 0, false)], true));
    TakesRest(k, r1, []);
    var r2 := Receiving(Some(R.In(k, false)), None, 0, true, map[PartOf(k) := []]);
    t := TakesFile(MEETING, z, t, r1, [MFile(k, 0, false)], [], s2, R.Result(r2, [], true));
  }

  /** ... up to its break: the file has left the spool, and the receiver has not renamed it. */
  lemma Transfer(z: Sys, t0: Sys, k: Key, bytes: seq<Byte>) returns (t: Sys)
    requires |bytes| == k.size > 0
    requires Reaches(MEETING, z, t0)
    requires Is(t0, Offered(k, Some(Opened(k, bytes)), [], IDLE, S.Disk(map[k := bytes], None), Told(k, false, false)),
      Receiving(Some(R.In(k, false)), None, 0, true, map[PartOf(k) := []]), [], [])
    ensures Reaches(MEETING, z, t) && t.a.snd.disk == S.Disk(map[], Some(k))
    ensures Is(t, t.a.snd, Receiving(None, Some(k), 0, true, map[PartOf(k) := bytes]), [], [])
  {
    var s2, r2 := t0.a.snd, t0.b.rcv;
    var s3 := s2.(out := None, sent := [S.TFile(k, false, None)], g := IDLE.(waiting := true));
    assert bytes[0..k.size] == bytes;
    t := SendsBlock(MEETING, z, t0, r2, [], [], s2, k.size, S.Result(s3, [Data(bytes)], true));
    TakesLast(k, r2, [], bytes);
    assert [] + bytes == bytes;
    var r3 := Receiving(None, Some(k), 0, true, map[PartOf(k) := bytes]);
    t := TakesFile(MEETING, z, t, r2, [Data(bytes)], [], s3, R.Result(r3, [MGot(k)], true));
    var s4 := Offered(k, None, [], IDLE.(ndAddr := true), S.Disk(map[], Some(k)), Told(k, false, true));
    assert map[k := bytes] - {k} == map[];
    t := TakesAnswer(MEETING, z, t, r3, [], [MGot(k)], s3, S.Result(s4, [], true));
  }

  /** The second session offers the status; the receiver has the whole file, and asks for the rest of it ... */
  lemma StatusOpens(z: Sys, t0: Sys, k: Key, bytes: seq<Byte>) returns (t: Sys)
    requires |bytes| == k.size > 0
    requires Reaches(MEETING, z, t0)
    requires Is(t0, Offering(k, true, S.Disk(map[], Some(k))),
      Receiving(None, None, 0, false, map[PartOf(k) := bytes]), [], [])
    ensures Reaches(MEETING, z, t)
    ensures Is(t, StatusSent(k), Receiving(Some(R.In(k, false)), None, 0, true, map[PartOf(k) := bytes]), [], [])
  {
    var disk := S.Disk(map[], Some(k));
    var part := map[PartOf(k) := bytes];
    var s0, r0 := t0.a.snd, t0.b.rcv;
    var s1 := Offered(k, Some(Status(k)), [], IDLE.(offReq := true), disk, Told(k, true, false));
    Offers(k, true, disk);
    t := Starts(MEETING, z, t0, r0, [], [], s0, S.Result(s1, [MFile(k, -1, false)], true));
    AsksForRest(k, r0, bytes);
    assert part[PartOf(k) := bytes] == part;
    var r1 := Receiving(None, None, 1, true, part);
    t := TakesFile(MEETING, z, t, r0, [MFile(k, -1, false)], [], s1, R.Result(r1, [MGet(k, k.size)], true));
    t := TakesAnswer(MEETING, z, t, r1, [], [MGet(k, k.size)], s1,
      S.Result(StatusSent(k), [MFile(k, k.size, false)], true));
    TakesRest(k, r1, bytes);
    var r2 := Receiving(Some(R.In(k, false)), None, 0, true, part);
    t := TakesFile(MEETING, z, t, r1, [MFile(k, k.size, false)], [], StatusSent(k), R.Result(r2, [], true));
  }

  /** The sender owes an empty block. */
  function StatusSent(k: Key): S.Snd {
    Offered(k, Some(Status(k)), [], S.Flags(false, true, true, false, false), S.Disk(map[], Some(k)),
      Told(k, true, false))
  }

  /** ... which is an empty block, and completes it. */
  lemma SecondSession(z: Sys, t0: Sys, k: Key, bytes: seq<Byte>) returns (t: Sys)
    requires |bytes| == k.size > 0
    requires Reaches(MEETING, z, t0)
    requires Is(t0, Offering(k, true, S.Disk(map[], Some(k))),
      Receiving(None, None, 0, false, map[PartOf(k) := bytes]), [], [])
    ensures Reaches(MEETING, z, t)
    ensures Is(t, Offered(k, None, [], IDLE.(ndAddr := true), S.Disk(map[], Some(k)), Told(k, true, true)),
      Receiving(None, Some(k), 0, true, map[PartOf(k) := bytes]), [], [])
  {
    t := StatusOpens(z, t0, k, bytes);
    var s2, r2 := t.a.snd, t.b.rcv;
    var s3 := s2.(g := IDLE.(waiting := true));
    t := SendsBlock(MEETING, z, t, r2, [], [], s2, 1, S.Result(s3, [Data([])], true));
    TakesLast(k, r2, bytes, []);
    assert bytes + [] == bytes;
    var r3 := Receiving(None, Some(k), 0, true, map[PartOf(k) := bytes]);
    t := TakesFile(MEETING, z, t, r2, [Data([])], [], s3, R.Result(r3, [MGot(k)], true));
    var s4 := Offered(k, None, [], IDLE.(ndAddr := true), S.Disk(map[], Some(k)), Told(k, true, true));
    t := TakesAnswer(MEETING, z, t, r3, [], [MGot(k)], s3, S.Result(s4, [], true));
  }

  /** The queue is dropped, and M_EOB lets the receiver rename the file. */
  lemma Renamed(z: Sys, t0: Sys, k: Key, bytes: seq<Byte>) returns (t: Sys)
    requires Reaches(MEETING, z, t0)
    requires Is(t0, Offered(k, None, [], IDLE.(ndAddr := true), S.Disk(map[], Some(k)), Told(k, true, true)),
      Receiving(None, Some(k), 0, true, map[PartOf(k) := bytes]), [], [])
    ensures Reaches(MEETING, z, t) && t.b.rcv.hist.log == [R.Delivery(PartOf(k), bytes)]
  {
    var s, r := t0.a.snd, t0.b.rcv;
    t := Starts(MEETING, z, t0, r, [], [], s, S.Result(s.(q := None), [], true));
    var u := StepA(t, SendEob);
    Extend(MEETING, z, t, ActA(SendEob), u);
    assert u.a.tx == [MEob] && u.b == t.b;
    t := Flip(StepA(Flip(u), Recv(false)));
    Extend(MEETING, z, u, ActB(Recv(false)), t);
  }

  /** Two peers at the start of a session: one file to send, empty disks else. */
  function Beginning(k: Key, bytes: seq<Byte>): Sys {
    var r := Receiving(None, None, 0, false, map[]);
    var s := S.Snd(None, None, [], IDLE, S.Mode(false, false), S.Disk(map[], None),
      S.Hist(map[], S.NEVER, S.NEVER));
    var bat := Batch(true, false, false, 0, []);
    var p := Peer(s.(disk := S.Disk(map[k := bytes], None)), r, bat, []);
    Sys(Fresh(p, Some([S.Entry(k, false)]), false, true, false), Fresh(Peer(s, r, bat, []), None, false, false, true))
  }

  lemma Begins(k: Key, bytes: seq<Byte>)
    requires |bytes| == k.size > 0 && !IsPkt(k.name)
    ensures var z := Beginning(k, bytes);
      && B.NewSession(z) && E.Good({k}) && E.Opens({k}, z)
      && Is(z, Offering(k, false, S.Disk(map[k := bytes], None)), Receiving(None, None, 0, false, map[]), [], [])
  {
    var z := Beginning(k, bytes);
    var q := Some([S.Entry(k, false)]);
    assert z == Sys(Fresh(z.a, q, false, true, false), Fresh(z.b, None, false, false, true));
    assert E.Offers(z.a.snd.disk, z.b.rcv.masks, q);
  }

  /** The run up to the break ... */
  lemma Before(k: Key, bytes: seq<Byte>) returns (ss: seq<Sys>, ls: seq<Label>)
    requires |bytes| == k.size > 0 && !IsPkt(k.name)
    ensures Obeys(MEETING, ss, ls) && ss[0] == Beginning(k, bytes)
    ensures var t := ss[|ss| - 1];
      && t.a.snd.disk == S.Disk(map[], Some(k))
      && Is(t, t.a.snd, Receiving(None, Some(k), 0, true, map[PartOf(k) := bytes]), [], [])
  {
    var z := Beginning(k, bytes);
    Begins(k, bytes);
    Stay(MEETING, z);
    var t := Agree(z, z, k, bytes);
    t := Transfer(z, t, k, bytes);
    ss, ls :| Obeys(MEETING, ss, ls) && ss[0] == z && ss[|ss| - 1] == t;
  }

  /** ... and after it. */
  lemma After(u: Sys, k: Key, bytes: seq<Byte>) returns (ss: seq<Sys>, ls: seq<Label>)
    requires |bytes| == k.size > 0
    requires Is(u, Offering(k, true, S.Disk(map[], Some(k))),
      Receiving(None, None, 0, false, map[PartOf(k) := bytes]), [], [])
    ensures Obeys(MEETING, ss, ls) && ss[0] == u && ss[|ss| - 1].b.rcv.hist.log == [R.Delivery(PartOf(k), bytes)]
  {
    Stay(MEETING, u);
    var v := SecondSession(u, u, k, bytes);
    v := Renamed(u, v, k, bytes);
    ss, ls :| Obeys(MEETING, ss, ls) && ss[0] == u && ss[|ss| - 1] == v;
  }

  /** The file is sent, and the connection breaks in state `i`, when the sender has taken its M_GOT: it is in no spool
      and not renamed. The next session offers the link status, and the file is delivered. */
  lemma Arrives(k: Key, bytes: seq<Byte>) returns (ss: seq<Sys>, ls: seq<Label>, i: nat)
    requires |bytes| == k.size > 0 && !IsPkt(k.name)
    ensures Meets(ss, ls) && B.NewSession(ss[0]) && E.Good({k}) && E.Opens({k}, ss[0])
    ensures ss[0].a.snd.disk.spool == map[k := bytes]
    ensures i < |ls| && ls[i].Again? && ss[i].a.snd.disk.spool == map[] && ss[i].b.rcv.hist.had == {}
    ensures ss[|ss| - 1].b.rcv.hist.log == [R.Delivery(PartOf(k), bytes)]
  {
    Begins(k, bytes);
    var s1, l1 := Before(k, bytes);
    var t := s1[|s1| - 1];
    var l, u := Breaks(t, t.b.rcv, t.a.snd, k);
    var s2, l2 := After(u, k, bytes);
    Linked(MEETING, s1, l1, l, s2, l2);
    ss, ls, i := s1 + s2, l1 + [l] + l2, |l1|;
    ObeysMeets(ss, ls);
  }
}
