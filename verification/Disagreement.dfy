/** Where the guarantees end. A run is clean when no netname is used twice in a session and a status is
    offered in NR mode only: without either condition there are runs in which the peers count different
    messages, and one stops while the other goes on and waits. And a session that does not offer a
    pending status loses the file. */
module Disagreement {
  import opened Options
  import opened Frames
  import S = Sender
  import R = Receiver
  import opened Session
  import opened BatchAgreement
  import opened Walk

  /** After two batches `b` stopped and `a` goes on. */
  predicate Parted(s: Sys) {
    && |s.a.bat.ends| == |s.b.bat.ends| == 2
    && s.a.bat.ends[1] > 2 && s.a.bat.live && s.b.bat.ends[1] <= 2 && !s.b.bat.live
  }

  /** The answer that `r` gives at once, without a file. */
  ghost predicate Refuses(r: R.Rcv, k: Key, f: Frame) {
    && (f == MGot(k) || f == MSkip(k))
    && (if k in r.masks then f == (if r.masks[k] then MGot(k) else MSkip(k))
        else f == MGot(k) && PartOf(k) in r.disk.inbound)
  }

  /** Nothing to send, nothing being received. */
  ghost predicate Quiet(p: Peer) {
    && p.bat.live && p.snd.q.None? && p.snd.sent == [] && !Sending(p.snd)
    && p.rcv.inn.None? && p.rcv.g.balance == 0 && p.rcv.inComplete.None?
  }

  function Counting(p: Peer, msgs: nat, tx: seq<Frame>): Peer {
    p.(bat := p.bat.(msgs := p.bat.msgs + msgs), tx := p.tx + tx)
  }

  lemma EobSent(p: Peer, from: seq<Frame>)
    requires Enabled(p, from, SendEob)
    ensures Step(p, from, SendEob) == Counting(p.(bat := p.bat.(localEOB := true)), 1, [MEob])
  {
  }

  lemma EobTaken(p: Peer, from: seq<Frame>)
    requires Enabled(p, from, Recv(false)) && from[0] == MEob && p.rcv.inn.None? && p.rcv.inComplete.None?
    ensures Step(p, from, Recv(false)) == Counting(p.(bat := p.bat.(remoteEOB := true)), 1, [])
  {
  }

  /** M_GOT, or M_SKIP about a file that is not in transfer. */
  lemma LateTaken(p: Peer, from: seq<Frame>, f: Frame)
    requires Enabled(p, from, Recv(false)) && from[0] == f && (f.MGot? || (f.MSkip? && !S.OutIs(p.snd, f.k)))
    requires Quiet(p)
    ensures var t := Step(p, from, Recv(false));
      t == Counting(p.(snd := t.snd), 1, []) && Quiet(t)
  {
  }

  lemma Refused(p: Peer, from: seq<Frame>, k: Key, off: nat, f: Frame)
    requires Enabled(p, from, Recv(false)) && from[0] == MFile(k, off, false) && Refuses(p.rcv, k, f)
    requires p.rcv.inn.None? && p.rcv.inComplete.None?
    ensures Step(p, from, Recv(false)) == Counting(p, 2, [f])
  {
    assert R.File(p.rcv, k, off, false, false) == R.Result(p.rcv, [f], true);
    assert [f][1..] == [] && Msgs([f]) == 1;
    assert Step(p, from, Recv(false)).tx == p.tx + [f];
    assert Step(p, from, Recv(false)).bat == p.bat.(msgs := p.bat.msgs + 2);
  }

  function NextBatch(p: Peer): Peer {
    p.(bat := Batch(true, false, false, 0, p.bat.ends + [p.bat.msgs]))
  }

  lemma BatchEnded(p: Peer, from: seq<Frame>)
    requires Enabled(p, from, EndBatch([])) && p.bat.msgs > 2
    ensures Step(p, from, EndBatch([])) == NextBatch(p)
  {
  }

  lemma SessionEnded(p: Peer, from: seq<Frame>)
    requires Enabled(p, from, EndBatch([])) && p.bat.msgs <= 2
    ensures Step(p, from, EndBatch([])).bat == p.bat.(live := false, ends := p.bat.ends + [p.bat.msgs])
  {
  }

  /** Between the batches: an answer to `a` is still in flight, both queues are empty. */
  ghost predicate Late(s: Sys, f: Frame) {
    && (f.MGot? || (f.MSkip? && !S.OutIs(s.a.snd, f.k))) && s.b.tx == [f] && s.a.tx == [] && Quiet(s.a) && Quiet(s.b)
    && s.a.bat == Batch(true, false, false, 0, s.a.bat.ends) && s.b.bat == Batch(true, false, false, 0, s.b.bat.ends)
    && |s.a.bat.ends| == |s.b.bat.ends| == 1
  }

  /** Both send their M_EOBs. */
  lemma LateEobs(z: Sys, s: Sys, f: Frame) returns (t: Sys)
    requires Reaches(ANY, z, s) && Late(s, f)
    ensures Reaches(ANY, z, t) && t.a.snd == s.a.snd && t.b.tx == [f, MEob] && t.a.tx == [MEob]
    ensures Quiet(t.a) && t.a.bat == s.a.bat.(localEOB := true, msgs := 1)
    ensures Quiet(t.b) && t.b.bat == s.b.bat.(localEOB := true, msgs := 1)
  {
    EobSent(s.a, s.b.tx);
    var s1 := GoA(ANY, z, s, SendEob);
    EobSent(s1.b, s1.a.tx);
    t := GoB(ANY, z, s1, SendEob);
  }

  lemma LateParts(z: Sys, s: Sys, f: Frame) returns (t: Sys)
    requires Reaches(ANY, z, s) && Late(s, f)
    ensures Reaches(ANY, z, t) && Parted(t) && t.a.bat.ends[0] == s.a.bat.ends[0] && t.b.bat.ends[0] == s.b.bat.ends[0]
  {
    var s2 := LateEobs(z, s, f);
    LateTaken(s2.a, s2.b.tx, f);
    var s3 := GoA(ANY, z, s2, Recv(false));
    t := LateEnds(z, s3);
  }

  /** `a` has taken the answer, and counts it in a batch of its own. */
  lemma LateEnds(z: Sys, s3: Sys) returns (t: Sys)
    requires Reaches(ANY, z, s3) && Quiet(s3.a) && Quiet(s3.b) && s3.a.tx == [MEob] && s3.b.tx == [MEob]
    requires s3.a.bat == Batch(true, true, false, 2, s3.a.bat.ends) && |s3.a.bat.ends| == 1
    requires s3.b.bat == Batch(true, true, false, 1, s3.b.bat.ends) && |s3.b.bat.ends| == 1
    ensures Reaches(ANY, z, t) && Parted(t)
    ensures t.a.bat.ends[0] == s3.a.bat.ends[0] && t.b.bat.ends[0] == s3.b.bat.ends[0]
  {
    EobTaken(s3.a, s3.b.tx);
    var s4 := GoA(ANY, z, s3, Recv(false));
    BatchEnded(s4.a, s4.b.tx);
    var s5 := GoA(ANY, z, s4, EndBatch([]));
    assert s5.a.tx == [MEob] && s5.b.tx == [];
    EobTaken(s5.b, s5.a.tx);
    var s6 := GoB(ANY, z, s5, Recv(false));
    SessionEnded(s6.b, s6.a.tx);
    t := GoB(ANY, z, s6, EndBatch([]));
  }

  /** A session of `a` that offers `q` and of `b` that offers nothing. */
  function Opening(p: Peer, u: Peer, q: seq<S.Entry>): Sys {
    Sys(Fresh(p, Some(q), false, false, false), Fresh(u, None, false, false, false))
  }

  /** A status is offered without NR, and the remote has that file already: the peers count 3 and 4 messages. */
  lemma StatusWithoutNR(p: Peer, u: Peer, k: Key) returns (t: Sys)
    requires Refuses(u.rcv, k, MGot(k))
    ensures Reaches(ANY, Opening(p, u, [S.Entry(k, true)]), t) && Parted(t)
    ensures t.a.bat.ends[0] == 3 && t.b.bat.ends[0] == 4
  {
    var z := Opening(p, u, [S.Entry(k, true)]);
    Stay(ANY, z);
    var s1 := GoA(ANY, z, z, Top);
    var s2 := GoA(ANY, z, s1, Top);
    assert s2.a.tx == [MFile(k, k.size, false)] && Quiet(s2.a) && s2.a.bat == Batch(true, false, false, 1, []);
    EobSent(s2.a, s2.b.tx);
    var s3 := GoA(ANY, z, s2, SendEob);
    t := StatusParts(z, s3, k);
  }

  lemma StatusParts(z: Sys, s: Sys, k: Key) returns (t: Sys)
    requires Reaches(ANY, z, s) && Quiet(s.a) && Quiet(s.b) && s.a.tx == [MFile(k, k.size, false), MEob] && s.b.tx == []
    requires s.a.bat == Batch(true, true, false, 2, []) && s.b.bat == Batch(true, false, false, 0, [])
    requires Refuses(s.b.rcv, k, MGot(k))
    ensures Reaches(ANY, z, t) && Parted(t) && t.a.bat.ends[0] == 3 && t.b.bat.ends[0] == 4
  {
    EobSent(s.b, s.a.tx);
    var s4 := GoB(ANY, z, s, SendEob);
    EobTaken(s4.a, s4.b.tx);
    var s5 := GoA(ANY, z, s4, Recv(false));
    BatchEnded(s5.a, s5.b.tx);
    var s6 := GoA(ANY, z, s5, EndBatch([]));
    Refused(s6.b, s6.a.tx, k, k.size, MGot(k));
    var s7 := GoB(ANY, z, s6, Recv(false));
    assert s7.b.tx == [MGot(k)] && s7.a.tx == [MEob];
    EobTaken(s7.b, s7.a.tx);
    var s8 := GoB(ANY, z, s7, Recv(false));
    BatchEnded(s8.b, s8.a.tx);
    var s9 := GoB(ANY, z, s8, EndBatch([]));
    t := LateParts(z, s9, MGot(k));
  }

  lemma Offered(p: Peer, from: seq<Frame>, k: Key, bytes: seq<Byte>)
    requires Enabled(p, from, Top) && p.snd.q.value != [] && p.snd.q.value[0] == S.Entry(k, false)
    requires k in p.snd.disk.spool && p.snd.disk.spool[k] == bytes && p.snd.mode == S.Mode(false, false)
    ensures var t := Step(p, from, Top);
      && t == Counting(p.(snd := t.snd), 1, [MFile(k, 0, false)])
      && t.snd == p.snd.(q := Some(p.snd.q.value[1..]), out := Some(S.TFile(k, false, Some(S.Handle(bytes, 0)))),
         g := t.snd.g, hist := t.snd.hist)
      && t.snd.g == p.snd.g.(ndAddr := true)
  {
    var x := S.Start(p.snd);
    assert x.tx == [MFile(k, 0, false)] && x.ok;
    assert [MFile(k, 0, false)][1..] == [] && Msgs([MFile(k, 0, false)]) == 1;
    assert Step(p, from, Top).bat == p.bat.(msgs := p.bat.msgs + 1);
  }

  lemma WholeSent(p: Peer, from: seq<Frame>, k: Key, bytes: seq<Byte>)
    requires p.snd.out == Some(S.TFile(k, false, Some(S.Handle(bytes, 0)))) && |bytes| == k.size
    requires Enabled(p, from, SendBlock(k.size + 1))
    ensures Step(p, from, SendBlock(k.size + 1)) == Counting(p.(snd := p.snd.(
      sent := p.snd.sent + [S.TFile(k, false, None)], out := None,
      g := p.snd.g.(waiting := p.snd.g.waiting || p.snd.mode.weND))), 0, [Data(bytes)])
  {
    var x := S.Block(p.snd, k.size + 1);
    assert bytes[0..k.size] == bytes && x.tx == [Data(bytes)] && x.ok;
    assert [Data(bytes)][1..] == [] && Msgs([Data(bytes)]) == 0;
    assert Step(p, from, SendBlock(k.size + 1)).bat == p.bat;
  }

  /** The same file is offered twice, and the remote skips it twice: the first M_SKIP removes both, the peers count 5
      and 6 messages. */
  lemma SameNameTwice(p: Peer, u: Peer, k: Key) returns (t: Sys)
    requires k in p.snd.disk.spool && |p.snd.disk.spool[k]| == k.size && Refuses(u.rcv, k, MSkip(k))
    ensures Reaches(ANY, Opening(p, u, [S.Entry(k, false), S.Entry(k, false)]), t) && Parted(t)
    ensures t.a.bat.ends[0] == 5 && t.b.bat.ends[0] == 6
  {
    var z := Opening(p, u, [S.Entry(k, false), S.Entry(k, false)]);
    Stay(ANY, z);
    var bytes := p.snd.disk.spool[k];
    var h := S.TFile(k, false, Some(S.Handle(bytes, 0)));
    var file := MFile(k, 0, false);
    Offered(z.a, [], k, bytes);
    var s1 := GoA(ANY, z, z, Top);
    WholeSent(s1.a, [], k, bytes);
    var s2 := GoA(ANY, z, s1, SendBlock(k.size + 1));
    Offered(s2.a, [], k, bytes);
    var s3 := GoA(ANY, z, s2, Top);
    assert s3.a.tx == [file, Data(bytes), file];
    assert s3.a.snd.sent == [h.(f := None)];
    t := TwiceParts(z, s3, k, bytes, h);
  }

  lemma BlockIgnored(p: Peer, from: seq<Frame>)
    requires Enabled(p, from, Recv(false)) && from[0].Data? && p.rcv.inn.None?
    ensures Step(p, from, Recv(false)) == Counting(p, 0, [])
  {
  }

  /** M_SKIP about a file that was sent and is in transfer again. */
  lemma BothSkipped(p: Peer, from: seq<Frame>, k: Key)
    requires Enabled(p, from, Recv(false)) && from[0] == MSkip(k) && |p.snd.sent| == 1 && p.snd.sent[0].k == k
    requires S.OutIs(p.snd, k) && Sending(p.snd)
    ensures var t := Step(p, from, Recv(false));
      t == Counting(p.(snd := t.snd), 1, []) && t.snd.sent == [] && t.snd.out.None? && t.snd.q == p.snd.q
        && !t.snd.g.waiting ==
      !(p.snd.g.waiting && !(p.snd.mode.weND || p.snd.mode.weNR)) && (p.snd.g.offReq || !t.snd.g.offReq)
  {
    assert S.Without(p.snd.sent, k) == [];
  }

  lemma TwiceParts(z: Sys, s: Sys, k: Key, bytes: seq<Byte>, h: S.TFile) returns (t: Sys)
    requires Reaches(ANY, z, s) && Quiet(s.b) && Refuses(s.b.rcv, k, MSkip(k)) && s.b.tx == []
    requires s.b.bat == Batch(true, false, false, 0, [])
    requires h.k == k && h.f.Some? && s.a.snd.out == Some(h) && s.a.snd.sent == [h.(f := None)] && s.a.snd.q == Some([])
    requires !s.a.snd.g.waiting && !s.a.snd.g.offReq && s.a.bat == Batch(true, false, false, 2, [])
    requires s.a.rcv.inn.None? && s.a.rcv.g.balance == 0 && s.a.rcv.inComplete.None?
    requires s.a.tx == [MFile(k, 0, false), Data(bytes), MFile(k, 0, false)]
    ensures Reaches(ANY, z, t) && Parted(t) && t.a.bat.ends[0] == 5 && t.b.bat.ends[0] == 6
  {
    Refused(s.b, s.a.tx, k, 0, MSkip(k));
    var s4 := GoB(ANY, z, s, Recv(false));
    assert s4.b.tx == [MSkip(k)] && s4.a.tx == [Data(bytes), MFile(k, 0, false)];
    EobSent(s4.b, s4.a.tx);
    var s5 := GoB(ANY, z, s4, SendEob);
    assert s5.b.tx == [MSkip(k), MEob];
    t := TwiceSkipped(z, s5, k, bytes);
  }

  lemma TwiceSkipped(z: Sys, s: Sys, k: Key, bytes: seq<Byte>) returns (t: Sys)
    requires Reaches(ANY, z, s) && Quiet(s.b) && Refuses(s.b.rcv, k, MSkip(k)) && s.b.tx == [MSkip(k), MEob]
    requires s.b.bat == Batch(true, true, false, 3, [])
    requires S.OutIs(s.a.snd, k) && Sending(s.a.snd) && |s.a.snd.sent| == 1 && s.a.snd.sent[0].k == k
    requires s.a.snd.q == Some([])
    requires !s.a.snd.g.waiting && !s.a.snd.g.offReq && s.a.bat == Batch(true, false, false, 2, [])
    requires s.a.rcv.inn.None? && s.a.rcv.g.balance == 0 && s.a.rcv.inComplete.None?
    requires s.a.tx == [Data(bytes), MFile(k, 0, false)]
    ensures Reaches(ANY, z, t) && Parted(t) && t.a.bat.ends[0] == 5 && t.b.bat.ends[0] == 6
  {
    BothSkipped(s.a, s.b.tx, k);
    var s6 := GoA(ANY, z, s, Recv(false));
    assert s6.b.tx == [MEob] && s6.a.tx == [Data(bytes), MFile(k, 0, false)];
    assert s6.a.bat == Batch(true, false, false, 3, []);
    var s7 := GoA(ANY, z, s6, Top);
    assert Quiet(s7.a) && s7.a.tx == s6.a.tx && s7.a.bat == s6.a.bat && s7.a.snd.out.None?;
    t := SkippedParts(z, s7, k, bytes);
  }

  lemma SkippedParts(z: Sys, s: Sys, k: Key, bytes: seq<Byte>) returns (t: Sys)
    requires Reaches(ANY, z, s) && Quiet(s.a) && Quiet(s.b) && s.a.tx == [Data(bytes), MFile(k, 0, false)]
    requires s.b.tx == [MEob]
    requires s.a.bat == Batch(true, false, false, 3, []) && s.b.bat == Batch(true, true, false, 3, [])
    requires Refuses(s.b.rcv, k, MSkip(k)) && s.a.snd.out.None?
    ensures Reaches(ANY, z, t) && Parted(t) && t.a.bat.ends[0] == 5 && t.b.bat.ends[0] == 6
  {
    EobSent(s.a, s.b.tx);
    var s1 := GoA(ANY, z, s, SendEob);
    EobTaken(s1.a, s1.b.tx);
    var s2 := GoA(ANY, z, s1, Recv(false));
    BatchEnded(s2.a, s2.b.tx);
    var s3 := GoA(ANY, z, s2, EndBatch([]));
    assert s3.a.tx == [Data(bytes), MFile(k, 0, false), MEob] && s3.b.tx == [];
    t := SkippedLate(z, s3, k, bytes);
  }

  /** `a` has gone on to its next batch, and `b` skips the second offer in the first one. */
  lemma SkippedLate(z: Sys, s3: Sys, k: Key, bytes: seq<Byte>) returns (t: Sys)
    requires Reaches(ANY, z, s3) && Quiet(s3.a) && Quiet(s3.b) && s3.b.tx == []
    requires s3.a.tx == [Data(bytes), MFile(k, 0, false), MEob]
    requires s3.a.bat == Batch(true, false, false, 0, [5]) && s3.b.bat == Batch(true, true, false, 3, [])
    requires Refuses(s3.b.rcv, k, MSkip(k)) && s3.a.snd.out.None?
    ensures Reaches(ANY, z, t) && Parted(t) && t.a.bat.ends[0] == 5 && t.b.bat.ends[0] == 6
  {
    BlockIgnored(s3.b, s3.a.tx);
    var s4 := GoB(ANY, z, s3, Recv(false));
    assert s4.a.tx == [MFile(k, 0, false), MEob] && s4.b.tx == [];
    Refused(s4.b, s4.a.tx, k, 0, MSkip(k));
    var s5 := GoB(ANY, z, s4, Recv(false));
    assert s5.a.tx == [MEob] && s5.b.tx == [MSkip(k)];
    EobTaken(s5.b, s5.a.tx);
    var s6 := GoB(ANY, z, s5, Recv(false));
    BatchEnded(s6.b, s6.a.tx);
    var s7 := GoB(ANY, z, s6, EndBatch([]));
    t := LateParts(z, s7, MSkip(k));
  }

  // ---- the order of the queue ----

  /** Neither peer offers anything: two M_EOBs, and the session ends. */
  lemma EmptySession(z: Sys, s: Sys) returns (t: Sys)
    requires Reaches(ANY, z, s) && Quiet(s.a) && Quiet(s.b) && s.a.tx == [] && s.b.tx == []
    requires s.a.bat == s.b.bat == Batch(true, false, false, 0, []) && !s.b.rcv.g.skipAll
    ensures Reaches(ANY, z, t) && t.b.rcv.disk.parts == map[] && t.b.rcv.hist == s.b.rcv.hist
    ensures t.a.snd.disk.spool == s.a.snd.disk.spool
  {
    EobSent(s.a, s.b.tx);
    var s1 := GoA(ANY, z, s, SendEob);
    EobSent(s1.b, s1.a.tx);
    var s2 := GoB(ANY, z, s1, SendEob);
    assert s2.a.tx == [MEob] && s2.b.tx == [MEob];
    EobTaken(s2.b, s2.a.tx);
    t := GoB(ANY, z, s2, Recv(false));
    t := GoB(ANY, z, t, EndBatch([]));
  }

  /** A whole file waits at the receiver for the status that is still pending, and a session does not offer that status:
      the file is lost. It is in no spool, was never renamed, and its partial is removed. */
  lemma StatusWithheld(p: Peer, u: Peer, k: Key) returns (t: Sys)
    requires p.snd.disk.stc == Some(k) && k !in p.snd.disk.spool && PartOf(k) !in u.rcv.hist.had
    ensures Reaches(ANY, Sys(Fresh(p, None, true, true, false), Fresh(u, None, false, false, true)), t)
    ensures k !in t.a.snd.disk.spool && PartOf(k) !in t.b.rcv.hist.had && PartOf(k) !in t.b.rcv.disk.parts
  {
    var z := Sys(Fresh(p, None, true, true, false), Fresh(u, None, false, false, true));
    Stay(ANY, z);
    t := EmptySession(z, z);
  }
}
