/** Resume correctness. Whatever is in flight, a partial file is a prefix of the sender's file, a renamed
    one equals it, and the sender drops a file only when the receiver has settled it. */
module DataSafety {
  import opened Options
  import opened Frames
  import S = Sender
  import R = Receiver
  import opened Session

  /** What every file contains: netname, size and time (without its lowest bit) identify the content. */
  type Content = imap<PartKey, seq<Byte>>

  ghost predicate Sized(c: Content) { forall p :: p in c && |c[p]| == p.size }

  /** Where the data blocks at some point of a channel will land: nowhere, or at `pos` of `k`. */
  datatype Cursor = Free | At(k: Key, pos: nat)

  function After(cur: Cursor, f: Frame): Cursor {
    match f
    case MFile(k, off, _) => if off < 0 then Free else At(k, off)
    case MEob => Free
    case Data(d) => if cur.At? then At(cur.k, cur.pos + |d|) else Free
    case _ => cur
  }

  function Walk(cur: Cursor, fs: seq<Frame>): Cursor
    decreases fs
  {
    if fs == [] then cur else Walk(After(cur, fs[0]), fs[1..])
  }

  ghost predicate Fit(c: Content, cur: Cursor, f: Frame)
    requires Sized(c)
  {
    f.Data? && cur.At? && f.bytes != [] ==>
      cur.pos + |f.bytes| <= |c[PartOf(cur.k)]| && f.bytes == c[PartOf(cur.k)][cur.pos..cur.pos + |f.bytes|]
  }

  /** Every block carries the bytes of the file at the place where it will land. */
  ghost predicate Fits(c: Content, cur: Cursor, fs: seq<Frame>)
    requires Sized(c)
    decreases fs
  {
    fs != [] ==> Fit(c, cur, fs[0]) && Fits(c, After(cur, fs[0]), fs[1..])
  }

  lemma {:induction false} FitsAppend(c: Content, cur: Cursor, fs: seq<Frame>, f: Frame)
    requires Sized(c)
    ensures Walk(cur, fs + [f]) == After(Walk(cur, fs), f)
    ensures Fits(c, cur, fs + [f]) <==> Fits(c, cur, fs) && Fit(c, Walk(cur, fs), f)
    decreases fs
  {
    if fs == [] {
      assert fs + [f] == [f];
      assert [f][1..] == [];
    } else {
      FitsAppend(c, After(cur, fs[0]), fs[1..], f);
      assert (fs + [f])[1..] == fs[1..] + [f];
    }
  }

  lemma {:induction false} FitsFree(c: Content, cur: Cursor, fs: seq<Frame>)
    requires Sized(c)
    requires Fits(c, cur, fs)
    ensures Fits(c, Free, fs)
    ensures Walk(Free, fs) == Free || Walk(Free, fs) == Walk(cur, fs)
    decreases fs
  {
    if fs != [] && After(Free, fs[0]) != After(cur, fs[0]) {
      FitsFree(c, After(cur, fs[0]), fs[1..]);
    }
  }

  function Cur(r: R.Rcv): Cursor {
    if r.inn.Some? then At(r.inn.value.k, |R.Part(r, r.inn.value.k)|) else Free
  }

  /** The receiver has the file, was told to throw it away, or (in ND mode) holds it whole and will rename it. */
  ghost predicate Settled(r: R.Rcv, k: Key) {
    || PartOf(k) in r.hist.had
    || (k in r.masks && r.masks[k])
    || (r.inComplete.Some? && PartOf(r.inComplete.value) == PartOf(k)
        && PartOf(k) in r.disk.parts && |r.disk.parts[PartOf(k)]| == k.size)
  }

  ghost predicate SpoolOk(c: Content, spool: map<Key, seq<Byte>>)
    requires Sized(c)
  {
    forall k :: k in spool ==> spool[k] == c[PartOf(k)]
  }

  ghost predicate FileOk(c: Content, names: map<string, Key>, t: S.TFile)
    requires Sized(c)
  {
    && t.k.name in names && names[t.k.name] == t.k
    && (t.f.Some? ==> t.f.value.data == c[PartOf(t.k)] && t.f.value.pos <= t.k.size)
  }

  ghost predicate FilesOk(c: Content, names: map<string, Key>, ts: seq<S.TFile>)
    requires Sized(c)
  {
    forall t :: t in ts ==> FileOk(c, names, t) && t.f.None?
  }

  ghost predicate SenderOk(c: Content, s: S.Snd)
    requires Sized(c)
  {
    && SpoolOk(c, s.disk.spool)
    && (s.out.Some? ==> FileOk(c, s.hist.announced, s.out.value))
    && FilesOk(c, s.hist.announced, s.sent)
  }

  ghost predicate PartsOk(c: Content, parts: map<PartKey, seq<Byte>>)
    requires Sized(c)
  {
    forall p :: p in parts ==> parts[p] <= c[p]
  }

  ghost predicate InboundOk(c: Content, inbound: map<PartKey, seq<Byte>>, had: set<PartKey>)
    requires Sized(c)
  {
    forall p :: p in inbound ==> inbound[p] == c[p] && p in had
  }

  ghost predicate LogOk(c: Content, log: seq<R.Delivery>)
    requires Sized(c)
  {
    forall d :: d in log ==> d.bytes == c[d.p]
  }

  ghost predicate OpenOk(c: Content, r: R.Rcv)
    requires Sized(c)
  {
    && (r.inComplete.Some? ==> r.g.theyND && r.inn.None?)
    && (r.inComplete.Some? && PartOf(r.inComplete.value) in r.disk.parts ==>
          r.disk.parts[PartOf(r.inComplete.value)] == c[PartOf(r.inComplete.value)])
    && (r.inn.Some? ==> PartOf(r.inn.value.k) in r.disk.parts)
  }

  ghost predicate ReceiverOk(c: Content, r: R.Rcv)
    requires Sized(c)
  {
    PartsOk(c, r.disk.parts) && InboundOk(c, r.disk.inbound, r.hist.had) && LogOk(c, r.hist.log) && OpenOk(c, r)
  }

  /** The invariant of one direction: the sending half, the receiving half, the channel `ab` that carries the
      files and the channel `ba` that carries the answers. */
  ghost predicate Flow(c: Content, live: bool, s: S.Snd, r: R.Rcv, ab: seq<Frame>, ba: seq<Frame>)
    requires Sized(c)
  {
    && SenderOk(c, s)
    && ReceiverOk(c, r)
    && (r.inn.Some? ==> S.Announced(s, r.inn.value.k))
    && (forall f :: f in ab && f.MFile? ==> S.Announced(s, f.k))
    && Fits(c, Cur(r), ab)
    && (live && Sending(s) ==> Walk(Cur(r), ab) in {Free, At(s.out.value.k, s.out.value.f.value.pos)})
    && (forall f :: f in ba && f.MGot? ==> Settled(r, f.k))
  }

  // ---- steps of the sending half ----

  /** The netname of the next file is not the name of another file of this session. */
  ghost predicate NewName(s: S.Snd) {
    s.q.Some? && s.q.value != [] ==>
      var k := s.q.value[0].k;
      k.name in s.hist.announced ==> s.hist.announced[k.name] == k
  }

  /** The sending half moved to `t` and queued `tx`; what it consumed is gone from `ba`. */
  lemma Sent(c: Content, live: bool, s: S.Snd, t: S.Snd, r: R.Rcv, ab: seq<Frame>, ba: seq<Frame>, tx: seq<Frame>,
      rest: seq<Frame>)
    requires Sized(c)
    requires Flow(c, live, s, r, ab, ba)
    requires SenderOk(c, t) && (forall k :: S.Announced(s, k) ==> S.Announced(t, k))
    requires |tx| <= 1 && (tx != [] ==> Fit(c, Walk(Cur(r), ab), tx[0]) && (tx[0].MFile? ==> S.Announced(t, tx[0].k)))
    requires live && Sending(t) ==>
      (if tx == [] then Walk(Cur(r), ab) else After(Walk(Cur(r), ab), tx[0]))
        in {Free, At(t.out.value.k, t.out.value.f.value.pos)}
    requires forall f :: f in rest ==> f in ba
    ensures Flow(c, live, t, r, ab + tx, rest)
  {
    if tx == [] {
      assert ab + tx == ab;
    } else {
      assert tx == [tx[0]];
      FitsAppend(c, Cur(r), ab, tx[0]);
    }
  }

  lemma StartKeeps(c: Content, s: S.Snd)
    requires Sized(c) && SenderOk(c, s) && S.CanStart(s) && NewName(s)
    ensures var x := S.Start(s);
      && SenderOk(c, x.s) && (forall k :: S.Announced(s, k) ==> S.Announced(x.s, k)) && x.s.disk.spool == s.disk.spool
      && (x.tx == [] ==> !Sending(x.s))
      && (x.tx != [] ==>
            && |x.tx| == 1 && x.tx[0].MFile? && S.Announced(x.s, x.tx[0].k)
            && (Sending(x.s) ==>
                  x.tx[0].off <= 0 && x.s.out.value.k == x.tx[0].k && x.s.out.value.f.value.pos == 0))
  {
    if s.q.value != [] {
      var e := s.q.value[0];
      assert FilesOk(c, s.hist.announced[e.k.name := e.k], s.sent);
      assert !e.status && e.k in s.disk.spool ==>
        FileOk(c, s.hist.announced[e.k.name := e.k], S.TFile(e.k, false, Some(S.Handle(s.disk.spool[e.k], 0))));
    }
  }

  lemma StartFlow(c: Content, live: bool, s: S.Snd, r: R.Rcv, ab: seq<Frame>, ba: seq<Frame>)
    requires Sized(c) && Flow(c, live, s, r, ab, ba) && S.CanStart(s) && NewName(s)
    ensures Flow(c, live, S.Start(s).s, r, ab + S.Start(s).tx, ba)
  {
    StartKeeps(c, s);
    Sent(c, live, s, S.Start(s).s, r, ab, ba, S.Start(s).tx, ba);
  }

  lemma BlockOk(c: Content, s: S.Snd, blk: nat)
    requires Sized(c) && SenderOk(c, s) && S.CanBlock(s)
    ensures S.Block(s, blk).ok && SenderOk(c, S.Block(s, blk).s)
  {
    if Sending(s) {
      var o := s.out.value;
      assert FilesOk(c, s.hist.announced, s.sent + [o.(f := None)]);
    }
  }

  lemma BlockShape(s: S.Snd, blk: nat)
    requires S.CanBlock(s) && S.Block(s, blk).ok
    ensures var x := S.Block(s, blk);
      && x.s.hist.announced == s.hist.announced && x.s.disk.spool == s.disk.spool
      && |x.tx| == 1 && x.tx[0].Data?
      && (!Sending(s) ==> x.tx[0].bytes == [] && !Sending(x.s))
      && (Sending(s) ==>
            var h := s.out.value.f.value;
            && h.pos + |x.tx[0].bytes| <= |h.data|
            && x.tx[0].bytes == h.data[h.pos..h.pos + |x.tx[0].bytes|]
            && (Sending(x.s) ==>
                  x.s.out.value.k == s.out.value.k && x.s.out.value.f.value.pos == h.pos + |x.tx[0].bytes|))
  {
  }

  lemma BlockFlow(c: Content, s: S.Snd, r: R.Rcv, ab: seq<Frame>, ba: seq<Frame>, blk: nat)
    requires Sized(c) && Flow(c, true, s, r, ab, ba) && S.CanBlock(s)
    ensures S.Block(s, blk).ok
    ensures Flow(c, true, S.Block(s, blk).s, r, ab + S.Block(s, blk).tx, ba)
  {
    BlockOk(c, s, blk);
    BlockShape(s, blk);
    Sent(c, true, s, S.Block(s, blk).s, r, ab, ba, S.Block(s, blk).tx, ba);
  }

  lemma CutIn<T>(ts: seq<T>, i: nat)
    requires i < |ts|
    ensures forall x :: x in ts[..i] + ts[i + 1..] ==> x in ts
  {
  }

  lemma GotShape(s: S.Snd, k: Key)
    ensures var t := S.Got(s, k).s;
      && t.hist.announced == s.hist.announced && (t.disk.spool == s.disk.spool || t.disk.spool == s.disk.spool - {k})
      && (t.out.None? || t.out == s.out) && (forall x :: x in t.sent ==> x in s.sent)
  {
    var i := S.Find(s.sent, k);
    if i < |s.sent| { CutIn(s.sent, i); }
  }

  lemma GotKeeps(c: Content, s: S.Snd, k: Key)
    requires Sized(c)
    requires SenderOk(c, s)
    ensures var t := S.Got(s, k).s;
      && SenderOk(c, t) && t.hist.announced == s.hist.announced
      && (forall j :: j in s.disk.spool && j !in t.disk.spool ==> j == k)
      && (Sending(t) ==> t.out == s.out)
  {
    GotShape(s, k);
  }

  lemma GotFlow(c: Content, live: bool, s: S.Snd, r: R.Rcv, ab: seq<Frame>, ba: seq<Frame>)
    requires Sized(c)
    requires Flow(c, live, s, r, ab, ba) && ba != [] && ba[0].MGot?
    ensures Flow(c, live, S.Got(s, ba[0].k).s, r, ab, ba[1..])
    ensures forall k :: k in s.disk.spool && k !in S.Got(s, ba[0].k).s.disk.spool ==> Settled(r, k)
  {
    GotKeeps(c, s, ba[0].k);
    Sent(c, live, s, S.Got(s, ba[0].k).s, r, ab, ba, [], ba[1..]);
    assert ab + [] == ab;
    assert ba[0] in ba;
  }

  lemma SkipOk(c: Content, s: S.Snd, k: Key)
    requires Sized(c) && SenderOk(c, s)
    ensures SenderOk(c, S.Skip(s, k).s)
  {
    assert FilesOk(c, s.hist.announced, S.Without(s.sent, k));
  }

  lemma SkipShape(s: S.Snd, k: Key)
    ensures var x := S.Skip(s, k);
      && x.s.hist.announced == s.hist.announced && x.s.disk.spool == s.disk.spool
      && (x.tx == [] || x.tx == [MErr])
      && (Sending(x.s) ==> x.s.out == s.out)
  {
  }

  lemma SkipFlow(c: Content, live: bool, s: S.Snd, r: R.Rcv, ab: seq<Frame>, ba: seq<Frame>)
    requires Sized(c)
    requires Flow(c, live, s, r, ab, ba) && ba != [] && ba[0].MSkip?
    ensures Flow(c, live, S.Skip(s, ba[0].k).s, r, ab + S.Skip(s, ba[0].k).tx, ba[1..])
    ensures S.Skip(s, ba[0].k).s.disk.spool == s.disk.spool
  {
    SkipOk(c, s, ba[0].k);
    SkipShape(s, ba[0].k);
    Sent(c, live, s, S.Skip(s, ba[0].k).s, r, ab, ba, S.Skip(s, ba[0].k).tx, ba[1..]);
  }

  lemma ReopenKeeps(c: Content, s: S.Snd, k: Key)
    requires Sized(c) && SenderOk(c, s)
    ensures var t := S.Reopen(s, k);
      && SenderOk(c, t) && t.hist.announced == s.hist.announced && t.disk.spool == s.disk.spool
      && (Sending(t) && t.out != s.out ==> t.out.value.k == k && t.out.value.f.value.pos == 0)
  {
    var i := S.Find(s.sent, k);
    if i < |s.sent| {
      var t := S.Reopen(s, k);
      CutIn(s.sent, i);
      assert forall x :: x in t.sent ==> x in s.sent || (Sending(s) && x == s.out.value.(f := None));
      assert t.out.Some? ==> t.out.value.k == s.sent[i].k;
    }
  }

  lemma ReplyOk(c: Content, s: S.Snd, k: Key, off: nat)
    requires Sized(c) && SenderOk(c, s)
    ensures SenderOk(c, S.Reply(s, k, off).s)
  {
    if S.OutIs(s, k) && Sending(s) && off <= k.size {
      assert FileOk(c, s.hist.announced, s.out.value.(f := Some(s.out.value.f.value.(pos := off))));
    }
  }

  lemma ReplyShape(s: S.Snd, k: Key, off: nat)
    ensures var x := S.Reply(s, k, off);
      && x.s.hist.announced == s.hist.announced && x.s.disk.spool == s.disk.spool && |x.tx| <= 1
      && (x.ok ==> |x.tx| == 1 && x.tx[0].MFile? && x.tx[0].k == k && x.tx[0].off == off && S.OutIs(s, k))
      && (!x.ok ==> x.tx == [] || x.tx == [MErr])
      && (x.ok && Sending(x.s) ==> x.s.out.value.k == k && x.s.out.value.f.value.pos == off)
  {
  }

  lemma GetKeeps(c: Content, s: S.Snd, k: Key, off: nat)
    requires Sized(c) && SenderOk(c, s)
    ensures var x := S.Get(s, k, off);
      && SenderOk(c, x.s) && x.s.hist.announced == s.hist.announced && x.s.disk.spool == s.disk.spool && |x.tx| <= 1
      && (x.ok ==> |x.tx| == 1 && x.tx[0].MFile? && x.tx[0].k == k && x.tx[0].off == off && S.Announced(s, k))
      && (!x.ok ==> x.tx == [] || x.tx == [MErr])
      && (x.ok && Sending(x.s) ==> x.s.out.value.k == k && x.s.out.value.f.value.pos == off)
  {
    ReopenKeeps(c, s, k);
    ReplyOk(c, S.Reopen(s, k), k, off);
    ReplyShape(S.Reopen(s, k), k, off);
  }

  lemma GetFlow(c: Content, s: S.Snd, r: R.Rcv, ab: seq<Frame>, ba: seq<Frame>)
    requires Sized(c) && Flow(c, true, s, r, ab, ba) && ba != [] && ba[0].MGet?
    ensures Flow(c, S.Get(s, ba[0].k, ba[0].at).ok, S.Get(s, ba[0].k, ba[0].at).s,
      r, ab + S.Get(s, ba[0].k, ba[0].at).tx, ba[1..])
    ensures S.Get(s, ba[0].k, ba[0].at).s.disk.spool == s.disk.spool
  {
    var k, off := ba[0].k, ba[0].at;
    GetKeeps(c, s, k, off);
    assert Flow(c, S.Get(s, k, off).ok, s, r, ab, ba);
    Sent(c, S.Get(s, k, off).ok, s, S.Get(s, k, off).s, r, ab, ba, S.Get(s, k, off).tx, ba[1..]);
  }

  // ---- steps of the receiving half ----

  lemma DoneKeeps(c: Content, r: R.Rcv, k: Key)
    requires Sized(c)
    requires ReceiverOk(c, r) && r.inn.None?
    requires PartOf(k) in r.disk.parts && r.disk.parts[PartOf(k)] == c[PartOf(k)]
    ensures R.Done(r, k).ok && ReceiverOk(c, R.Done(r, k).r)
    ensures PartOf(k) in R.Done(r, k).r.hist.had
  {
  }

  lemma RenameKeeps(c: Content, r: R.Rcv)
    requires Sized(c)
    requires ReceiverOk(c, r)
    ensures ReceiverOk(c, R.Rename(r).r)
    ensures R.Rename(r).r.inn == r.inn
    ensures forall k :: Settled(r, k) ==> Settled(R.Rename(r).r, k)
    ensures R.Rename(r).ok ==> R.Rename(r).r.inComplete.None?
    ensures r.inn.Some? ==> R.Rename(r).r == r
  {
    if r.g.theyND && r.inComplete.Some? && PartOf(r.inComplete.value) in r.disk.parts {
      DoneKeeps(c, r, r.inComplete.value);
    }
  }

  lemma CloseKeeps(c: Content, r: R.Rcv)
    requires Sized(c) && ReceiverOk(c, r)
    ensures ReceiverOk(c, R.ClosePartial(r))
    ensures forall k :: Settled(r, k) ==> Settled(R.ClosePartial(r), k)
  {
  }

  lemma OpenKeeps(c: Content, r: R.Rcv, k: Key, w: bool)
    requires Sized(c) && ReceiverOk(c, r) && r.inn.None? && r.inComplete.None?
    ensures ReceiverOk(c, R.Open(r, k, w)) && R.Open(r, k, w).inn == Some(R.In(k, w))
    ensures forall k :: Settled(r, k) ==> Settled(R.Open(r, k, w), k)
  {
    var cur := R.Part(r, k);
    assert cur <= c[PartOf(k)];
  }

  lemma OffsetKeeps(c: Content, r: R.Rcv, off: int)
    requires Sized(c) && ReceiverOk(c, r) && r.inn.Some?
    ensures var x := R.Offset(r, off);
      && ReceiverOk(c, x.r) && x.ok
      && (forall k :: Settled(r, k) ==> Settled(x.r, k))
      && (x.r.inn.Some? ==> x.r.inn == r.inn && off >= 0 && Cur(x.r) == At(r.inn.value.k, off) && x.tx == [])
      && |x.tx| <= 1 && (x.tx != [] ==> x.tx[0].MGet?)
  {
  }

  lemma AdmitKeeps(c: Content, r: R.Rcv, k: Key, off: int, w: bool, fails: bool)
    requires Sized(c) && ReceiverOk(c, r) && r.inComplete.None?
    requires r.inn.Some? ==> r.inn.value.k == k
    ensures var x := R.Admit(r, k, off, w, fails);
      && ReceiverOk(c, x.r) && x.ok
      && (forall j :: Settled(r, j) ==> Settled(x.r, j))
      && (x.r.inn.Some? ==> off >= 0 && Cur(x.r) == At(k, off) && x.r.inn.value.k == k)
      && |x.tx| <= 1 && (x.tx != [] ==> IsAnswer(x.tx[0]) && (x.tx[0].MGot? ==> Settled(x.r, x.tx[0].k)))
  {
    if r.inn.None? {
      OpenKeeps(c, r, k, w);
      OffsetKeeps(c, R.Open(r, k, w), off);
    } else {
      OffsetKeeps(c, r, off);
    }
  }

  lemma FileKeeps(c: Content, r: R.Rcv, k: Key, off: int, w: bool, fails: bool)
    requires Sized(c) && ReceiverOk(c, r)
    requires r.inn.Some? && r.inn.value.k.name == k.name ==> r.inn.value.k == k
    ensures var x := R.File(r, k, off, w, fails);
      && ReceiverOk(c, x.r)
      && (forall j :: Settled(r, j) ==> Settled(x.r, j))
      && (x.ok && x.r.inn.Some? ==> off >= 0 && Cur(x.r) == At(k, off))
      && |x.tx| <= 1
      && (x.tx != [] ==> x.tx[0].MErr? || (IsAnswer(x.tx[0]) && (x.tx[0].MGot? ==> Settled(x.r, x.tx[0].k))))
      && (x.r.inn.Some? ==> x.ok && x.r.inn.value.k == k)
  {
    var r0 := if r.inn.Some? && r.inn.value.k.name != k.name then R.ClosePartial(r) else r;
    CloseKeeps(c, r);
    RenameKeeps(c, r0);
    var d := R.Rename(r0);
    if d.ok {
      AdmitKeeps(c, if off == -1 then d.r.(g := d.r.g.(theyNR := true)) else d.r, k, off, w, fails);
    }
  }

  /** The receiving half consumed the first frame, moved to `t` and queued `tx`. */
  lemma Received(c: Content, live: bool, s: S.Snd, r: R.Rcv, t: R.Rcv, ab: seq<Frame>, ba: seq<Frame>, tx: seq<Frame>)
    requires Sized(c) && Flow(c, live, s, r, ab, ba) && ab != [] && ReceiverOk(c, t)
    requires forall k :: Settled(r, k) ==> Settled(t, k)
    requires t.inn.Some? ==> S.Announced(s, t.inn.value.k)
    requires Cur(t) in {Free, After(Cur(r), ab[0])}
    requires |tx| <= 1 && (tx != [] && tx[0].MGot? ==> Settled(t, tx[0].k))
    ensures Flow(c, live, s, t, ab[1..], ba + tx)
  {
    FitsFree(c, After(Cur(r), ab[0]), ab[1..]);
  }

  lemma FileFlow(c: Content, live: bool, s: S.Snd, r: R.Rcv, ab: seq<Frame>, ba: seq<Frame>, fails: bool)
    requires Sized(c) && Flow(c, live, s, r, ab, ba) && ab != [] && ab[0].MFile?
    ensures var x := R.File(r, ab[0].k, ab[0].off, ab[0].farewell, fails);
      Flow(c, live, s, x.r, ab[1..], ba + x.tx)
  {
    FileKeeps(c, r, ab[0].k, ab[0].off, ab[0].farewell, fails);
    var x := R.File(r, ab[0].k, ab[0].off, ab[0].farewell, fails);
    assert ab[0] in ab;
    Received(c, live, s, r, x.r, ab, ba, x.tx);
  }

  lemma DataKeeps(c: Content, r: R.Rcv, bytes: seq<Byte>)
    requires Sized(c) && ReceiverOk(c, r) && Fit(c, Cur(r), Data(bytes))
    ensures var x := R.Data(r, bytes);
      && ReceiverOk(c, x.r) && x.ok && |x.tx| <= 1
      && (forall k :: Settled(r, k) ==> Settled(x.r, k))
      && Cur(x.r) in {Free, After(Cur(r), Data(bytes))}
      && (x.r.inn.Some? ==> x.r.inn == r.inn)
      && (x.tx != [] ==> x.tx[0].MGot? && Settled(x.r, x.tx[0].k))
  {
    if r.inn.Some? {
      var k := r.inn.value.k;
      var p := PartOf(k);
      var all := R.Part(r, k) + bytes;
      assert all <= c[p] && |all| <= k.size;
      var r0 := r.(disk := r.disk.(parts := r.disk.parts[p := all]));
      assert ReceiverOk(c, r0);
      if |all| == k.size {
        assert all == c[p];
        var r1 := r0.(inn := None);
        assert ReceiverOk(c, r1);
        DoneKeeps(c, r1, k);
      }
    }
  }

  lemma DataFlow(c: Content, live: bool, s: S.Snd, r: R.Rcv, ab: seq<Frame>, ba: seq<Frame>)
    requires Sized(c) && Flow(c, live, s, r, ab, ba) && ab != [] && ab[0].Data?
    ensures var x := R.Data(r, ab[0].bytes);
      Flow(c, live, s, x.r, ab[1..], ba + x.tx)
  {
    DataKeeps(c, r, ab[0].bytes);
    var x := R.Data(r, ab[0].bytes);
    Received(c, live, s, r, x.r, ab, ba, x.tx);
  }

  lemma EobKeeps(c: Content, r: R.Rcv)
    requires Sized(c) && ReceiverOk(c, r)
    ensures var x := R.Eob(r);
      && ReceiverOk(c, x.r) && x.r.inn.None?
      && (forall k :: Settled(r, k) ==> Settled(x.r, k))
      && (x.tx == [] || x.tx == [MErr])
  {
    CloseKeeps(c, r);
    var r0 :=
      if r.inn.Some? && !r.g.theyNR && R.Part(r, r.inn.value.k) != [] then
        R.Reject(r, r.inn.value.k).(inn := None)
      else R.ClosePartial(r);
    assert ReceiverOk(c, r0);
    RenameKeeps(c, r0);
  }

  /** Frames of the other direction leave this one alone. */
  lemma OtherFlow(c: Content, live: bool, s: S.Snd, r: R.Rcv, ab: seq<Frame>, ba: seq<Frame>, f: Frame)
    requires Sized(c)
    requires Flow(c, live, s, r, ab, ba)
    ensures IsAnswer(f) || f.MErr? || f.MEob? ==> Flow(c, live, s, r, ab + [f], ba)
    ensures !f.MGot? ==> Flow(c, live, s, r, ab, ba + [f])
    ensures ab != [] && (IsAnswer(ab[0]) || ab[0].MErr?) ==> Flow(c, live, s, r, ab[1..], ba)
    ensures ba != [] ==> Flow(c, live, s, r, ab, ba[1..])
  {
    FitsAppend(c, Cur(r), ab, f);
  }

  // ---- the two peers ----

  ghost predicate Flows(c: Content, d: Content, s: Sys)
    requires Sized(c) && Sized(d)
  {
    && Flow(c, s.a.bat.live, s.a.snd, s.b.rcv, s.a.tx, s.b.tx)
    && Flow(d, s.b.bat.live, s.b.snd, s.a.rcv, s.b.tx, s.a.tx)
  }

  lemma OtherFlows(c: Content, live: bool, s: S.Snd, r: R.Rcv, ab: seq<Frame>, ba: seq<Frame>, xs: seq<Frame>,
      sender: bool)
    requires Sized(c)
    requires Flow(c, live, s, r, ab, ba) && |xs| <= 1
    requires sender ==> forall f :: f in xs ==> IsAnswer(f) || f.MErr? || f.MEob?
    requires !sender ==> forall f :: f in xs ==> !f.MGot?
    ensures sender ==> Flow(c, live, s, r, ab + xs, ba)
    ensures !sender ==> Flow(c, live, s, r, ab, ba + xs)
  {
    assert ab + [] == ab && ba + [] == ba;
    if xs != [] {
      assert xs == [xs[0]];
      OtherFlow(c, live, s, r, ab, ba, xs[0]);
    }
  }

  /** Peer `a` consumed a frame with its receiving half and went from `s` to `t`. */
  lemma ByReceiver(c: Content, d: Content, s: Sys, t: Sys, r: R.Rcv, tx: seq<Frame>)
    requires Sized(c) && Sized(d) && Flows(c, d, s) && s.b.tx != []
    requires t.a.snd == s.a.snd && t.a.rcv == r && t.a.tx == s.a.tx + tx && (t.a.bat.live ==> s.a.bat.live)
    requires t.b == s.b.(tx := s.b.tx[1..])
    requires |tx| <= 1 && forall f :: f in tx ==> IsAnswer(f) || f.MErr?
    requires Flow(d, s.b.bat.live, s.b.snd, r, s.b.tx[1..], s.a.tx + tx)
    ensures Flows(c, d, t)
  {
    OtherFlow(c, s.a.bat.live, s.a.snd, s.b.rcv, s.a.tx, s.b.tx, MErr);
    OtherFlows(c, s.a.bat.live, s.a.snd, s.b.rcv, s.a.tx, s.b.tx[1..], tx, true);
  }

  /** Peer `a` moved its sending half; `rest` is what is left of the frames from the other side. */
  lemma BySender(c: Content, d: Content, s: Sys, t: Sys, u: S.Snd, tx: seq<Frame>, ok: bool, rest: seq<Frame>)
    requires Sized(c) && Sized(d) && Flows(c, d, s)
    requires t.a.snd == u && t.a.rcv == s.a.rcv && t.a.tx == s.a.tx + tx && (t.a.bat.live ==> ok)
    requires rest == s.b.tx || (s.b.tx != [] && rest == s.b.tx[1..] && IsAnswer(s.b.tx[0]))
    requires t.b == s.b.(tx := rest)
    requires |tx| <= 1 && forall f :: f in tx ==> !f.MGot?
    requires Flow(c, ok, u, s.b.rcv, s.a.tx + tx, rest)
    ensures Flows(c, d, t)
  {
    OtherFlow(d, s.b.bat.live, s.b.snd, s.a.rcv, s.b.tx, s.a.tx, MErr);
    OtherFlows(d, s.b.bat.live, s.b.snd, s.a.rcv, rest, s.a.tx, tx, false);
  }

  /** Peer `a` took a frame, and its receiving half did `x`. */
  ghost predicate Received1(s: Sys, t: Sys, x: R.Result) {
    && t.a.snd == s.a.snd && t.a.rcv == x.r && t.a.tx == s.a.tx + x.tx && (t.a.bat.live ==> s.a.bat.live)
    && s.b.tx != [] && t.b == s.b.(tx := s.b.tx[1..])
  }

  lemma FileStep(s: Sys, fails: bool)
    requires Enabled(s.a, s.b.tx, Recv(fails)) && s.b.tx[0].MFile?
    ensures var f := s.b.tx[0];
      Received1(s, StepA(s, Recv(fails)), R.File(s.a.rcv, f.k, f.off, f.farewell, fails))
  {
  }

  lemma FileAnswers(c: Content, live: bool, s: S.Snd, r: R.Rcv, ab: seq<Frame>, ba: seq<Frame>, fails: bool)
    requires Sized(c) && Flow(c, live, s, r, ab, ba) && ab != [] && ab[0].MFile?
    ensures var x := R.File(r, ab[0].k, ab[0].off, ab[0].farewell, fails);
      |x.tx| <= 1 && forall f :: f in x.tx ==> IsAnswer(f) || f.MErr?
  {
    assert ab[0] in ab;
    FileKeeps(c, r, ab[0].k, ab[0].off, ab[0].farewell, fails);
    OneAnswer(R.File(r, ab[0].k, ab[0].off, ab[0].farewell, fails).tx);
  }

  lemma OneAnswer(tx: seq<Frame>)
    requires |tx| <= 1 && (tx != [] ==> tx[0].MErr? || IsAnswer(tx[0]))
    ensures forall f :: f in tx ==> IsAnswer(f) || f.MErr?
  {
  }

  lemma ReceivedSafe(c: Content, d: Content, s: Sys, t: Sys, x: R.Result)
    requires Sized(c) && Sized(d) && Flows(c, d, s) && Received1(s, t, x)
    requires |x.tx| <= 1 && forall f :: f in x.tx ==> IsAnswer(f) || f.MErr?
    requires Flow(d, s.b.bat.live, s.b.snd, x.r, s.b.tx[1..], s.a.tx + x.tx)
    ensures Flows(c, d, t)
  {
    ByReceiver(c, d, s, t, x.r, x.tx);
  }

  lemma RecvFileSafe(c: Content, d: Content, s: Sys, fails: bool)
    requires Sized(c) && Sized(d) && Flows(c, d, s)
    requires Enabled(s.a, s.b.tx, Recv(fails)) && s.b.tx[0].MFile?
    ensures Flows(c, d, StepA(s, Recv(fails)))
  {
    var f := s.b.tx[0];
    FileStep(s, fails);
    FileAnswers(d, s.b.bat.live, s.b.snd, s.a.rcv, s.b.tx, s.a.tx, fails);
    FileFlow(d, s.b.bat.live, s.b.snd, s.a.rcv, s.b.tx, s.a.tx, fails);
    ReceivedSafe(c, d, s, StepA(s, Recv(fails)), R.File(s.a.rcv, f.k, f.off, f.farewell, fails));
  }

  lemma RecvEobSafe(c: Content, d: Content, s: Sys, fails: bool)
    requires Sized(c) && Sized(d) && Flows(c, d, s)
    requires Enabled(s.a, s.b.tx, Recv(fails)) && s.b.tx[0].MEob?
    ensures Flows(c, d, StepA(s, Recv(fails)))
  {
    var x := R.Eob(s.a.rcv);
    EobKeeps(d, s.a.rcv);
    Received(d, s.b.bat.live, s.b.snd, s.a.rcv, x.r, s.b.tx, s.a.tx, x.tx);
    ByReceiver(c, d, s, StepA(s, Recv(fails)), x.r, x.tx);
  }

  lemma RecvDataSafe(c: Content, d: Content, s: Sys, fails: bool)
    requires Sized(c) && Sized(d) && Flows(c, d, s)
    requires Enabled(s.a, s.b.tx, Recv(fails)) && s.b.tx[0].Data?
    ensures Flows(c, d, StepA(s, Recv(fails)))
  {
    var x := R.Data(s.a.rcv, s.b.tx[0].bytes);
    DataKeeps(d, s.a.rcv, s.b.tx[0].bytes);
    DataFlow(d, s.b.bat.live, s.b.snd, s.a.rcv, s.b.tx, s.a.tx);
    ByReceiver(c, d, s, StepA(s, Recv(fails)), x.r, x.tx);
  }

  lemma RecvErrSafe(c: Content, d: Content, s: Sys, fails: bool)
    requires Sized(c) && Sized(d) && Flows(c, d, s)
    requires Enabled(s.a, s.b.tx, Recv(fails)) && s.b.tx[0].MErr?
    ensures Flows(c, d, StepA(s, Recv(fails)))
  {
    OtherFlow(c, s.a.bat.live, s.a.snd, s.b.rcv, s.a.tx, s.b.tx, MErr);
    OtherFlow(d, s.b.bat.live, s.b.snd, s.a.rcv, s.b.tx, s.a.tx, MErr);
  }

  lemma RecvGetSafe(c: Content, d: Content, s: Sys, fails: bool)
    requires Sized(c) && Sized(d) && Flows(c, d, s)
    requires Enabled(s.a, s.b.tx, Recv(fails)) && s.b.tx[0].MGet?
    ensures Flows(c, d, StepA(s, Recv(fails)))
    ensures StepA(s, Recv(fails)).a.snd.disk.spool == s.a.snd.disk.spool
  {
    var x := S.Get(s.a.snd, s.b.tx[0].k, s.b.tx[0].at);
    GetKeeps(c, s.a.snd, s.b.tx[0].k, s.b.tx[0].at);
    GetFlow(c, s.a.snd, s.b.rcv, s.a.tx, s.b.tx);
    BySender(c, d, s, StepA(s, Recv(fails)), x.s, x.tx, x.ok, s.b.tx[1..]);
  }

  lemma RecvGotSafe(c: Content, d: Content, s: Sys, fails: bool)
    requires Sized(c) && Sized(d) && Flows(c, d, s)
    requires Enabled(s.a, s.b.tx, Recv(fails)) && s.b.tx[0].MGot?
    ensures Flows(c, d, StepA(s, Recv(fails)))
    ensures forall k :: k in s.a.snd.disk.spool && k !in StepA(s, Recv(fails)).a.snd.disk.spool ==> Settled(s.b.rcv, k)
  {
    var x := S.Got(s.a.snd, s.b.tx[0].k);
    GotFlow(c, s.a.bat.live, s.a.snd, s.b.rcv, s.a.tx, s.b.tx);
    assert x.tx == [] && x.ok && s.a.tx + [] == s.a.tx;
    BySender(c, d, s, StepA(s, Recv(fails)), x.s, [], true, s.b.tx[1..]);
  }

  lemma RecvSkipSafe(c: Content, d: Content, s: Sys, fails: bool)
    requires Sized(c) && Sized(d) && Flows(c, d, s)
    requires Enabled(s.a, s.b.tx, Recv(fails)) && s.b.tx[0].MSkip?
    ensures Flows(c, d, StepA(s, Recv(fails)))
    ensures StepA(s, Recv(fails)).a.snd.disk.spool == s.a.snd.disk.spool
  {
    var x := S.Skip(s.a.snd, s.b.tx[0].k);
    SkipShape(s.a.snd, s.b.tx[0].k);
    SkipFlow(c, s.a.bat.live, s.a.snd, s.b.rcv, s.a.tx, s.b.tx);
    BySender(c, d, s, StepA(s, Recv(fails)), x.s, x.tx, true, s.b.tx[1..]);
  }

  /** The condition on a step: the file that starts has a name of its own in this session. */
  ghost predicate NameOk(p: Peer, act: Act) {
    act.Top? ==> NewName(p.snd)
  }

  lemma TopSafe(c: Content, d: Content, s: Sys)
    requires Sized(c) && Sized(d) && Flows(c, d, s)
    requires Enabled(s.a, s.b.tx, Top) && NewName(s.a.snd)
    ensures Flows(c, d, StepA(s, Top))
    ensures StepA(s, Top).a.snd.disk.spool == s.a.snd.disk.spool
  {
    StartKeeps(c, s.a.snd);
    StartFlow(c, s.a.bat.live, s.a.snd, s.b.rcv, s.a.tx, s.b.tx);
    BySender(c, d, s, StepA(s, Top), S.Start(s.a.snd).s, S.Start(s.a.snd).tx, true, s.b.tx);
  }

  lemma EobSafe(c: Content, d: Content, s: Sys)
    requires Sized(c) && Sized(d) && Flows(c, d, s)
    requires Enabled(s.a, s.b.tx, SendEob)
    ensures Flows(c, d, StepA(s, SendEob))
    ensures StepA(s, SendEob).a.snd.disk.spool == s.a.snd.disk.spool
  {
    OtherFlow(c, s.a.bat.live, s.a.snd, s.b.rcv, s.a.tx, s.b.tx, MEob);
    OtherFlow(d, s.b.bat.live, s.b.snd, s.a.rcv, s.b.tx, s.a.tx, MEob);
  }

  lemma BlockSafe(c: Content, d: Content, s: Sys, blk: nat)
    requires Sized(c) && Sized(d) && Flows(c, d, s)
    requires Enabled(s.a, s.b.tx, SendBlock(blk))
    ensures Flows(c, d, StepA(s, SendBlock(blk)))
    ensures StepA(s, SendBlock(blk)).a.snd.disk.spool == s.a.snd.disk.spool
  {
    BlockOk(c, s.a.snd, blk);
    BlockShape(s.a.snd, blk);
    BlockFlow(c, s.a.snd, s.b.rcv, s.a.tx, s.b.tx, blk);
    BySender(c, d, s, StepA(s, SendBlock(blk)), S.Block(s.a.snd, blk).s, S.Block(s.a.snd, blk).tx, true, s.b.tx);
  }

  /** A file that waits to be renamed after the M_EOB of the remote has been counted in this batch, with its answer:
      so the batch is not the last one. */
  ghost predicate Steady(p: Peer) {
    && (p.rcv.inComplete.Some? ==> p.rcv.g.theyND)
    && (p.bat.live ==>
          && (p.rcv.inn.Some? ==> p.bat.msgs >= (if p.bat.remoteEOB then 2 else 1) && p.rcv.inComplete.None?)
          && (p.rcv.inComplete.Some? && p.bat.remoteEOB ==> p.bat.msgs >= 3)
          && (p.bat.remoteEOB ==> p.bat.msgs >= 1))
  }

  lemma RenameSteady(r: R.Rcv)
    requires r.inComplete.Some? ==> r.g.theyND
    ensures var x := R.Rename(r); x.r.g == r.g && (x.ok ==> x.r.inComplete.None?)
  {
  }

  lemma AdmitSteady(r: R.Rcv, k: Key, off: int, w: bool, fails: bool)
    ensures var x := R.Admit(r, k, off, w, fails); x.r.g.theyND == r.g.theyND && x.r.inComplete == r.inComplete
  {
  }

  lemma FileSteady(r: R.Rcv, k: Key, off: int, w: bool, fails: bool)
    requires r.inComplete.Some? ==> r.g.theyND
    ensures var x := R.File(r, k, off, w, fails); x.r.g.theyND == r.g.theyND && (x.ok ==> x.r.inComplete.None?)
  {
    var r0 := if r.inn.Some? && r.inn.value.k.name != k.name then R.ClosePartial(r) else r;
    assert r0.g == r.g && r0.inComplete == r.inComplete;
    RenameSteady(r0);
    var d := R.Rename(r0);
    AdmitSteady(if off == -1 then d.r.(g := d.r.g.(theyNR := true)) else d.r, k, off, w, fails);
  }

  lemma DataSteady(r: R.Rcv, bytes: seq<Byte>)
    ensures var x := R.Data(r, bytes);
      && x.r.g == r.g && (r.inn.None? ==> x.r == r) && (x.r.inn.Some? ==> x.r.inComplete == r.inComplete)
      && (x.r.inComplete.Some? ==> x.r.inComplete == r.inComplete || (r.g.theyND && Msgs(x.tx) == 1))
  {
  }

  lemma EobSteady(r: R.Rcv)
    requires r.inComplete.Some? ==> r.g.theyND
    ensures var x := R.Eob(r); x.r.inn.None? && x.r.g == r.g && (x.ok ==> x.r.inComplete.None?)
  {
  }

  /** The receiving half is `r` now, and `n` messages more were counted. */
  lemma Resteadied(p: Peer, r: R.Rcv, n: nat, eob: bool, q: Peer)
    requires Steady(p) && p.bat.live && r.g.theyND == p.rcv.g.theyND && q.rcv == r
    requires q.bat.live ==> q.bat.msgs == p.bat.msgs + n && q.bat.remoteEOB == (p.bat.remoteEOB || eob)
    requires r.inComplete.Some? ==> r.g.theyND
    requires q.bat.live && r.inn.Some? ==>
      !eob && (if n > 0 then r.inComplete.None? else p.rcv.inn.Some? && r.inComplete == p.rcv.inComplete)
    requires q.bat.live && r.inComplete.Some? ==>
      !eob && (r.inComplete == p.rcv.inComplete || (p.rcv.inn.Some? && n > 0))
    requires eob ==> n > 0
    ensures Steady(q)
  {
  }

  lemma FileHandled(p: Peer, k: Key, off: int, w: bool, fails: bool)
    requires Steady(p) && p.bat.live
    ensures Steady(Handle(p, MFile(k, off, w), fails))
  {
    var x := R.File(p.rcv, k, off, w, fails);
    FileSteady(p.rcv, k, off, w, fails);
    Resteadied(p, x.r, 1 + Msgs(x.tx), false, Handle(p, MFile(k, off, w), fails));
  }

  lemma EobHandled(p: Peer)
    requires Steady(p) && p.bat.live
    ensures Steady(Handle(p, MEob, false))
  {
    var x := R.Eob(p.rcv);
    EobSteady(p.rcv);
    Resteadied(p, x.r, 1 + Msgs(x.tx), true, Handle(p, MEob, false));
  }

  lemma DataHandled(p: Peer, bytes: seq<Byte>)
    requires Steady(p) && p.bat.live
    ensures Steady(Handle(p, Data(bytes), false))
  {
    var x := R.Data(p.rcv, bytes);
    DataSteady(p.rcv, bytes);
    Resteadied(p, x.r, Msgs(x.tx), false, Handle(p, Data(bytes), false));
  }

  lemma HandleSteady(p: Peer, f: Frame, fails: bool)
    requires Steady(p) && p.bat.live
    ensures Steady(Handle(p, f, fails))
  {
    match f
    case MFile(k, off, w) => FileHandled(p, k, off, w, fails);
    case Data(bytes) => DataHandled(p, bytes);
    case MEob => EobHandled(p);
    case _ =>
  }

  lemma StepSteady(p: Peer, from: seq<Frame>, act: Act)
    requires Steady(p) && Enabled(p, from, act)
    ensures Steady(Step(p, from, act))
  {
    if act.Recv? {
      HandleSteady(p, from[0], act.openFails);
    }
  }

  /** What the end of a batch or of a session leaves alone. */
  ghost predicate Ended(p: Peer, q: Peer) {
    && q.snd.disk.spool == p.snd.disk.spool && q.snd.out == p.snd.out && q.snd.sent == p.snd.sent
    && q.snd.hist == p.snd.hist
    && q.rcv.inn == p.rcv.inn && q.rcv.inComplete == p.rcv.inComplete && q.rcv.g == p.rcv.g && q.rcv.hist == p.rcv.hist
    && q.rcv.masks == p.rcv.masks
    && q.rcv.disk.inbound == p.rcv.disk.inbound && (q.rcv.disk.parts == p.rcv.disk.parts || q.rcv.disk.parts == map[])
    && (q.rcv.disk.parts == map[] ==> p.rcv.inComplete.None? || p.rcv.disk.parts == map[])
    && p.rcv.inn.None? && q.tx == p.tx && (q.bat.live ==> p.bat.live)
  }

  lemma EndStep(s: Sys, more: seq<S.Entry>)
    requires Enabled(s.a, s.b.tx, EndBatch(more)) && Steady(s.a)
    ensures Ended(s.a, StepA(s, EndBatch(more)).a) && StepA(s, EndBatch(more)).b == s.b
  {
  }

  lemma EndedSafe(c: Content, d: Content, s: Sys, t: Sys)
    requires Sized(c) && Sized(d) && Flows(c, d, s) && Ended(s.a, t.a) && t.b == s.b
    ensures Flows(c, d, t)
  {
    assert ReceiverOk(d, t.a.rcv);
    assert Flow(c, t.a.bat.live, t.a.snd, s.b.rcv, s.a.tx, s.b.tx);
    assert Flow(d, s.b.bat.live, s.b.snd, t.a.rcv, s.b.tx, s.a.tx);
  }

  lemma EndSafe(c: Content, d: Content, s: Sys, more: seq<S.Entry>)
    requires Sized(c) && Sized(d) && Flows(c, d, s)
    requires Enabled(s.a, s.b.tx, EndBatch(more)) && Steady(s.a)
    ensures Flows(c, d, StepA(s, EndBatch(more)))
    ensures StepA(s, EndBatch(more)).a.snd.disk.spool == s.a.snd.disk.spool
  {
    EndStep(s, more);
    EndedSafe(c, d, s, StepA(s, EndBatch(more)));
  }

  /** Steps that neither send nor receive. */
  lemma QuietSafe(c: Content, d: Content, s: Sys, act: Act)
    requires Sized(c) && Sized(d) && Flows(c, d, s)
    requires Enabled(s.a, s.b.tx, act) && (act.Enqueue? || act.Take? || act.Stop?)
    ensures Flows(c, d, StepA(s, act))
    ensures StepA(s, act).a.snd.disk.spool == s.a.snd.disk.spool
  {
  }

  lemma ActSafe(c: Content, d: Content, s: Sys, act: Act)
    requires Sized(c) && Sized(d) && Flows(c, d, s)
    requires Enabled(s.a, s.b.tx, act) && NameOk(s.a, act) && Steady(s.a)
    ensures Flows(c, d, StepA(s, act))
    ensures forall k :: k in s.a.snd.disk.spool && k !in StepA(s, act).a.snd.disk.spool ==> Settled(s.b.rcv, k)
  {
    match act
    case Top => TopSafe(c, d, s);
    case SendEob => EobSafe(c, d, s);
    case SendBlock(blk) => BlockSafe(c, d, s, blk);
    case Recv(fails) =>
      match s.b.tx[0] {
        case MFile(_, _, _) => RecvFileSafe(c, d, s, fails);
        case MGet(_, _) => RecvGetSafe(c, d, s, fails);
        case MGot(_) => RecvGotSafe(c, d, s, fails);
        case MSkip(_) => RecvSkipSafe(c, d, s, fails);
        case Data(_) => RecvDataSafe(c, d, s, fails);
        case MEob => RecvEobSafe(c, d, s, fails);
        case MErr => RecvErrSafe(c, d, s, fails);
      }
    case EndBatch(more) => EndSafe(c, d, s, more);
    case Enqueue(more) => QuietSafe(c, d, s, act);
    case Take(p) => QuietSafe(c, d, s, act);
    case Stop => QuietSafe(c, d, s, act);
  }

  lemma AgainSafe(c: Content, d: Content, s: Sys, t: Sys, qa: Option<seq<S.Entry>>, qb: Option<seq<S.Entry>>,
      nra: bool, nda: bool, nrb: bool, ndb: bool)
    requires Sized(c) && Sized(d) && Flows(c, d, s)
    requires t == Sys(Fresh(s.a, qa, nra, nda, ndb), Fresh(s.b, qb, nrb, ndb, nda))
    ensures Flows(c, d, t) && t.a.snd.disk.spool == s.a.snd.disk.spool
  {
  }

  /** What holds in every state of every run. */
  ghost predicate Safe(c: Content, d: Content, s: Sys)
    requires Sized(c) && Sized(d)
  {
    Flows(c, d, s) && Steady(s.a) && Steady(s.b)
  }

  /** Resume correctness, step by step: the invariant survives every step of either peer and every new session. */
  lemma NextSafe(c: Content, d: Content, s: Sys, l: Label, t: Sys)
    requires Sized(c) && Sized(d) && Safe(c, d, s) && Next(s, l, t)
    requires l.ActA? ==> NameOk(s.a, l.act)
    requires l.ActB? ==> NameOk(s.b, l.act)
    ensures Safe(c, d, t)
    ensures forall k :: k in s.a.snd.disk.spool && k !in t.a.snd.disk.spool ==> Settled(s.b.rcv, k)
  {
    match l
    case ActA(act) =>
      ActSafe(c, d, s, act);
      StepSteady(s.a, s.b.tx, act);
    case ActB(act) =>
      ActSafe(d, c, Flip(s), act);
      StepSteady(s.b, s.a.tx, act);
    case Again(qa, qb, nra, nda, nrb, ndb) => AgainSafe(c, d, s, t, qa, qb, nra, nda, nrb, ndb);
  }

  ghost predicate NamesOk(ss: seq<Sys>, ls: seq<Label>)
    requires Run(ss, ls)
  {
    forall i :: 0 <= i < |ls| ==>
      (ls[i].ActA? ==> NameOk(ss[i].a, ls[i].act)) && (ls[i].ActB? ==> NameOk(ss[i].b, ls[i].act))
  }

  /** Two peers whose disks hold what the keys promise, before their first session. */
  ghost predicate Start(c: Content, d: Content, s: Sys)
    requires Sized(c) && Sized(d)
  {
    && (forall k :: k in s.a.snd.disk.spool ==> s.a.snd.disk.spool[k] == c[PartOf(k)])
    && (forall k :: k in s.b.snd.disk.spool ==> s.b.snd.disk.spool[k] == d[PartOf(k)])
    && DiskOk(c, s.b.rcv) && DiskOk(d, s.a.rcv)
    && (exists qa, qb, nra, nda, nrb, ndb ::
          s == Sys(Fresh(s.a, qa, nra, nda, ndb), Fresh(s.b, qb, nrb, ndb, nda)))
  }

  ghost predicate DiskOk(c: Content, r: R.Rcv)
    requires Sized(c)
  {
    && (forall p :: p in r.disk.parts ==> r.disk.parts[p] <= c[p])
    && (forall p :: p in r.disk.inbound ==> r.disk.inbound[p] == c[p] && p in r.hist.had)
    && r.hist.log == []
  }

  lemma FirstSafe(c: Content, d: Content, s: Sys)
    requires Sized(c) && Sized(d) && Start(c, d, s)
    ensures Safe(c, d, s)
  {
    assert Flow(c, true, s.a.snd, s.b.rcv, [], []);
    assert Flow(d, true, s.b.snd, s.a.rcv, [], []);
  }

  lemma {:induction false} SafeAlways(c: Content, d: Content, ss: seq<Sys>, ls: seq<Label>, i: nat)
    requires Sized(c) && Sized(d) && Run(ss, ls) && NamesOk(ss, ls) && Start(c, d, ss[0]) && i < |ss|
    ensures Safe(c, d, ss[i])
  {
    if i == 0 {
      FirstSafe(c, d, ss[0]);
    } else {
      SafeAlways(c, d, ss, ls, i - 1);
      NextSafe(c, d, ss[i - 1], ls[i - 1], ss[i]);
    }
  }

  /** Over every run, with old data still in flight and across aborted sessions: each partial file on the receiver's
      disk is a prefix of the sender's file, each renamed one is the sender's file, and a file leaves
      the sender's spool only in a step before which the receiver had settled it. */
  lemma ResumeCorrect(c: Content, d: Content, ss: seq<Sys>, ls: seq<Label>, i: nat)
    requires Sized(c) && Sized(d) && Run(ss, ls) && NamesOk(ss, ls) && Start(c, d, ss[0]) && i < |ss|
    ensures forall p :: p in ss[i].b.rcv.disk.parts ==> ss[i].b.rcv.disk.parts[p] <= c[p]
    ensures forall x :: x in ss[i].b.rcv.hist.log ==> x.bytes == c[x.p]
    ensures forall p :: p in ss[i].b.rcv.disk.inbound ==> ss[i].b.rcv.disk.inbound[p] == c[p]
    ensures i + 1 < |ss| ==>
      forall k :: k in ss[i].a.snd.disk.spool && k !in ss[i + 1].a.snd.disk.spool ==> Settled(ss[i].b.rcv, k)
  {
    SafeAlways(c, d, ss, ls, i);
    if i + 1 < |ss| {
      NextSafe(c, d, ss[i], ls[i], ss[i + 1]);
    }
  }
}
