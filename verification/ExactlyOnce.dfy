/** ND mode delivers exactly once. Peer `a` sends in ND mode; what matters of the two channels is a short word over
    few letters, and the protocol is a walk through five stages. */
module ExactlyOnce {
  import opened Options
  import opened Frames
  import S = Sender
  import R = Receiver
  import opened Session
  import opened BatchEnd
  import D = DataSafety

  // ---- the two channels ----

  predicate Carries(f: Frame) { f.MFile? || f.Data? || f.MEob? }

  /** Offers, data and batch ends on the way to the receiver. */
  function Down(fs: seq<Frame>): seq<Frame> {
    if fs == [] then [] else if Carries(fs[0]) then [fs[0]] + Down(fs[1..]) else Down(fs[1..])
  }

  /** Answers on the way back. */
  function Up(fs: seq<Frame>): seq<Frame> {
    if fs == [] then [] else if IsAnswer(fs[0]) then [fs[0]] + Up(fs[1..]) else Up(fs[1..])
  }

  lemma {:induction false} DownSplit(xs: seq<Frame>, ys: seq<Frame>)
    ensures Down(xs + ys) == Down(xs) + Down(ys)
  {
    if xs == [] {
      assert xs + ys == ys;
    } else {
      DownSplit(xs[1..], ys);
      assert (xs + ys)[1..] == xs[1..] + ys;
    }
  }

  lemma {:induction false} UpSplit(xs: seq<Frame>, ys: seq<Frame>)
    ensures Up(xs + ys) == Up(xs) + Up(ys)
  {
    if xs == [] {
      assert xs + ys == ys;
    } else {
      UpSplit(xs[1..], ys);
      assert (xs + ys)[1..] == xs[1..] + ys;
    }
  }

  predicate Blocks(fs: seq<Frame>) { forall f :: f in fs ==> f.Data? }

  function Total(fs: seq<Frame>): nat {
    if fs == [] then 0 else (if fs[0].Data? then |fs[0].bytes| else 0) + Total(fs[1..])
  }

  predicate NonEmpty(fs: seq<Frame>) { forall f :: f in fs ==> f.Data? && f.bytes != [] }

  lemma {:induction false} TotalPush(fs: seq<Frame>, f: Frame)
    requires f.Data?
    ensures Total(fs + [f]) == Total(fs) + |f.bytes|
  {
    if fs == [] {
      assert fs + [f] == [f] && [f][1..] == [];
    } else {
      TotalPush(fs[1..], f);
      assert (fs + [f])[1..] == fs[1..] + [f];
    }
  }

  // ---- the stages ----

  /** The receiver will take an M_FILE for `k` at `off`. */
  ghost predicate Expected(r: R.Rcv, k: Key, off: int) {
    && r.inn.None? && r.inComplete.None? && r.g.theyNR && !r.g.skipAll
    && k !in r.masks && PartOf(k) !in r.disk.inbound
    && off == |R.Part(r, k)| <= k.size
  }

  /** What may be left over from earlier files: a farewell, and batch ends behind it. */
  ghost predicate Lead(r: R.Rcv, d: seq<Frame>) {
    && (forall i :: 0 < i < |d| ==> d[i].MEob?)
    && (d != [] && !d[0].MEob? ==> d[0].MFile? && d[0].farewell && Expected(r, d[0].k, d[0].off))
    && (r.inn.Some? ==> r.inn.value.farewell && r.g.theyNR && r.inComplete.None?)
  }

  /** Nothing is held. */
  ghost predicate AtRest(s: S.Snd, r: R.Rcv, d: seq<Frame>, u: seq<Frame>) {
    && s.out.None? && s.sent == [] && !s.g.offReq && !s.g.waiting && !s.g.sendEof
    && u == [] && Lead(r, d)
  }

  ghost predicate InSpool(s: S.Snd, k: Key) { k in s.disk.spool && |s.disk.spool[k]| == k.size }

  /** A status has no file behind it; a file is open. */
  ghost predicate OutOk(s: S.Snd) {
    s.out.Some? && var t := s.out.value;
      if t.status then t.f.None? else InSpool(s, t.k) && t.f.Some? && |t.f.value.data| == t.k.size
  }

  /** The answer to "M_FILE ... -1". */
  ghost predicate Answer(r: R.Rcv, f: Frame, k: Key) {
    && r.inn.None? && r.inComplete.None? && IsAnswer(f) && f.k == k
    && (f.MGet? ==> Expected(r, k, f.at))
    && (f.MGot? ==> if k in r.masks then r.masks[k] else PartOf(k) in r.hist.had)
  }

  /** "M_FILE ... -1" was sent and not yet answered. */
  ghost predicate Asked(s: S.Snd, r: R.Rcv, d: seq<Frame>, u: seq<Frame>) {
    && OutOk(s) && s.sent == [] && s.g.offReq && !s.g.waiting && !s.g.sendEof && s.q.Some?
    && var k := s.out.value.k;
      || (u == [] && d != [] && d[|d| - 1] == MFile(k, -1, false) && Lead(r, d[..|d| - 1]))
      || (d == [] && |u| == 1 && Answer(r, u[0], k))
  }

  function Tail(d: seq<Frame>): seq<Frame> { if d != [] && d[0].MFile? then d[1..] else d }

  /** `n` bytes of `k` were sent, and are at the receiver or behind the agreed M_FILE. */
  ghost predicate Stream(r: R.Rcv, d: seq<Frame>, k: Key, n: nat) {
    && r.inComplete.None? && r.g.theyNR
    && Blocks(Tail(d)) && |R.Part(r, k)| + Total(Tail(d)) == n
    && (if d != [] && d[0].MFile? then d[0].k == k && !d[0].farewell && Expected(r, k, d[0].off)
        else r.inn == Some(R.In(k, false)))
  }

  /** The receiver has it all and has said so. */
  ghost predicate Complete(r: R.Rcv, d: seq<Frame>, u: seq<Frame>, k: Key) {
    d == [] && u == [MGot(k)] && r.inn.None? && r.inComplete == Some(k)
  }

  /** A file is in transfer. */
  ghost predicate Streaming(s: S.Snd, r: R.Rcv, d: seq<Frame>, u: seq<Frame>) {
    && OutOk(s) && !s.out.value.status && s.sent == [] && !s.g.offReq && !s.g.waiting && !s.g.sendEof
    && var k, n := s.out.value.k, s.out.value.f.value.pos;
      n <= k.size && u == [] && Stream(r, d, k, n) && NonEmpty(Tail(d)) && (n == k.size ==> Tail(d) == [])
  }

  /** A file is sent. */
  ghost predicate Awaited(s: S.Snd, r: R.Rcv, d: seq<Frame>, u: seq<Frame>) {
    && s.out.None? && |s.sent| == 1 && InSpool(s, s.sent[0].k) && !s.g.offReq && s.g.waiting && !s.g.sendEof
    && var k := s.sent[0].k;
      || (u == [] && Stream(r, d, k, k.size) && Tail(d) != [] && (NonEmpty(Tail(d)) || |Tail(d)| == 1))
      || Complete(r, d, u, k)
  }

  /** The remote still has the file of a status, and an empty block will complete it. */
  ghost predicate StatusAwaited(s: S.Snd, r: R.Rcv, d: seq<Frame>, u: seq<Frame>) {
    && OutOk(s) && s.out.value.status && s.sent == [] && !s.g.offReq && s.g.waiting && s.q.Some?
    && var k := s.out.value.k;
      || (u == [] && Stream(r, d, k, k.size) && |R.Part(r, k)| == k.size && |Tail(d)| == (if s.g.sendEof then 0 else 1))
      || (!s.g.sendEof && Complete(r, d, u, k))
  }

  ghost predicate Stage(s: S.Snd, r: R.Rcv, d: seq<Frame>, u: seq<Frame>) {
    || AtRest(s, r, d, u) || Asked(s, r, d, u) || Streaming(s, r, d, u) || Awaited(s, r, d, u)
    || StatusAwaited(s, r, d, u)
  }

  /** The session was dropped over a skipped status. */
  ghost predicate Dropped(r: R.Rcv, d: seq<Frame>, u: seq<Frame>) {
    d == [] && u == [] && r.inn.None? && r.inComplete.None?
  }

  /** GET_FILE_balance is the number of M_GETs and replies in flight. */
  ghost predicate Balanced(r: R.Rcv, d: seq<Frame>, u: seq<Frame>) {
    r.g.balance == if (u != [] && u[0].MGet?) || (d != [] && d[0].MFile? && d[0].off >= 0) then 1 else 0
  }

  // ---- what is kept ----

  /** The files that are to be delivered: not empty, no packets, with netnames of their own. */
  ghost predicate Good(all: set<Key>) {
    && (forall k :: k in all ==> k.size > 0 && !IsPkt(k.name))
    && (forall j, k :: j in all && k in all && j.name == k.name ==> j == k)
  }

  ghost predicate Whole(r: R.Rcv, k: Key) { |R.Part(r, k)| == k.size }

  ghost predicate ThrownAway(r: R.Rcv, k: Key) { k in r.masks && r.masks[k] }

  /** The receiver's own mask skips the file, and it stays in the spool. */
  predicate Masked(masks: map<Key, bool>, k: Key) { k in masks && !masks[k] }

  /** An entry of the queue that is passed over: its file is missing, or will be skipped. */
  predicate Passed(spool: map<Key, seq<Byte>>, masks: map<Key, bool>, e: S.Entry) {
    !e.status && (e.k !in spool || Masked(masks, e.k))
  }

  /** The link status of `k` comes before every file that the receiver will take or has. */
  predicate Leads(q: seq<S.Entry>, spool: map<Key, seq<Byte>>, masks: map<Key, bool>, k: Key) {
    q != [] && (q[0] == S.Entry(k, true) || (Passed(spool, masks, q[0]) && Leads(q[1..], spool, masks, k)))
  }

  /** The status that is pending will be offered, and nothing else before it but files that will be skipped. */
  ghost predicate Pending(s: S.Snd, r: R.Rcv, k: Key) {
    && s.q.Some? && Leads(s.q.value, s.disk.spool, r.masks, k) && s.sent == [] && !s.g.ndAddr
    && (s.out.None? || (!s.out.value.status && Masked(r.masks, s.out.value.k) && s.g.offReq))
  }

  ghost predicate OutStatus(s: S.Snd, k: Key) {
    s.out == Some(S.TFile(k, true, None)) && !s.g.ndAddr
  }

  /** The file is no longer in the spool and not yet renamed: it is whole on the receiver's disk, and the
      link status says so until the receiver is told to rename it. */
  ghost predicate Carried(s: S.Snd, r: R.Rcv, d: seq<Frame>, rem: bool, k: Key) {
    && s.disk.stc == Some(k) && Whole(r, k)
    && (r.inComplete == Some(k) || ((Pending(s, r, k) || OutStatus(s, k)) && !rem && MEob !in d))
  }

  ghost predicate Accounted(all: set<Key>, s: S.Snd, r: R.Rcv, d: seq<Frame>, rem: bool) {
    forall k :: k in all ==>
      k in s.disk.spool || PartOf(k) in r.hist.had || ThrownAway(r, k) || Carried(s, r, d, rem, k)
  }

  ghost predicate SpoolOk(all: set<Key>, s: S.Snd) {
    && (forall k :: k in s.disk.spool ==> k in all && |s.disk.spool[k]| == k.size)
    && (s.disk.stc.Some? ==> s.disk.stc.value in all && s.disk.stc.value !in s.disk.spool)
    && (s.out.Some? && s.out.value.status ==> s.out.value.k in all && s.out.value.k !in s.disk.spool)
  }

  predicate OneStatus(q: seq<S.Entry>) { forall i, j :: 0 <= i < j < |q| ==> !(q[i].status && q[j].status) }

  predicate HasStatus(s: S.Snd) { s.q.Some? && exists e :: e in s.q.value && e.status }

  /** One entry of the queue can be a status, and only before anything is taken. */
  ghost predicate QueueOk(all: set<Key>, s: S.Snd, r: R.Rcv) {
    s.q.Some? ==>
      && OneStatus(s.q.value)
      && forall e :: e in s.q.value && e.status ==> e.k in all && e.k !in s.disk.spool && Pending(s, r, e.k)
  }

  ghost predicate LogOk(all: set<Key>, s: S.Snd, r: R.Rcv) {
    && (forall i, j :: 0 <= i < j < |r.hist.log| ==> r.hist.log[i].p != r.hist.log[j].p)
    && (forall x :: x in r.hist.log ==> x.p in r.hist.had)
    && (forall x, k :: x in r.hist.log && k in s.disk.spool ==> x.p != PartOf(k))
    && (forall x :: x in r.hist.log && x.p in r.disk.parts ==> r.disk.parts[x.p] == [])
  }

  /** A whole file waits to be renamed: it has left the spool, or M_GOT is on its way. */
  ghost predicate CompleteOk(all: set<Key>, s: S.Snd, r: R.Rcv, u: seq<Frame>) {
    r.inComplete.Some? ==>
      var k := r.inComplete.value;
      k in all && Whole(r, k) && (u == [MGot(k)] || (u == [] && s.disk.stc == Some(k)))
  }

  predicate OutIsStatus(s: S.Snd) { s.out.Some? && s.out.value.status }

  /** A farewell names a file that left the spool; while a status is offered there is none. */
  ghost predicate FarewellOk(all: set<Key>, s: S.Snd, r: R.Rcv, d: seq<Frame>) {
    && (r.inn.Some? && r.inn.value.farewell ==> r.inn.value.k in all && r.inn.value.k !in s.disk.spool)
    && (forall f :: f in d && f.MFile? && f.farewell ==> f.k in all && f.k !in s.disk.spool)
    && (HasStatus(s) ==> r.inn.None? && forall f :: f in d && f.MFile? ==> f.off == -1)
    && (OutIsStatus(s) && s.g.offReq ==> r.inn.None? && forall f :: f in d && f.MFile? ==> f.off == -1)
  }

  ghost predicate Kept(all: set<Key>, s: S.Snd, r: R.Rcv, d: seq<Frame>, u: seq<Frame>, rem: bool) {
    && s.mode == S.Mode(true, true) && r.g.theyND && !r.g.skipAll
    && Accounted(all, s, r, d, rem) && SpoolOk(all, s) && QueueOk(all, s, r) && LogOk(all, s, r)
    && CompleteOk(all, s, r, u)
    && (forall p :: p in r.disk.inbound ==> p in r.hist.had)
    && Balanced(r, d, u) && FarewellOk(all, s, r, d)
  }

  // ---- steps of the sending half ----

  lemma StartStage(all: set<Key>, s: S.Snd, r: R.Rcv, d: seq<Frame>, u: seq<Frame>)
    requires Stage(s, r, d, u) && S.CanStart(s) && s.mode.weNR && SpoolOk(all, s)
    ensures AtRest(s, r, d, u)
    ensures var x := S.Start(s);
      && x.ok && x.s.mode == s.mode && x.s.disk == s.disk
      && (if x.tx == [] then AtRest(x.s, r, d, u)
          else |x.tx| == 1 && Asked(x.s, r, d + x.tx, u) && x.tx[0].MFile? && x.tx[0].off == -1)
  {
    var x := S.Start(s);
    if x.tx != [] {
      var f := x.tx[0];
      assert x.tx == [f] && (d + x.tx)[..|d|] == d && (d + x.tx)[|d|] == f;
    }
  }

  /** What S.Start does to a half with nothing in transfer. */
  ghost predicate Started(s: S.Snd, t: S.Snd, tx: seq<Frame>) {
    && s.q.Some? && s.out.None? && t.mode == s.mode && t.disk == s.disk && t.sent == s.sent && t.g.ndAddr == s.g.ndAddr
    && if s.q.value == [] then t.q.None? && t.out.None? && tx == []
       else
         var e := s.q.value[0];
         && t.q == Some(s.q.value[1..])
         && (tx == [] ==> !e.status && e.k !in s.disk.spool && t.out.None?)
         && (tx != [] ==> tx == [MFile(e.k, -1, false)] && t.out.Some? && t.g.offReq)
         && (tx != [] && !e.status ==> e.k in s.disk.spool)
         && (tx != [] ==> t.out.value.k == e.k && t.out.value.status == e.status)
         && (tx != [] && e.status ==> t.out.value.f.None?)
  }

  lemma StartIs(s: S.Snd)
    requires S.CanStart(s) && s.out.None? && s.mode == S.Mode(true, true)
    ensures Started(s, S.Start(s).s, S.Start(s).tx)
  {
  }

  lemma StartAccounted(all: set<Key>, s: S.Snd, t: S.Snd, tx: seq<Frame>, r: R.Rcv, d: seq<Frame>, rem: bool)
    requires Started(s, t, tx) && s.sent == [] && Accounted(all, s, r, d, rem)
    ensures Accounted(all, t, r, d + tx, rem)
  {
    forall k | k in all && Carried(s, r, d, rem, k) ensures Carried(t, r, d + tx, rem, k) {
    }
  }

  lemma StartQueue(all: set<Key>, s: S.Snd, t: S.Snd, tx: seq<Frame>, r: R.Rcv)
    requires Started(s, t, tx) && s.sent == [] && QueueOk(all, s, r) && SpoolOk(all, s)
    ensures QueueOk(all, t, r) && SpoolOk(all, t)
  {
    if t.q.Some? {
      forall e | e in t.q.value && e.status ensures Pending(t, r, e.k) {
        assert e in s.q.value && !s.q.value[0].status;
      }
    }
  }

  lemma StartFarewell(all: set<Key>, s: S.Snd, t: S.Snd, tx: seq<Frame>, r: R.Rcv, d: seq<Frame>)
    requires Started(s, t, tx) && QueueOk(all, s, r) && FarewellOk(all, s, r, d)
    ensures FarewellOk(all, t, r, d + tx)
  {
  }

  lemma StartKept(all: set<Key>, s: S.Snd, r: R.Rcv, d: seq<Frame>, u: seq<Frame>, rem: bool)
    requires Stage(s, r, d, u) && S.CanStart(s) && Kept(all, s, r, d, u, rem) && Good(all)
    ensures Kept(all, S.Start(s).s, r, d + S.Start(s).tx, u, rem)
  {
    var t, tx := S.Start(s).s, S.Start(s).tx;
    assert AtRest(s, r, d, u) by { StartStage(all, s, r, d, u); }
    assert Started(s, t, tx) by { StartIs(s); }
    assert Accounted(all, t, r, d + tx, rem) by { StartAccounted(all, s, t, tx, r, d, rem); }
    assert QueueOk(all, t, r) && SpoolOk(all, t) by { StartQueue(all, s, t, tx, r); }
    assert FarewellOk(all, t, r, d + tx) by { StartFarewell(all, s, t, tx, r, d); }
    assert Balanced(r, d + tx, u);
    assert LogOk(all, t, r) && CompleteOk(all, t, r, u);
  }

  lemma StreamPush(r: R.Rcv, d: seq<Frame>, k: Key, n: nat, f: Frame)
    requires Stream(r, d, k, n) && f.Data?
    ensures Tail(d + [f]) == Tail(d) + [f] && Stream(r, d + [f], k, n + |f.bytes|)
  {
    assert Tail(d + [f]) == Tail(d) + [f];
    TotalPush(Tail(d), f);
  }

  lemma BlockStage(s: S.Snd, r: R.Rcv, d: seq<Frame>, u: seq<Frame>, blk: nat)
    requires Stage(s, r, d, u) && S.CanBlock(s) && s.mode.weND && blk > 0
    ensures var x := S.Block(s, blk);
      && x.ok && |x.tx| == 1 && x.tx[0].Data? && x.s.mode == s.mode && x.s.disk == s.disk && x.s.g.ndAddr == s.g.ndAddr
      && Stage(x.s, r, d + x.tx, u) && (Streaming(s, r, d, u) || (x.s.q == s.q && x.s.out == s.out))
  {
    var x := S.Block(s, blk);
    var f := x.tx[0];
    assert x.tx == [f];
    if Streaming(s, r, d, u) {
      var k, n := s.out.value.k, s.out.value.f.value.pos;
      StreamPush(r, d, k, n, f);
      if n + |f.bytes| == k.size {
        assert x.s.sent == [s.out.value.(f := None)];
        assert Awaited(x.s, r, d + [f], u);
      } else {
        assert Streaming(x.s, r, d + [f], u);
      }
    } else {
      var k := s.out.value.k;
      StreamPush(r, d, k, k.size, f);
      assert StatusAwaited(x.s, r, d + [f], u);
    }
  }

  lemma BlockKept(all: set<Key>, s: S.Snd, r: R.Rcv, d: seq<Frame>, u: seq<Frame>, rem: bool, blk: nat)
    requires Stage(s, r, d, u) && S.CanBlock(s) && Kept(all, s, r, d, u, rem) && blk > 0
    ensures Kept(all, S.Block(s, blk).s, r, d + S.Block(s, blk).tx, u, rem)
  {
    var x := S.Block(s, blk);
    BlockStage(s, r, d, u, blk);
    assert x.tx == [x.tx[0]];
    forall k | k in all ensures Carried(s, r, d, rem, k) ==> Carried(x.s, r, d + x.tx, rem, k) {
    }
  }

  lemma EobStage(s: S.Snd, r: R.Rcv, d: seq<Frame>, u: seq<Frame>)
    requires Stage(s, r, d, u) && !Sending(s) && s.q.None? && s.sent == []
    ensures AtRest(s, r, d, u) && AtRest(s, r, d + [MEob], u)
  {
  }

  lemma EobKept(all: set<Key>, s: S.Snd, r: R.Rcv, d: seq<Frame>, u: seq<Frame>, rem: bool)
    requires Stage(s, r, d, u) && !Sending(s) && s.q.None? && s.sent == [] && Kept(all, s, r, d, u, rem)
    ensures Kept(all, s, r, d + [MEob], u, rem)
  {
  }

  // ---- answers ----

  lemma GotStage(s: S.Snd, r: R.Rcv, d: seq<Frame>, u: seq<Frame>)
    requires Stage(s, r, d, u) && u != [] && u[0].MGot? && s.mode == S.Mode(true, true)
    ensures var x := S.Got(s, u[0].k);
      && x.ok && x.tx == [] && x.s.mode == s.mode && AtRest(x.s, r, d, []) && d == [] && |u| == 1
      && x.s.q == s.q && x.s.g.ndAddr
      && x.s.disk.spool == s.disk.spool - (if OutIsStatus(s) then {} else {u[0].k})
      && x.s.disk.stc == (if Asked(s, r, d, u) then None else Some(u[0].k))
  {
  }

  lemma GotKept(all: set<Key>, s: S.Snd, r: R.Rcv, d: seq<Frame>, u: seq<Frame>, rem: bool)
    requires Stage(s, r, d, u) && u != [] && u[0].MGot? && Kept(all, s, r, d, u, rem) && Good(all)
    ensures Kept(all, S.Got(s, u[0].k).s, r, d, [], rem)
  {
    var t := S.Got(s, u[0].k).s;
    GotStage(s, r, d, u);
    forall k | k in all
      ensures k in t.disk.spool || PartOf(k) in r.hist.had || ThrownAway(r, k) || Carried(t, r, d, rem, k)
    {
    }
  }

  lemma SkipStage(s: S.Snd, r: R.Rcv, d: seq<Frame>, u: seq<Frame>)
    requires Stage(s, r, d, u) && u != [] && u[0].MSkip? && s.mode == S.Mode(true, true)
    ensures var x := S.Skip(s, u[0].k);
      && x.s.mode == s.mode && d == [] && |u| == 1 && x.s.q == s.q && x.s.disk.spool == s.disk.spool
      && (if x.ok then
            AtRest(x.s, r, d, []) && x.tx == [] && (x.s.disk.stc == s.disk.stc || x.s.disk.stc == None)
          else
            && Dropped(r, d, []) && x.tx == [MErr]
            && x.s.disk == s.disk && x.s.out == s.out && x.s.g.ndAddr == s.g.ndAddr)
  {
    assert S.Without([], u[0].k) == [];
  }

  lemma SkipKept(all: set<Key>, s: S.Snd, r: R.Rcv, d: seq<Frame>, u: seq<Frame>, rem: bool)
    requires Stage(s, r, d, u) && u != [] && u[0].MSkip? && Kept(all, s, r, d, u, rem) && Good(all)
    ensures Kept(all, S.Skip(s, u[0].k).s, r, d, [], rem)
  {
    var t := S.Skip(s, u[0].k).s;
    SkipStage(s, r, d, u);
    forall k | k in all ensures Carried(s, r, d, rem, k) ==> Carried(t, r, d, rem, k) {
    }
  }

  lemma GetStage(s: S.Snd, r: R.Rcv, d: seq<Frame>, u: seq<Frame>)
    requires Stage(s, r, d, u) && u != [] && u[0].MGet? && s.mode == S.Mode(true, true)
    ensures var x := S.Get(s, u[0].k, u[0].at);
      && x.ok && |x.tx| == 1 && x.s.mode == s.mode && d == [] && |u| == 1 && x.s.q == s.q
      && x.s.disk.spool == s.disk.spool
      && x.tx[0].MFile? && x.tx[0].off >= 0 && Stage(x.s, r, x.tx, [])
  {
    var k := u[0].k;
    assert Asked(s, r, d, u) && S.Reopen(s, k) == s;
    var x := S.Reply(s, k, u[0].at);
    var f := x.tx[0];
    assert x.tx == [f] && Tail([f]) == [];
    if !s.out.value.status {
      assert Streaming(x.s, r, [f], []);
    } else if u[0].at == k.size {
      assert StatusAwaited(x.s, r, [f], []);
    } else {
      assert AtRest(x.s, r, [f], []);
    }
  }

  lemma GetKept(all: set<Key>, s: S.Snd, r: R.Rcv, d: seq<Frame>, u: seq<Frame>, rem: bool)
    requires Stage(s, r, d, u) && u != [] && u[0].MGet? && Kept(all, s, r, d, u, rem) && Good(all)
    ensures Kept(all, S.Get(s, u[0].k, u[0].at).s, r, S.Get(s, u[0].k, u[0].at).tx, [], rem)
  {
    GetStage(s, r, d, u);
    var k := u[0].k;
    assert S.Reopen(s, k) == s;
    var x := S.Reply(s, k, u[0].at);
    forall j | j in all ensures Carried(s, r, d, rem, j) ==> Carried(x.s, r, x.tx, rem, j) {
    }
  }

  // ---- steps of the receiving half ----

  /** After a batch has ended for the receiver. */
  ghost predicate Settled(r: R.Rcv, d: seq<Frame>, u: seq<Frame>) {
    r.inn.None? && r.inComplete.None? && u == [] && forall f :: f in d ==> f.MEob? || (f.MFile? && f.off == -1)
  }

  /** What a step may deliver: a whole file that has left the spool. */
  ghost predicate Renames(all: set<Key>, s: S.Snd, r: R.Rcv, t: R.Rcv) {
    || t.hist.log == r.hist.log
    || (exists k ::
          && k in all && k !in s.disk.spool && Whole(r, k)
          && t.hist.log == r.hist.log + [R.Delivery(PartOf(k), R.Part(r, k))])
  }

  /** The rename of the file that waits for it. */
  lemma RenameKeeps(all: set<Key>, s: S.Snd, r: R.Rcv, d: seq<Frame>, rem: bool)
    requires Good(all) && r.g.theyND && Accounted(all, s, r, d, rem) && SpoolOk(all, s) && LogOk(all, s, r)
    requires CompleteOk(all, s, r, [])
    requires forall p :: p in r.disk.inbound ==> p in r.hist.had
    ensures var x := R.Rename(r);
      && x.ok && x.tx == [] && x.r == r.(inComplete := None, disk := x.r.disk, hist := x.r.hist)
      && Accounted(all, s, x.r, d, rem) && LogOk(all, s, x.r)
      && (forall p :: p in x.r.disk.inbound ==> p in x.r.hist.had)
      && (forall p :: p in r.hist.had ==> p in x.r.hist.had)
      && (forall p :: p in r.disk.inbound ==> p in x.r.disk.inbound)
      && (forall k :: r.inComplete != Some(k) && k in all ==> R.Part(x.r, k) == R.Part(r, k))
      && Renames(all, s, r, x.r)
  {
    if r.inComplete.Some? {
      var k := r.inComplete.value;
      assert Whole(r, k) && k.size > 0 && PartOf(k) in r.disk.parts;
      forall j | j in all && j != k ensures PartOf(j) != PartOf(k) { }
    }
  }

  lemma CloseKeeps(r: R.Rcv)
    requires r.inn.Some? ==> !IsPkt(r.inn.value.k.name)
    ensures var x := R.ClosePartial(r);
      && x == r.(inn := None, disk := r.disk.(parts := x.disk.parts))
      && (forall k :: R.Part(x, k) == R.Part(r, k))
      && (forall p :: p in x.disk.parts ==> p in r.disk.parts && x.disk.parts[p] == r.disk.parts[p])
  {
  }

  /** Partial files moved without changing what they hold. */
  lemma SameParts(all: set<Key>, s: S.Snd, r: R.Rcv, x: R.Rcv, d: seq<Frame>, rem: bool)
    requires Accounted(all, s, r, d, rem) && LogOk(all, s, r)
    requires x.hist == r.hist && x.masks == r.masks && x.inComplete == r.inComplete
    requires forall k :: k in all ==> R.Part(x, k) == R.Part(r, k) || (|R.Part(r, k)| > k.size && R.Part(x, k) == [])
    requires forall p :: p in x.disk.parts ==>
      x.disk.parts[p] == [] || (p in r.disk.parts && x.disk.parts[p] == r.disk.parts[p])
    ensures Accounted(all, s, x, d, rem) && LogOk(all, s, x)
  {
    forall k | k in all ensures Carried(s, r, d, rem, k) ==> Carried(s, x, d, rem, k) {
    }
  }

  /** The answer to "M_FILE ... -1" of a receiver that has nothing open and nothing to rename. */
  lemma AdmitAsked(all: set<Key>, s: S.Snd, r: R.Rcv, k: Key, d: seq<Frame>, rem: bool)
    requires Good(all) && k in all && Accounted(all, s, r, d, rem) && LogOk(all, s, r)
    requires r.inn.None? && r.inComplete.None? && r.g.theyNR && !r.g.skipAll
    requires forall p :: p in r.disk.inbound ==> p in r.hist.had
    ensures var x := R.Admit(r, k, -1, false, false);
      && x.ok && |x.tx| == 1 && Answer(x.r, x.tx[0], k)
      && Accounted(all, s, x.r, d, rem) && LogOk(all, s, x.r)
      && x.r == r.(disk := r.disk.(parts := x.r.disk.parts), g := x.r.g)
      && x.r.g == r.g.(balance := r.g.balance + if x.tx[0].MGet? then 1 else 0)
  {
    var x := R.Admit(r, k, -1, false, false);
    SameParts(all, s, r, x.r, d, rem);
  }

  /** The receiver takes "M_FILE ... -1". */
  lemma AskedFile(all: set<Key>, s: S.Snd, r: R.Rcv, d: seq<Frame>, u: seq<Frame>, rem: bool)
    requires Good(all) && Kept(all, s, r, d, u, rem) && Asked(s, r, d, u) && |d| == 1
    ensures var x := R.File(r, d[0].k, d[0].off, d[0].farewell, false);
      && x.ok && |x.tx| == 1 && IsAnswer(x.tx[0]) && Asked(s, x.r, [], x.tx) && Kept(all, s, x.r, [], x.tx, rem)
      && Renames(all, s, r, x.r)
      && x.r.inComplete.None?
  {
    var k := s.out.value.k;
    assert k in all;
    var r1 := if r.inn.Some? && r.inn.value.k.name != k.name then R.ClosePartial(r) else r;
    CloseKeeps(r);
    assert r1.inn.None?;
    SameParts(all, s, r, r1, d, rem);
    RenameKeeps(all, s, r1, d, rem);
    var r2 := R.Rename(r1).r.(g := r1.g.(theyNR := true));
    assert Accounted(all, s, r2, [], rem);
    AdmitAsked(all, s, r2, k, [], rem);
    var x := R.Admit(r2, k, -1, false, false);
    assert Asked(s, x.r, [], x.tx);
  }

  /** The receiver takes an M_FILE that it expects. */
  lemma ExpectedFile(all: set<Key>, s: S.Snd, r: R.Rcv, d: seq<Frame>, u: seq<Frame>, rem: bool)
    requires Good(all) && Kept(all, s, r, d, u, rem) && d != [] && d[0].MFile? && Expected(r, d[0].k, d[0].off)
    requires u == []
    requires forall i :: 0 < i < |d| && d[i].MFile? ==> d[i].off == -1
    requires OutIsStatus(s) ==> !s.g.offReq
    ensures var x := R.File(r, d[0].k, d[0].off, d[0].farewell, false);
      && x.ok && x.tx == [] && Kept(all, s, x.r, d[1..], u, rem) && x.r.hist == r.hist
      && x.r == r.(inn := Some(R.In(d[0].k, d[0].farewell)), disk := x.r.disk, g := x.r.g) && x.r.g.theyNR
      && (forall k :: R.Part(x.r, k) == R.Part(r, k))
  {
    var k := d[0].k;
    var x := R.File(r, k, d[0].off, d[0].farewell, false);
    assert x.r.disk.parts == r.disk.parts[PartOf(k) := R.Part(r, k)];
    assert forall j :: R.Part(x.r, j) == R.Part(r, j);
    SameParts(all, s, r, x.r, d, rem);
    assert Accounted(all, s, x.r, d[1..], rem);
  }

  /** The receiver takes a farewell. */
  lemma FarewellFile(all: set<Key>, s: S.Snd, r: R.Rcv, d: seq<Frame>, u: seq<Frame>, rem: bool)
    requires Good(all) && Kept(all, s, r, d, u, rem) && d != [] && d[0].MFile? && u == []
    requires AtRest(s, r, d, u) || (Asked(s, r, d, u) && |d| > 1)
    ensures var x := R.File(r, d[0].k, d[0].off, d[0].farewell, false);
      && x.ok && x.tx == [] && Stage(s, x.r, d[1..], u) && Kept(all, s, x.r, d[1..], u, rem) && x.r.hist == r.hist
      && x.r.inComplete.None?
  {
    var n := |d| - 1;
    if Asked(s, r, d, u) {
      assert d[0] == d[..n][0] && Expected(r, d[0].k, d[0].off);
      assert d[0] in d;
      assert forall i :: 0 < i < n ==> d[i] == d[..n][i];
    }
    ExpectedFile(all, s, r, d, u, rem);
    var x := R.File(r, d[0].k, d[0].off, d[0].farewell, false);
    if Asked(s, r, d, u) {
      assert d[1..][..n - 1] == d[..n][1..];
      assert Asked(s, x.r, d[1..], u);
    } else {
      assert AtRest(s, x.r, d[1..], u);
    }
  }

  /** The receiver takes the M_FILE at the agreed offset. */
  lemma AgreedFile(all: set<Key>, s: S.Snd, r: R.Rcv, d: seq<Frame>, u: seq<Frame>, rem: bool)
    requires Good(all) && Kept(all, s, r, d, u, rem) && d != [] && d[0].MFile? && u == []
    requires Streaming(s, r, d, u) || Awaited(s, r, d, u) || StatusAwaited(s, r, d, u)
    ensures var x := R.File(r, d[0].k, d[0].off, d[0].farewell, false);
      && x.ok && x.tx == [] && Stage(s, x.r, d[1..], u) && Kept(all, s, x.r, d[1..], u, rem) && x.r.hist == r.hist
      && x.r.inComplete.None?
  {
    assert Tail(d) == d[1..];
    assert forall i :: 0 < i < |d| ==> d[i] == d[1..][i - 1] && d[1..][i - 1] in Tail(d);
    ExpectedFile(all, s, r, d, u, rem);
    var x := R.File(r, d[0].k, d[0].off, d[0].farewell, false);
    assert Tail(d[1..]) == d[1..];
    assert Stream(x.r, d[1..], d[0].k, |R.Part(r, d[0].k)| + Total(Tail(d)));
    if Streaming(s, r, d, u) {
      assert Streaming(s, x.r, d[1..], u);
    } else if Awaited(s, r, d, u) {
      assert Awaited(s, x.r, d[1..], u);
    } else {
      assert StatusAwaited(s, x.r, d[1..], u);
    }
  }

  /** The stage tells which M_FILE comes next. */
  lemma NextFile(s: S.Snd, r: R.Rcv, d: seq<Frame>, u: seq<Frame>)
    requires Stage(s, r, d, u) && d != [] && d[0].MFile?
    ensures u == []
    ensures (Asked(s, r, d, u) && |d| == 1) || AtRest(s, r, d, u) || (Asked(s, r, d, u) && |d| > 1)
      || Streaming(s, r, d, u) || Awaited(s, r, d, u) || StatusAwaited(s, r, d, u)
  {
  }

  lemma FileStep(all: set<Key>, s: S.Snd, r: R.Rcv, d: seq<Frame>, u: seq<Frame>, rem: bool)
    requires Good(all) && Kept(all, s, r, d, u, rem) && Stage(s, r, d, u) && d != [] && d[0].MFile?
    ensures var x := R.File(r, d[0].k, d[0].off, d[0].farewell, false);
      && x.ok && (forall f :: f in x.tx ==> IsAnswer(f)) && |x.tx| <= 1 && u == [] && x.r.inComplete.None?
      && Moving(all, true, s, x.r, d[1..], x.tx, rem) && Renames(all, s, r, x.r)
  {
    NextFile(s, r, d, u);
    if Asked(s, r, d, u) && |d| == 1 {
      AskedFile(all, s, r, d, u, rem);
    } else if Asked(s, r, d, u) || AtRest(s, r, d, u) {
      FarewellFile(all, s, r, d, u, rem);
    } else {
      AgreedFile(all, s, r, d, u, rem);
    }
  }

  // ---- data ----

  /** A block that does not complete the file. */
  lemma MoreData(all: set<Key>, s: S.Snd, r: R.Rcv, d: seq<Frame>, u: seq<Frame>, rem: bool, k: Key, n: nat)
    requires Good(all) && Kept(all, s, r, d, u, rem) && Stream(r, d, k, n) && d != [] && d[0].Data? && u == []
    requires k in all && (k in s.disk.spool || (Whole(r, k) && d[0].bytes == []))
    requires |R.Part(r, k)| + |d[0].bytes| < k.size
    ensures var x := R.Data(r, d[0].bytes);
      && x.ok && x.tx == [] && Stream(x.r, d[1..], k, n) && Tail(d[1..]) == Tail(d)[1..]
      && Kept(all, s, x.r, d[1..], u, rem) && x.r.hist == r.hist
  {
    var x := R.Data(r, d[0].bytes);
    forall j | j in all && j != k ensures PartOf(j) != PartOf(k) && R.Part(x.r, j) == R.Part(r, j) { }
    assert Tail(d) == d && Tail(d[1..]) == d[1..] by { assert d[1..] != [] ==> d[1..][0] in d; }
    forall j | j in all ensures Carried(s, r, d, rem, j) ==> Carried(s, x.r, d[1..], rem, j) {
    }
    assert LogOk(all, s, x.r);
  }

  /** The block that completes the file. */
  lemma LastData(all: set<Key>, s: S.Snd, r: R.Rcv, d: seq<Frame>, u: seq<Frame>, rem: bool, k: Key)
    requires Good(all) && Kept(all, s, r, d, u, rem) && Stream(r, d, k, k.size) && |d| == 1 && d[0].Data? && u == []
    requires k in all && (k in s.disk.spool || (Whole(r, k) && d[0].bytes == []))
    ensures var x := R.Data(r, d[0].bytes);
      && x.ok && x.tx == [MGot(k)] && Complete(x.r, [], x.tx, k) && Kept(all, s, x.r, [], x.tx, rem)
      && x.r.hist.log == r.hist.log
  {
    var x := R.Data(r, d[0].bytes);
    assert Tail(d) == d && Total(d) == |d[0].bytes| by { assert d[1..] == []; }
    forall j | j in all && j != k ensures PartOf(j) != PartOf(k) && R.Part(x.r, j) == R.Part(r, j) { }
    forall j | j in all ensures Carried(s, r, d, rem, j) ==> Carried(s, x.r, [], rem, j) {
    }
    assert LogOk(all, s, x.r);
  }

  lemma SomeBytes(fs: seq<Frame>)
    requires fs != [] && NonEmpty(fs)
    ensures Total(fs) > 0
  {
    assert fs[0] in fs;
  }

  lemma DataStep(all: set<Key>, s: S.Snd, r: R.Rcv, d: seq<Frame>, u: seq<Frame>, rem: bool)
    requires Good(all) && Kept(all, s, r, d, u, rem) && Stage(s, r, d, u) && d != [] && d[0].Data?
    ensures var x := R.Data(r, d[0].bytes);
      && x.ok && (forall f :: f in x.tx ==> IsAnswer(f)) && |x.tx| <= 1 && u == []
      && Stage(s, x.r, d[1..], x.tx) && Kept(all, s, x.r, d[1..], x.tx, rem) && x.r.hist.log == r.hist.log
  {
    var x := R.Data(r, d[0].bytes);
    assert Tail(d) == d;
    assert forall f :: f in d[1..] ==> f in d;
    assert |d| > 1 ==> d[0] == d[..|d| - 1][0];
    if Streaming(s, r, d, u) {
      var k, n := s.out.value.k, s.out.value.f.value.pos;
      MoreData(all, s, r, d, u, rem, k, n);
      assert Streaming(s, x.r, d[1..], u);
    } else if Awaited(s, r, d, u) {
      var k := s.sent[0].k;
      if |d| == 1 {
        LastData(all, s, r, d, u, rem, k);
        assert Awaited(s, x.r, d[1..], x.tx);
      } else {
        SomeBytes(d[1..]);
        MoreData(all, s, r, d, u, rem, k, k.size);
        assert Awaited(s, x.r, d[1..], u);
      }
    } else if StatusAwaited(s, r, d, u) {
      var k := s.out.value.k;
      assert d[0].bytes == [] by { assert d[1..] == []; }
      LastData(all, s, r, d, u, rem, k);
      assert StatusAwaited(s, x.r, d[1..], x.tx);
    }
  }

  // ---- the end of a batch ----

  lemma EobKeeps(all: set<Key>, s: S.Snd, r: R.Rcv, d: seq<Frame>, rem: bool)
    requires Good(all) && Kept(all, s, r, d, [], rem) && d != [] && d[0].MEob?
    requires r.inn.Some? ==> r.inn.value.farewell && r.g.theyNR
    ensures var x := R.Eob(r);
      && x.ok && x.tx == [] && x.r.inn.None? && x.r.inComplete.None? && x.r.g == r.g
      && Accounted(all, s, x.r, d, rem) && LogOk(all, s, x.r) && Renames(all, s, r, x.r)
      && (forall p :: p in x.r.disk.inbound ==> p in x.r.hist.had)
  {
    CloseKeeps(r);
    var r1 := R.ClosePartial(r);
    SameParts(all, s, r, r1, d, rem);
    RenameKeeps(all, s, r1, d, rem);
    assert R.Eob(r) == R.Rename(r1);
  }

  lemma EobTakenKept(all: set<Key>, s: S.Snd, r: R.Rcv, d: seq<Frame>, rem: bool)
    requires Good(all) && Kept(all, s, r, d, [], rem) && d != [] && d[0].MEob?
    requires r.inn.Some? ==> r.inn.value.farewell && r.g.theyNR
    requires forall i :: 0 < i < |d| && d[i].MFile? ==> d[i].off == -1
    ensures Kept(all, s, R.Eob(r).r, d[1..], [], true)
  {
    EobKeeps(all, s, r, d, rem);
    var t := R.Eob(r).r;
    assert d[0] in d;
    forall k | k in all ensures Carried(s, t, d, rem, k) ==> Carried(s, t, d[1..], true, k) {
    }
    assert forall f :: f in d[1..] ==> f in d;
    assert Balanced(t, d[1..], []);
  }

  /** Only the last frame can be an M_FILE behind an M_EOB. */
  lemma EobFirst(s: S.Snd, r: R.Rcv, d: seq<Frame>, u: seq<Frame>)
    requires Stage(s, r, d, u) && d != [] && d[0].MEob?
    ensures u == [] && (r.inn.Some? ==> r.inn.value.farewell && r.g.theyNR)
    ensures forall i :: 0 < i < |d| ==>
      d[i].MEob? || (d[i] == MFile(d[i].k, -1, false) && i == |d| - 1 && Asked(s, r, d, u))
    ensures AtRest(s, r, d, u) || Asked(s, r, d, u)
  {
    assert d[0] in d && Tail(d) == d;
    if Asked(s, r, d, u) {
      var n := |d| - 1;
      assert n > 0 ==> d[0] == d[..n][0];
      assert forall i :: 0 < i < n ==> d[i] == d[..n][i];
    }
  }

  lemma EobTakenStage(s: S.Snd, r: R.Rcv, t: R.Rcv, d: seq<Frame>, u: seq<Frame>)
    requires Stage(s, r, d, u) && d != [] && d[0].MEob? && t.inn.None? && t.inComplete.None?
    ensures Stage(s, t, d[1..], u) && Settled(t, d[1..], u)
  {
    EobFirst(s, r, d, u);
    if Asked(s, r, d, u) {
      var e := d[1..];
      assert e[..|e| - 1] == d[1..|d| - 1];
      assert Asked(s, t, e, u);
    } else {
      assert AtRest(s, t, d[1..], u);
    }
  }

  lemma EobTaken(all: set<Key>, s: S.Snd, r: R.Rcv, d: seq<Frame>, u: seq<Frame>, rem: bool)
    requires Good(all) && Kept(all, s, r, d, u, rem) && Stage(s, r, d, u) && d != [] && d[0].MEob?
    ensures var x := R.Eob(r);
      && x.ok && x.tx == [] && u == [] && Stage(s, x.r, d[1..], u) && Kept(all, s, x.r, d[1..], u, true)
      && Settled(x.r, d[1..], u) && Renames(all, s, r, x.r)
  {
    EobFirst(s, r, d, u);
    EobKeeps(all, s, r, d, rem);
    EobTakenKept(all, s, r, d, rem);
    EobTakenStage(s, r, R.Eob(r).r, d, u);
  }

  lemma {:induction false} LeadsMore(q: seq<S.Entry>, more: seq<S.Entry>, spool: map<Key, seq<Byte>>,
      masks: map<Key, bool>, k: Key)
    requires Leads(q, spool, masks, k)
    ensures Leads(q + more, spool, masks, k)
  {
    if q[0] != S.Entry(k, true) {
      LeadsMore(q[1..], more, spool, masks, k);
      assert (q + more)[1..] == q[1..] + more;
    }
  }

  lemma QueueGrows(all: set<Key>, s: S.Snd, r: R.Rcv, d: seq<Frame>, u: seq<Frame>, rem: bool, more: seq<S.Entry>)
    requires Kept(all, s, r, d, u, rem) && Stage(s, r, d, u) && forall e :: e in more ==> !e.status
    ensures Kept(all, s.(q := More(s.q, more)), r, d, u, rem) && Stage(s.(q := More(s.q, more)), r, d, u)
  {
    var t := s.(q := More(s.q, more));
    forall k | Pending(s, r, k) ensures Pending(t, r, k) {
      if more != [] {
        LeadsMore(s.q.value, more, s.disk.spool, r.masks, k);
      }
    }
    forall k | k in all ensures Carried(s, r, d, rem, k) ==> Carried(t, r, d, rem, k) {
    }
  }

  lemma SenderDone(all: set<Key>, s: S.Snd, r: R.Rcv, d: seq<Frame>, u: seq<Frame>, rem: bool)
    requires Kept(all, s, r, d, u, rem) && AtRest(s, r, d, u) && r.inComplete.None?
    ensures var t := S.ClearStatus(s).(g := s.g.(ndAddr := false));
      Kept(all, t, r, d, u, rem) && AtRest(t, r, d, u)
  {
    var t := S.ClearStatus(s).(g := s.g.(ndAddr := false));
    forall k | k in all ensures Carried(s, r, d, rem, k) ==> Carried(t, r, d, rem, k) {
    }
  }

  /** With nothing in transfer and nothing offered the sending half is at one of the first two stages. */
  lemma SettledStage(s: S.Snd, r: R.Rcv, d: seq<Frame>, u: seq<Frame>)
    requires Settled(r, d, u) && Stage(s, r, d, u)
    ensures AtRest(s, r, d, u) || Asked(s, r, d, u)
  {
    if d != [] {
      assert d[0] in d;
    }
  }

  lemma ReceiverDone(all: set<Key>, s: S.Snd, r: R.Rcv, d: seq<Frame>, u: seq<Frame>)
    requires Kept(all, s, r, d, u, true) && Settled(r, d, u)
    ensures var t := r.(disk := r.disk.(parts := map[]));
      && Kept(all, s, t, d, u, true) && Settled(t, d, u) && (Stage(s, r, d, u) ==> Stage(s, t, d, u))
  {
    var t := r.(disk := r.disk.(parts := map[]));
    if Asked(s, r, d, u) {
      assert forall i {:trigger d[i]} :: 0 <= i < |d| - 1 ==> d[i] in d && d[..|d| - 1][i] == d[i];
      assert Asked(s, t, d, u);
    } else if AtRest(s, r, d, u) {
      assert d != [] ==> d[0] in d;
      assert AtRest(s, t, d, u);
    } else if Stage(s, r, d, u) {
      SettledStage(s, r, d, u);
    }
  }

  // ---- counting the batch ends ----

  /** The M_EOBs that a peer has sent, and received. */
  function Sent(p: Peer): nat { |p.bat.ends| + if p.bat.localEOB && !Won(p) then 1 else 0 }

  function Received(p: Peer): nat { |p.bat.ends| + if p.bat.remoteEOB && !Won(p) then 1 else 0 }

  function Bit(b: bool): nat { if b then 1 else 0 }

  ghost predicate Counts(a: Peer, b: Peer) {
    && (a.bat.live ==> !Won(a)) && (b.bat.live ==> !Won(b))
    && Sent(a) == Received(b) + Eobs(a.tx)
    && Sent(b) >= Received(a) + Eobs(b.tx)
    && (b.bat.localEOB ==> b.snd.sent == [] && !Sending(b.snd))
  }

  /** A peer that has sent M_EOB is at rest; one that has received it has renamed all it had. */
  ghost predicate Resting(a: Peer, b: Peer, d: seq<Frame>, u: seq<Frame>) {
    && (a.bat.localEOB && !Won(a) ==> a.snd.out.None? && a.snd.sent == [] && (d == [] || d[|d| - 1].MEob?))
    && (b.bat.remoteEOB && !Won(b) ==> Settled(b.rcv, d, u))
  }

  /** As long as a file waits to be renamed, its M_GOT was counted in this batch, or an M_EOB is on its way. */
  ghost predicate Marked(a: Peer, b: Peer, d: seq<Frame>, u: seq<Frame>) {
    a.bat.live ==>
      && a.bat.msgs >= Bit(a.bat.localEOB) + Bit(a.bat.remoteEOB)
      && (b.rcv.inComplete.Some? && u == [] ==>
            || (a.bat.msgs >= 1 + Bit(a.bat.localEOB) + Bit(a.bat.remoteEOB) && Eobs(d) >= Bit(a.bat.localEOB))
            || Eobs(d) >= 1 + Bit(a.bat.localEOB))
  }

  /** What the files of one direction keep. */
  ghost predicate Moving(all: set<Key>, live: bool, s: S.Snd, r: R.Rcv, d: seq<Frame>, u: seq<Frame>, rem: bool) {
    Kept(all, s, r, d, u, rem) && (Stage(s, r, d, u) || (!live && Dropped(r, d, u)))
  }

  /** What the batch ends keep. */
  ghost predicate Ending(a: Peer, b: Peer, d: seq<Frame>, u: seq<Frame>) {
    Counts(a, b) && Resting(a, b, d, u) && Marked(a, b, d, u)
  }

  /** The invariant of the direction from `a` to `b`. */
  ghost predicate Once(all: set<Key>, a: Peer, b: Peer) {
    && Moving(all, a.bat.live, a.snd, b.rcv, Down(a.tx), Up(b.tx), b.bat.remoteEOB)
    && Ending(a, b, Down(a.tx), Up(b.tx))
  }

  lemma {:induction false} EobsDown(fs: seq<Frame>)
    ensures Eobs(Down(fs)) == Eobs(fs)
  {
    if fs != [] {
      EobsDown(fs[1..]);
      if Carries(fs[0]) {
        assert Down(fs)[1..] == Down(fs[1..]);
      }
    }
  }

  /** One more frame. */
  lemma Queued(fs: seq<Frame>, f: Frame)
    ensures Down(fs + [f]) == Down(fs) + (if Carries(f) then [f] else [])
    ensures Up(fs + [f]) == Up(fs) + (if IsAnswer(f) then [f] else [])
    ensures Eobs(fs + [f]) == Eobs(fs) + (if f.MEob? then 1 else 0)
  {
    DownSplit(fs, [f]);
    UpSplit(fs, [f]);
    Split(fs, [f], false);
    assert [f][1..] == [];
  }

  // ---- steps of the sender ----

  lemma StartMoves(all: set<Key>, s: S.Snd, r: R.Rcv, d: seq<Frame>, u: seq<Frame>, rem: bool)
    requires Good(all) && Moving(all, true, s, r, d, u, rem) && S.CanStart(s)
    ensures var x := S.Start(s);
      && Moving(all, true, x.s, r, d + x.tx, u, rem) && x.ok && |x.tx| <= 1
      && (x.tx != [] ==> x.tx[0].MFile? && x.tx[0].off == -1)
  {
    StartStage(all, s, r, d, u);
    StartKept(all, s, r, d, u, rem);
    assert d + [] == d;
  }

  lemma BlockMoves(all: set<Key>, s: S.Snd, r: R.Rcv, d: seq<Frame>, u: seq<Frame>, rem: bool, blk: nat)
    requires Moving(all, true, s, r, d, u, rem) && S.CanBlock(s) && blk > 0
    ensures var x := S.Block(s, blk);
      && Moving(all, true, x.s, r, d + x.tx, u, rem) && x.ok && |x.tx| == 1 && x.tx[0].Data?
      && !(s.out.None? && s.sent == []) && !Settled(r, d, u)
  {
    BlockStage(s, r, d, u, blk);
    BlockKept(all, s, r, d, u, rem, blk);
    BlockNotResting(s, r, d, u);
  }

  /** While blocks are sent, neither side has ended its part of the batch. */
  lemma BlockNotResting(s: S.Snd, r: R.Rcv, d: seq<Frame>, u: seq<Frame>)
    requires Stage(s, r, d, u) && S.CanBlock(s)
    ensures !(s.out.None? && s.sent == []) && !Settled(r, d, u)
  {
    assert d != [] ==> d[0] in d;
  }

  /** Peer `a` queued `tx` with its sending half, and took nothing. */
  lemma SentEnds(s: Sys, t: Sys, tx: seq<Frame>, d: seq<Frame>, u: seq<Frame>)
    requires Ending(s.a, s.b, d, u) && t.b == s.b && t.a.tx == s.a.tx + tx && Eobs(d) == Eobs(s.a.tx)
    requires t.a.bat.live && s.a.bat.live && |tx| <= 1
    requires t.a.bat == s.a.bat.(msgs := s.a.bat.msgs + Msgs(tx), localEOB := t.a.bat.localEOB)
    requires if tx != [] && tx[0].MEob?
      then !s.a.bat.localEOB && t.a.bat.localEOB && t.a.snd.out.None? && t.a.snd.sent == []
             else !s.a.bat.localEOB && !t.a.bat.localEOB
    requires tx != [] && Settled(s.b.rcv, d, u) ==> tx[0].MEob? || (tx[0].MFile? && tx[0].off == -1)
    ensures Ending(t.a, t.b, d + tx, u) && Eobs(d + tx) == Eobs(t.a.tx)
  {
    Split(d, tx, false);
    Split(s.a.tx, tx, false);
    if tx != [] { assert tx == [tx[0]] && [tx[0]][1..] == []; }
  }

  /** Frames that all matter. */
  lemma DownQueued(fs: seq<Frame>, tx: seq<Frame>)
    requires |tx| <= 1 && forall f :: f in tx ==> Carries(f)
    ensures Down(fs + tx) == Down(fs) + tx && Up(fs + tx) == Up(fs)
  {
    if tx == [] {
      assert fs + [] == fs && Down(fs) + [] == Down(fs);
    } else {
      assert tx == [tx[0]] && tx[0] in tx;
      Queued(fs, tx[0]);
    }
  }

  /** Peer `a` used its sending half, with the result `x`. */
  ghost predicate SentBy(s: Sys, t: Sys, x: S.Result) {
    && t.b == s.b && t.a.snd == x.s && t.a.rcv == s.a.rcv && t.a.tx == s.a.tx + x.tx
    && t.a.bat == s.a.bat.(msgs := s.a.bat.msgs + Msgs(x.tx), live := x.ok)
  }

  lemma SentTop(s: Sys)
    requires Enabled(s.a, s.b.tx, Top)
    ensures SentBy(s, StepA(s, Top), S.Start(s.a.snd))
  {
  }

  lemma SentBlock(s: Sys, blk: nat)
    requires Enabled(s.a, s.b.tx, SendBlock(blk))
    ensures SentBy(s, StepA(s, SendBlock(blk)), S.Block(s.a.snd, blk))
  {
  }

  lemma SentMoves(all: set<Key>, s: Sys, t: Sys, x: S.Result)
    requires Once(all, s.a, s.b) && s.a.bat.live && !s.a.bat.localEOB && SentBy(s, t, x) && x.ok
    requires |x.tx| <= 1 && (x.tx != [] ==> x.tx[0].Data? || (x.tx[0].MFile? && x.tx[0].off == -1))
    requires x.tx != [] && x.tx[0].Data? ==> !Settled(s.b.rcv, Down(s.a.tx), Up(s.b.tx))
    requires Moving(all, true, x.s, s.b.rcv, Down(s.a.tx) + x.tx, Up(s.b.tx), s.b.bat.remoteEOB)
    ensures Once(all, t.a, t.b)
  {
    EobsDown(s.a.tx);
    SentEnds(s, t, x.tx, Down(s.a.tx), Up(s.b.tx));
    DownQueued(s.a.tx, x.tx);
  }

  lemma TopOnce(all: set<Key>, s: Sys)
    requires Good(all) && Once(all, s.a, s.b) && Enabled(s.a, s.b.tx, Top)
    ensures var t := StepA(s, Top); Once(all, t.a, t.b)
  {
    SentTop(s);
    StartMoves(all, s.a.snd, s.b.rcv, Down(s.a.tx), Up(s.b.tx), s.b.bat.remoteEOB);
    SentMoves(all, s, StepA(s, Top), S.Start(s.a.snd));
  }

  lemma SendEobOnce(all: set<Key>, s: Sys)
    requires Once(all, s.a, s.b) && Enabled(s.a, s.b.tx, SendEob)
    ensures var t := StepA(s, SendEob); Once(all, t.a, t.b)
  {
    var d, u := Down(s.a.tx), Up(s.b.tx);
    EobStage(s.a.snd, s.b.rcv, d, u);
    EobKept(all, s.a.snd, s.b.rcv, d, u, s.b.bat.remoteEOB);
    EobsDown(s.a.tx);
    SentEnds(s, StepA(s, SendEob), [MEob], d, u);
    DownQueued(s.a.tx, [MEob]);
  }

  lemma SendBlockOnce(all: set<Key>, s: Sys, blk: nat)
    requires Once(all, s.a, s.b) && Enabled(s.a, s.b.tx, SendBlock(blk))
    ensures var t := StepA(s, SendBlock(blk)); Once(all, t.a, t.b)
  {
    SentBlock(s, blk);
    BlockMoves(all, s.a.snd, s.b.rcv, Down(s.a.tx), Up(s.b.tx), s.b.bat.remoteEOB, blk);
    SentMoves(all, s, StepA(s, SendBlock(blk)), S.Block(s.a.snd, blk));
  }

  // ---- answers taken by the sender ----

  lemma AnswerMoves(all: set<Key>, s: S.Snd, r: R.Rcv, d: seq<Frame>, u: seq<Frame>, rem: bool, x: S.Result)
    requires Good(all) && Moving(all, true, s, r, d, u, rem) && u != []
    requires match u[0]
      case MGot(k) => x == S.Got(s, k)
      case MSkip(k) => x == S.Skip(s, k)
      case MGet(k, at) => x == S.Get(s, k, at)
      case _ => false
    ensures d == [] && |u| == 1 && |x.tx| <= 1 && !(s.out.None? && s.sent == [])
    ensures x.tx != [] ==> x.tx[0].MErr? || (x.tx[0].MFile? && r.inComplete.None?)
    ensures Moving(all, x.ok, x.s, r, if x.tx != [] && x.tx[0].MFile? then x.tx else [], [], rem)
  {
    match u[0]
    case MGot(k) =>
      GotStage(s, r, d, u);
      GotKept(all, s, r, d, u, rem);
    case MSkip(k) =>
      SkipStage(s, r, d, u);
      SkipKept(all, s, r, d, u, rem);
    case MGet(k, at) =>
      GetStage(s, r, d, u);
      GetKept(all, s, r, d, u, rem);
  }

  lemma AnswerEobs(s: Sys, t: Sys, tx: seq<Frame>)
    requires s.b.tx != [] && IsAnswer(s.b.tx[0]) && |tx| <= 1 && t.b.tx == s.b.tx[1..] && t.a.tx == s.a.tx + tx
    requires tx != [] ==> tx[0].MErr? || tx[0].MFile?
    ensures Eobs(t.b.tx) == Eobs(s.b.tx) && Eobs(t.a.tx) == Eobs(s.a.tx) && Msgs(tx) == |tx|
  {
    Split(s.a.tx, tx, false);
    if tx != [] { assert tx == [tx[0]] && [tx[0]][1..] == []; }
  }

  lemma AnswerEnds(s: Sys, t: Sys, tx: seq<Frame>, d: seq<Frame>)
    requires Ending(s.a, s.b, [], Up(s.b.tx)) && s.a.bat.live && s.b.tx != [] && IsAnswer(s.b.tx[0]) && |tx| <= 1
    requires Eobs(s.a.tx) == 0
    requires !(s.a.snd.out.None? && s.a.snd.sent == []) && Up(s.b.tx) != []
    requires t.b == s.b.(tx := s.b.tx[1..]) && t.a.tx == s.a.tx + tx
    requires (tx != [] ==> tx[0].MErr? || (tx[0].MFile? && s.b.rcv.inComplete.None?))
    requires t.a.bat == s.a.bat.(msgs := s.a.bat.msgs + 1 + Msgs(tx), live := t.a.bat.live)
    requires d == if tx != [] && tx[0].MFile? then tx else []
    ensures Ending(t.a, t.b, d, [])
  {
    assert Eobs(t.b.tx) == Eobs(s.b.tx) && Eobs(t.a.tx) == Eobs(s.a.tx) && Msgs(tx) == |tx| by { AnswerEobs(s, t, tx); }
    AnsweredEnds(s.a, s.b, t.a, t.b, Up(s.b.tx), d);
  }

  /** Peer `a` took an answer, and sends at most a file in return. */
  lemma AnsweredEnds(a: Peer, b: Peer, a': Peer, b': Peer, u: seq<Frame>, d: seq<Frame>)
    requires Ending(a, b, [], u) && a.bat.live && u != [] && Eobs(a.tx) == 0 && !(a.snd.out.None? && a.snd.sent == [])
    requires b'.bat == b.bat && b'.rcv == b.rcv && b'.snd == b.snd && Eobs(b'.tx) == Eobs(b.tx) && Eobs(a'.tx) == 0
    requires a'.bat.ends == a.bat.ends && a'.bat.localEOB == a.bat.localEOB && a'.bat.remoteEOB == a.bat.remoteEOB
    requires a'.bat.msgs > a.bat.msgs
    requires d == [] || (|d| == 1 && d[0].MFile? && b.rcv.inComplete.None?)
    ensures Ending(a', b', d, [])
  {
  }

  lemma AnswerChannels(s: Sys, t: Sys, tx: seq<Frame>)
    requires s.b.tx != [] && IsAnswer(s.b.tx[0]) && t.b.tx == s.b.tx[1..] && t.a.tx == s.a.tx + tx && |tx| <= 1
    requires tx != [] ==> tx[0].MErr? || tx[0].MFile?
    ensures Up(s.b.tx) == [s.b.tx[0]] + Up(t.b.tx)
    ensures Down(t.a.tx) == Down(s.a.tx) + if tx != [] && tx[0].MFile? then tx else []
  {
    if tx == [] {
      assert s.a.tx + [] == s.a.tx && Down(s.a.tx) + [] == Down(s.a.tx);
    } else {
      assert tx == [tx[0]];
      Queued(s.a.tx, tx[0]);
    }
  }

  /** Peer `a` took an answer, moved its sending half to `x` and queued `tx`. */
  lemma AnsweredOnce(all: set<Key>, s: Sys, t: Sys, x: S.Snd, tx: seq<Frame>, d: seq<Frame>)
    requires Ending(s.a, s.b, [], Up(s.b.tx)) && s.a.bat.live && s.b.tx != [] && IsAnswer(s.b.tx[0])
    requires Down(s.a.tx) == [] && |Up(s.b.tx)| == 1 && !(s.a.snd.out.None? && s.a.snd.sent == [])
    requires |tx| <= 1 && (tx != [] ==> tx[0].MErr? || (tx[0].MFile? && s.b.rcv.inComplete.None?))
    requires d == if tx != [] && tx[0].MFile? then tx else []
    requires t.a.snd == x && t.a.tx == s.a.tx + tx && t.b == s.b.(tx := s.b.tx[1..])
    requires t.a.bat == s.a.bat.(msgs := s.a.bat.msgs + 1 + Msgs(tx), live := t.a.bat.live)
    requires Moving(all, t.a.bat.live, x, s.b.rcv, d, [], s.b.bat.remoteEOB)
    ensures Once(all, t.a, t.b)
  {
    assert Up(t.b.tx) == [] && Down(t.a.tx) == d by {
      AnswerChannels(s, t, tx);
      assert [] + d == d;
    }
    assert Ending(t.a, t.b, d, []) by {
      EobsDown(s.a.tx);
      AnswerEnds(s, t, tx, d);
    }
  }

  /** Peer `a` took an answer, with the result `x`. */
  ghost predicate Took(s: Sys, t: Sys, x: S.Result) {
    && s.b.tx != [] && t.b == s.b.(tx := s.b.tx[1..]) && t.a.snd == x.s && t.a.tx == s.a.tx + x.tx
    && t.a.bat == s.a.bat.(msgs := s.a.bat.msgs + 1 + Msgs(x.tx), live := x.ok)
  }

  lemma GotOnce(all: set<Key>, s: Sys, t: Sys)
    requires Good(all) && Once(all, s.a, s.b) && s.a.bat.live && s.b.tx != [] && s.b.tx[0].MGot?
    requires Took(s, t, S.Got(s.a.snd, s.b.tx[0].k))
    ensures Once(all, t.a, t.b)
  {
    var x := S.Got(s.a.snd, s.b.tx[0].k);
    assert Up(s.b.tx) != [] && Up(s.b.tx)[0] == s.b.tx[0];
    AnswerMoves(all, s.a.snd, s.b.rcv, Down(s.a.tx), Up(s.b.tx), s.b.bat.remoteEOB, x);
    AnsweredOnce(all, s, t, x.s, x.tx, []);
  }

  lemma SkipOnce(all: set<Key>, s: Sys, t: Sys)
    requires Good(all) && Once(all, s.a, s.b) && s.a.bat.live && s.b.tx != [] && s.b.tx[0].MSkip?
    requires Took(s, t, S.Skip(s.a.snd, s.b.tx[0].k))
    ensures Once(all, t.a, t.b)
  {
    var x := S.Skip(s.a.snd, s.b.tx[0].k);
    assert Up(s.b.tx) != [] && Up(s.b.tx)[0] == s.b.tx[0];
    AnswerMoves(all, s.a.snd, s.b.rcv, Down(s.a.tx), Up(s.b.tx), s.b.bat.remoteEOB, x);
    AnsweredOnce(all, s, t, x.s, x.tx, []);
  }

  lemma GetOnce(all: set<Key>, s: Sys, t: Sys)
    requires Good(all) && Once(all, s.a, s.b) && s.a.bat.live && s.b.tx != [] && s.b.tx[0].MGet?
    requires Took(s, t, S.Get(s.a.snd, s.b.tx[0].k, s.b.tx[0].at))
    ensures Once(all, t.a, t.b)
  {
    var x := S.Get(s.a.snd, s.b.tx[0].k, s.b.tx[0].at);
    assert Up(s.b.tx) != [] && Up(s.b.tx)[0] == s.b.tx[0];
    AnswerMoves(all, s.a.snd, s.b.rcv, Down(s.a.tx), Up(s.b.tx), s.b.bat.remoteEOB, x);
    AnsweredOnce(all, s, t, x.s, x.tx, x.tx);
  }

  lemma TookGot(s: Sys, fails: bool)
    requires Enabled(s.a, s.b.tx, Recv(fails)) && s.b.tx[0].MGot?
    ensures Took(s, StepA(s, Recv(fails)), S.Got(s.a.snd, s.b.tx[0].k))
  {
  }

  lemma TookSkip(s: Sys, fails: bool)
    requires Enabled(s.a, s.b.tx, Recv(fails)) && s.b.tx[0].MSkip?
    ensures Took(s, StepA(s, Recv(fails)), S.Skip(s.a.snd, s.b.tx[0].k))
  {
  }

  lemma TookGet(s: Sys, fails: bool)
    requires Enabled(s.a, s.b.tx, Recv(fails)) && s.b.tx[0].MGet?
    ensures Took(s, StepA(s, Recv(fails)), S.Get(s.a.snd, s.b.tx[0].k, s.b.tx[0].at))
  {
  }

  lemma AnswerOnce(all: set<Key>, s: Sys, fails: bool)
    requires Good(all) && Once(all, s.a, s.b) && Enabled(s.a, s.b.tx, Recv(fails)) && IsAnswer(s.b.tx[0])
    ensures var t := StepA(s, Recv(fails)); Once(all, t.a, t.b)
  {
    match s.b.tx[0]
    case MGot(k) =>
      TookGot(s, fails);
      GotOnce(all, s, StepA(s, Recv(fails)));
    case MSkip(k) =>
      TookSkip(s, fails);
      SkipOnce(all, s, StepA(s, Recv(fails)));
    case MGet(k, at) =>
      TookGet(s, fails);
      GetOnce(all, s, StepA(s, Recv(fails)));
  }

  // ---- the sender's other half, and the end of its batches ----

  /** Peer `a` took a frame with its receiving half and may have queued an answer. */
  lemma OtherHalfOnce(all: set<Key>, s: Sys, t: Sys, tx: seq<Frame>)
    requires Once(all, s.a, s.b) && s.a.bat.live && s.b.tx != [] && !IsAnswer(s.b.tx[0])
    requires t.b == s.b.(tx := s.b.tx[1..]) && t.a.snd == s.a.snd && t.a.tx == s.a.tx + tx && |tx| <= 1
    requires tx != [] ==> IsAnswer(tx[0]) || tx[0].MErr?
    requires t.a.bat == s.a.bat.(
      live := t.a.bat.live, remoteEOB := s.a.bat.remoteEOB || s.b.tx[0].MEob?,
      msgs := s.a.bat.msgs + Msgs(tx) + (if s.b.tx[0].Data? then 0 else 1))
    ensures Once(all, t.a, t.b)
  {
    OtherHalfChannels(s, t, tx);
    OtherHalfEnding(s, t, tx, Down(s.a.tx), Up(s.b.tx));
  }

  lemma OtherHalfEnding(s: Sys, t: Sys, tx: seq<Frame>, d: seq<Frame>, u: seq<Frame>)
    requires Ending(s.a, s.b, d, u) && s.a.bat.live && s.b.tx != []
    requires t.b == s.b.(tx := s.b.tx[1..]) && t.a.snd == s.a.snd
    requires Eobs(t.a.tx) == Eobs(s.a.tx) && Eobs(s.b.tx) == Eobs(t.b.tx) + (if s.b.tx[0].MEob? then 1 else 0)
    requires t.a.bat == s.a.bat.(
      live := t.a.bat.live, remoteEOB := s.a.bat.remoteEOB || s.b.tx[0].MEob?,
      msgs := s.a.bat.msgs + Msgs(tx) + (if s.b.tx[0].Data? then 0 else 1))
    ensures Ending(t.a, t.b, d, u)
  {
  }

  lemma OtherHalfChannels(s: Sys, t: Sys, tx: seq<Frame>)
    requires s.b.tx != [] && !IsAnswer(s.b.tx[0]) && t.b.tx == s.b.tx[1..] && t.a.tx == s.a.tx + tx && |tx| <= 1
    requires tx != [] ==> IsAnswer(tx[0]) || tx[0].MErr?
    ensures Up(t.b.tx) == Up(s.b.tx) && Eobs(s.b.tx) == Eobs(t.b.tx) + (if s.b.tx[0].MEob? then 1 else 0)
    ensures Down(t.a.tx) == Down(s.a.tx) && Eobs(t.a.tx) == Eobs(s.a.tx)
  {
    if tx == [] { assert s.a.tx + [] == s.a.tx; } else {
      assert tx == [tx[0]];
      Queued(s.a.tx, tx[0]);
    }
  }

  lemma SenderEndOnce(all: set<Key>, s: Sys, more: seq<S.Entry>)
    requires Once(all, s.a, s.b) && Enabled(s.a, s.b.tx, EndBatch(more)) && forall e :: e in more ==> !e.status
    ensures var t := StepA(s, EndBatch(more)); Once(all, t.a, t.b)
  {
    var d, u := Down(s.a.tx), Up(s.b.tx);
    EobsDown(s.a.tx);
    if s.a.bat.msgs <= 2 {
      assert AtRest(s.a.snd, s.b.rcv, d, u);
      assert s.b.rcv.inComplete.None?;
      SenderDone(all, s.a.snd, s.b.rcv, d, u, s.b.bat.remoteEOB);
    } else {
      QueueGrows(all, s.a.snd, s.b.rcv, d, u, s.b.bat.remoteEOB, more);
    }
  }

  lemma SenderQuietOnce(all: set<Key>, s: Sys, act: Act)
    requires Once(all, s.a, s.b) && Enabled(s.a, s.b.tx, act) && (act.Enqueue? || act.Take? || act.Stop?)
    requires act.Enqueue? ==> forall e :: e in act.more ==> !e.status
    ensures var t := StepA(s, act); Once(all, t.a, t.b)
  {
    if act.Enqueue? {
      QueueGrows(all, s.a.snd, s.b.rcv, Down(s.a.tx), Up(s.b.tx), s.b.bat.remoteEOB, act.more);
    }
  }

  // ---- steps of the receiver ----

  /** Peer `a`, the receiver, takes offers and data only while its batch is open. */
  lemma BatchOpen(all: set<Key>, s: Sys, fails: bool)
    requires Once(all, s.b, s.a) && Enabled(s.a, s.b.tx, Recv(fails)) && Carries(s.b.tx[0])
    ensures !s.a.bat.remoteEOB
    ensures Down(s.b.tx) == [s.b.tx[0]] + Down(s.b.tx[1..]) && Stage(s.b.snd, s.a.rcv, Down(s.b.tx), Up(s.a.tx))
  {
    var d, u := Down(s.b.tx), Up(s.a.tx);
    assert d[0] == s.b.tx[0] && d[0] in d;
    if s.a.bat.remoteEOB {
      EobsDown(s.b.tx);
      LastEob(d);
    }
  }

  lemma LastEob(d: seq<Frame>)
    ensures d != [] && d[|d| - 1].MEob? ==> Eobs(d) > 0
  {
    if d != [] && d[|d| - 1].MEob? {
      Occurs(d, d[|d| - 1], false);
    }
  }

  /** Peer `a` took a frame with its receiving half, with the result `x`. */
  ghost predicate Handled(s: Sys, t: Sys, x: R.Result) {
    && s.b.tx != [] && t.b == s.b.(tx := s.b.tx[1..]) && t.a.snd == s.a.snd && t.a.rcv == x.r && t.a.tx == s.a.tx + x.tx
    && t.a.bat == s.a.bat.(live := x.ok, remoteEOB := s.a.bat.remoteEOB || s.b.tx[0].MEob?,
                           msgs := s.a.bat.msgs + Msgs(x.tx) + (if s.b.tx[0].Data? then 0 else 1))
  }

  lemma HandledFile(s: Sys, fails: bool)
    requires Enabled(s.a, s.b.tx, Recv(fails)) && s.b.tx[0].MFile?
    ensures Handled(s, StepA(s, Recv(fails)), R.File(s.a.rcv, s.b.tx[0].k, s.b.tx[0].off, s.b.tx[0].farewell, fails))
  {
  }

  lemma HandledData(s: Sys, fails: bool)
    requires Enabled(s.a, s.b.tx, Recv(fails)) && s.b.tx[0].Data?
    ensures Handled(s, StepA(s, Recv(fails)), R.Data(s.a.rcv, s.b.tx[0].bytes))
  {
  }

  lemma HandledEob(s: Sys, fails: bool)
    requires Enabled(s.a, s.b.tx, Recv(fails)) && s.b.tx[0].MEob?
    ensures Handled(s, StepA(s, Recv(fails)), R.Eob(s.a.rcv))
  {
  }

  lemma UpQueued(fs: seq<Frame>, tx: seq<Frame>)
    requires |tx| <= 1 && forall f :: f in tx ==> IsAnswer(f)
    ensures Up(fs + tx) == Up(fs) + tx && Eobs(fs + tx) == Eobs(fs) && Down(fs + tx) == Down(fs)
  {
    if tx == [] {
      assert fs + [] == fs && Up(fs) + [] == Up(fs);
    } else {
      assert tx == [tx[0]] && tx[0] in tx;
      Queued(fs, tx[0]);
    }
  }

  /** What is left of the channel. */
  lemma HandledEnds(s: Sys, t: Sys, x: R.Result)
    requires Ending(s.b, s.a, Down(s.b.tx), []) && s.a.bat.live && !s.a.bat.remoteEOB && Handled(s, t, x) && x.ok
    requires Down(s.b.tx) == [s.b.tx[0]] + Down(s.b.tx[1..]) && |x.tx| <= 1 && (forall f :: f in x.tx ==> IsAnswer(f))
    requires x.r.inComplete.Some? ==> x.tx != []
    requires s.b.tx[0].MEob? ==> Settled(x.r, Down(s.b.tx[1..]), x.tx)
    ensures Ending(t.b, t.a, Down(s.b.tx[1..]), x.tx)
  {
    UpQueued(s.a.tx, x.tx);
    EobsDown(s.b.tx);
    EobsDown(s.b.tx[1..]);
    assert Eobs(s.b.tx) == Eobs(s.b.tx[1..]) + (if s.b.tx[0].MEob? then 1 else 0);
  }

  lemma HandledOnce(all: set<Key>, s: Sys, t: Sys, x: R.Result)
    requires Ending(s.b, s.a, Down(s.b.tx), []) && s.a.bat.live && !s.a.bat.remoteEOB && Handled(s, t, x) && x.ok
    requires Down(s.b.tx) == [s.b.tx[0]] + Down(s.b.tx[1..]) && |x.tx| <= 1 && (forall f :: f in x.tx ==> IsAnswer(f))
    requires Up(s.a.tx) == []
    requires x.r.inComplete.Some? ==> x.tx != []
    requires s.b.tx[0].MEob? ==> Settled(x.r, Down(s.b.tx[1..]), x.tx)
    requires Moving(all, s.b.bat.live, s.b.snd, x.r, Down(s.b.tx[1..]), x.tx, s.b.tx[0].MEob?)
    ensures Once(all, t.b, t.a)
  {
    HandledEnds(s, t, x);
    UpQueued(s.a.tx, x.tx);
    assert [] + x.tx == x.tx;
  }

  lemma FileHandled(all: set<Key>, s: Sys, t: Sys, x: R.Result)
    requires Good(all) && Once(all, s.b, s.a) && s.a.bat.live && !s.a.bat.remoteEOB && Handled(s, t, x)
    requires s.b.tx[0].MFile?
    requires x == R.File(s.a.rcv, s.b.tx[0].k, s.b.tx[0].off, s.b.tx[0].farewell, false)
    requires Down(s.b.tx) == [s.b.tx[0]] + Down(s.b.tx[1..]) && Stage(s.b.snd, s.a.rcv, Down(s.b.tx), Up(s.a.tx))
    ensures Once(all, t.b, t.a) && Renames(all, s.b.snd, s.a.rcv, t.a.rcv)
  {
    assert Down(s.b.tx)[0] == s.b.tx[0] && Down(s.b.tx)[1..] == Down(s.b.tx[1..]);
    FileStep(all, s.b.snd, s.a.rcv, Down(s.b.tx), Up(s.a.tx), false);
    HandledOnce(all, s, t, x);
  }

  lemma FileOnce(all: set<Key>, s: Sys)
    requires Good(all) && Once(all, s.b, s.a) && Enabled(s.a, s.b.tx, Recv(false)) && s.b.tx[0].MFile?
    ensures var t := StepA(s, Recv(false)); Once(all, t.b, t.a) && Renames(all, s.b.snd, s.a.rcv, t.a.rcv)
  {
    var f := s.b.tx[0];
    BatchOpen(all, s, false);
    HandledFile(s, false);
    FileHandled(all, s, StepA(s, Recv(false)), R.File(s.a.rcv, f.k, f.off, f.farewell, false));
  }

  lemma DataOnce(all: set<Key>, s: Sys, fails: bool)
    requires Good(all) && Once(all, s.b, s.a) && Enabled(s.a, s.b.tx, Recv(fails)) && s.b.tx[0].Data?
    ensures var t := StepA(s, Recv(fails)); Once(all, t.b, t.a) && Renames(all, s.b.snd, s.a.rcv, t.a.rcv)
  {
    BatchOpen(all, s, fails);
    HandledData(s, fails);
    assert Down(s.b.tx)[0] == s.b.tx[0] && Down(s.b.tx)[1..] == Down(s.b.tx[1..]);
    DataStep(all, s.b.snd, s.a.rcv, Down(s.b.tx), Up(s.a.tx), false);
    HandledOnce(all, s, StepA(s, Recv(fails)), R.Data(s.a.rcv, s.b.tx[0].bytes));
  }

  lemma EobOnce(all: set<Key>, s: Sys, fails: bool)
    requires Good(all) && Once(all, s.b, s.a) && Enabled(s.a, s.b.tx, Recv(fails)) && s.b.tx[0].MEob?
    ensures var t := StepA(s, Recv(fails)); Once(all, t.b, t.a) && Renames(all, s.b.snd, s.a.rcv, t.a.rcv)
  {
    BatchOpen(all, s, fails);
    HandledEob(s, fails);
    assert Down(s.b.tx)[0] == s.b.tx[0] && Down(s.b.tx)[1..] == Down(s.b.tx[1..]);
    EobTaken(all, s.b.snd, s.a.rcv, Down(s.b.tx), Up(s.a.tx), false);
    HandledOnce(all, s, StepA(s, Recv(fails)), R.Eob(s.a.rcv));
  }

  // ---- the receiver's other half, and the end of its batches ----

  /** The channels when peer `a` has used its sending half: it queued `tx`, and took at most an answer. */
  lemma OtherSentChannels(s: Sys, t: Sys, tx: seq<Frame>)
    requires |tx| <= 1 && (forall f :: f in tx ==> !IsAnswer(f)) && t.a.tx == s.a.tx + tx
    requires t.b.tx == s.b.tx || (s.b.tx != [] && !Carries(s.b.tx[0]) && t.b.tx == s.b.tx[1..])
    ensures Down(t.b.tx) == Down(s.b.tx) && Eobs(t.b.tx) == Eobs(s.b.tx)
    ensures Up(t.a.tx) == Up(s.a.tx) && Eobs(t.a.tx) == Eobs(s.a.tx) + if tx != [] && tx[0].MEob? then 1 else 0
  {
    if tx == [] { assert s.a.tx + [] == s.a.tx; } else {
      assert tx == [tx[0]] && tx[0] in tx;
      Queued(s.a.tx, tx[0]);
    }
  }

  lemma OtherSentOnce(all: set<Key>, s: Sys, t: Sys, tx: seq<Frame>)
    requires Once(all, s.b, s.a) && s.a.bat.live && |tx| <= 1 && (forall f :: f in tx ==> !IsAnswer(f))
    requires t.b == s.b || (s.b.tx != [] && !Carries(s.b.tx[0]) && t.b == s.b.(tx := s.b.tx[1..]))
    requires t.a.rcv == s.a.rcv && t.a.tx == s.a.tx + tx
    requires t.a.bat == s.a.bat.(live := t.a.bat.live, msgs := t.a.bat.msgs, localEOB := t.a.bat.localEOB)
    requires if tx != [] && tx[0].MEob? then !s.a.bat.localEOB && t.a.bat.localEOB
      else t.a.bat.localEOB == s.a.bat.localEOB
    requires t.a.bat.localEOB ==> t.a.snd.sent == [] && !Sending(t.a.snd)
    ensures Once(all, t.b, t.a)
  {
    OtherSentChannels(s, t, tx);
  }

  /** After M_EOB a sending half holds no file, and cannot get one back. */
  lemma StaysEmpty(s: S.Snd, k: Key, off: nat)
    requires s.sent == [] && !Sending(s)
    ensures S.Got(s, k).s.sent == [] && !Sending(S.Got(s, k).s)
    ensures S.Skip(s, k).s.sent == [] && !Sending(S.Skip(s, k).s)
    ensures S.Get(s, k, off).s.sent == [] && !Sending(S.Get(s, k, off).s)
  {
  }

  lemma ReceiverEndOnce(all: set<Key>, s: Sys, more: seq<S.Entry>)
    requires Once(all, s.b, s.a) && Enabled(s.a, s.b.tx, EndBatch(more))
    ensures var t := StepA(s, EndBatch(more)); Once(all, t.b, t.a)
  {
    var d, u := Down(s.b.tx), Up(s.a.tx);
    if s.a.bat.msgs <= 2 {
      ReceiverDone(all, s.b.snd, s.a.rcv, d, u);
    } else {
      BatchReopened(all, s.b.snd, s.a.rcv, d, u);
    }
  }

  lemma BatchReopened(all: set<Key>, s: S.Snd, r: R.Rcv, d: seq<Frame>, u: seq<Frame>)
    requires Kept(all, s, r, d, u, true)
    ensures Kept(all, s, r, d, u, false)
  {
    forall k | k in all ensures Carried(s, r, d, true, k) ==> Carried(s, r, d, false, k) {
    }
  }

  lemma ReceiverQuietOnce(all: set<Key>, s: Sys, act: Act)
    requires Once(all, s.b, s.a) && Enabled(s.a, s.b.tx, act) && (act.Enqueue? || act.Take? || act.Stop?)
    ensures var t := StepA(s, act); Once(all, t.b, t.a)
  {
    var d, u := Down(s.b.tx), Up(s.a.tx);
    var t := StepA(s, act);
    if act.Take? {
      var r, x := s.a.rcv, t.a.rcv;
      TakenKept(all, s.b.snd, r, d, u, s.a.bat.remoteEOB, act.p);
      if Stage(s.b.snd, r, d, u) { TakenStage(s.b.snd, r, d, u, act.p); }
    }
  }

  lemma TakenKept(all: set<Key>, s: S.Snd, r: R.Rcv, d: seq<Frame>, u: seq<Frame>, rem: bool, p: PartKey)
    requires Kept(all, s, r, d, u, rem)
    ensures Kept(all, s, r.(disk := r.disk.(inbound := r.disk.inbound - {p})), d, u, rem)
  {
    var t := r.(disk := r.disk.(inbound := r.disk.inbound - {p}));
    assert forall k :: R.Part(t, k) == R.Part(r, k);
    forall k | k in all ensures Carried(s, r, d, rem, k) ==> Carried(s, t, d, rem, k) {
    }
  }

  lemma TakenStage(s: S.Snd, r: R.Rcv, d: seq<Frame>, u: seq<Frame>, p: PartKey)
    requires Stage(s, r, d, u)
    ensures Stage(s, r.(disk := r.disk.(inbound := r.disk.inbound - {p})), d, u)
  {
    var t := r.(disk := r.disk.(inbound := r.disk.inbound - {p}));
    assert forall k :: R.Part(t, k) == R.Part(r, k);
    if AtRest(s, r, d, u) {
      assert AtRest(s, t, d, u);
    } else if Asked(s, r, d, u) {
      assert Asked(s, t, d, u);
    } else if Streaming(s, r, d, u) {
      assert Streaming(s, t, d, u);
    } else if Awaited(s, r, d, u) {
      assert Awaited(s, t, d, u);
    }
  }

  // ---- the two peers ----

  lemma SenderAct(all: set<Key>, s: Sys, act: Act)
    requires Good(all) && Once(all, s.a, s.b) && Enabled(s.a, s.b.tx, act)
    requires act.Enqueue? || act.EndBatch? ==> forall e :: e in act.more ==> !e.status
    ensures var t := StepA(s, act); Once(all, t.a, t.b)
  {
    match act
    case Top => TopOnce(all, s);
    case SendEob => SendEobOnce(all, s);
    case SendBlock(blk) => SendBlockOnce(all, s, blk);
    case Recv(fails) => SenderRecv(all, s, fails);
    case EndBatch(more) => SenderEndOnce(all, s, more);
    case Enqueue(_) => SenderQuietOnce(all, s, act);
    case Take(_) => SenderQuietOnce(all, s, act);
    case Stop => SenderQuietOnce(all, s, act);
  }

  ghost predicate AnswersAtMost(tx: seq<Frame>) { |tx| <= 1 && (tx != [] ==> IsAnswer(tx[0]) || tx[0].MErr?) }

  lemma RenameShape(r: R.Rcv)
    ensures AnswersAtMost(R.Rename(r).tx)
  {
  }

  lemma AdmitShape(r: R.Rcv, k: Key, off: int, w: bool, fails: bool)
    ensures AnswersAtMost(R.Admit(r, k, off, w, fails).tx)
  {
  }

  lemma OfferShape(r: R.Rcv, k: Key, off: int, w: bool, fails: bool)
    ensures AnswersAtMost(R.File(r, k, off, w, fails).tx)
  {
    var r0 := if r.inn.Some? && r.inn.value.k.name != k.name then R.ClosePartial(r) else r;
    RenameShape(r0);
    var d := R.Rename(r0);
    AdmitShape(if off == -1 then d.r.(g := d.r.g.(theyNR := true)) else d.r, k, off, w, fails);
  }

  lemma SenderOffered(all: set<Key>, s: Sys, fails: bool)
    requires Once(all, s.a, s.b) && Enabled(s.a, s.b.tx, Recv(fails)) && s.b.tx[0].MFile?
    ensures var t := StepA(s, Recv(fails)); Once(all, t.a, t.b)
  {
    var f := s.b.tx[0];
    HandledFile(s, fails);
    OfferShape(s.a.rcv, f.k, f.off, f.farewell, fails);
    OtherHalfOnce(all, s, StepA(s, Recv(fails)), R.File(s.a.rcv, f.k, f.off, f.farewell, fails).tx);
  }

  lemma SenderFed(all: set<Key>, s: Sys, fails: bool)
    requires Once(all, s.a, s.b) && Enabled(s.a, s.b.tx, Recv(fails)) && s.b.tx[0].Data?
    ensures var t := StepA(s, Recv(fails)); Once(all, t.a, t.b)
  {
    HandledData(s, fails);
    OtherHalfOnce(all, s, StepA(s, Recv(fails)), R.Data(s.a.rcv, s.b.tx[0].bytes).tx);
  }

  lemma SenderTold(all: set<Key>, s: Sys, fails: bool)
    requires Once(all, s.a, s.b) && Enabled(s.a, s.b.tx, Recv(fails)) && s.b.tx[0].MEob?
    ensures var t := StepA(s, Recv(fails)); Once(all, t.a, t.b)
  {
    HandledEob(s, fails);
    OtherHalfOnce(all, s, StepA(s, Recv(fails)), R.Eob(s.a.rcv).tx);
  }

  lemma SenderRecv(all: set<Key>, s: Sys, fails: bool)
    requires Good(all) && Once(all, s.a, s.b) && Enabled(s.a, s.b.tx, Recv(fails))
    ensures var t := StepA(s, Recv(fails)); Once(all, t.a, t.b)
  {
    match s.b.tx[0]
    case MFile(k, off, w) => SenderOffered(all, s, fails);
    case Data(bytes) => SenderFed(all, s, fails);
    case MEob => SenderTold(all, s, fails);
    case MErr => OtherHalfOnce(all, s, StepA(s, Recv(fails)), []);
    case MGet(_, _) => AnswerOnce(all, s, fails);
    case MGot(_) => AnswerOnce(all, s, fails);
    case MSkip(_) => AnswerOnce(all, s, fails);
  }

  lemma ReceiverRecv(all: set<Key>, s: Sys)
    requires Good(all) && Once(all, s.b, s.a) && Enabled(s.a, s.b.tx, Recv(false))
    ensures var t := StepA(s, Recv(false)); Once(all, t.b, t.a) && Renames(all, s.b.snd, s.a.rcv, t.a.rcv)
  {
    var t := StepA(s, Recv(false));
    match s.b.tx[0]
    case MFile(_, _, _) => FileOnce(all, s);
    case Data(_) => DataOnce(all, s, false);
    case MEob => EobOnce(all, s, false);
    case MErr => OtherSentOnce(all, s, t, []);
    case MGet(k, at) => ReceiverAnswer(all, s);
    case MGot(k) => ReceiverAnswer(all, s);
    case MSkip(k) => ReceiverAnswer(all, s);
  }

  lemma ReceiverGot(all: set<Key>, s: Sys, t: Sys)
    requires Once(all, s.b, s.a) && s.a.bat.live && s.b.tx != [] && s.b.tx[0].MGot?
    requires Took(s, t, S.Got(s.a.snd, s.b.tx[0].k)) && t.a.rcv == s.a.rcv
    ensures Once(all, t.b, t.a)
  {
    var x := S.Got(s.a.snd, s.b.tx[0].k);
    assert s.a.bat.localEOB ==> x.s.sent == [] && !Sending(x.s) by {
      if s.a.bat.localEOB { StaysEmpty(s.a.snd, s.b.tx[0].k, 0); }
    }
    OtherSentOnce(all, s, t, x.tx);
  }

  lemma ReceiverSkip(all: set<Key>, s: Sys, t: Sys)
    requires Once(all, s.b, s.a) && s.a.bat.live && s.b.tx != [] && s.b.tx[0].MSkip?
    requires Took(s, t, S.Skip(s.a.snd, s.b.tx[0].k)) && t.a.rcv == s.a.rcv
    ensures Once(all, t.b, t.a)
  {
    var x := S.Skip(s.a.snd, s.b.tx[0].k);
    assert s.a.bat.localEOB ==> x.s.sent == [] && !Sending(x.s) by {
      if s.a.bat.localEOB { StaysEmpty(s.a.snd, s.b.tx[0].k, 0); }
    }
    OtherSentOnce(all, s, t, x.tx);
  }

  lemma ReceiverGet(all: set<Key>, s: Sys, t: Sys)
    requires Once(all, s.b, s.a) && s.a.bat.live && s.b.tx != [] && s.b.tx[0].MGet?
    requires Took(s, t, S.Get(s.a.snd, s.b.tx[0].k, s.b.tx[0].at)) && t.a.rcv == s.a.rcv
    ensures Once(all, t.b, t.a)
  {
    var x := S.Get(s.a.snd, s.b.tx[0].k, s.b.tx[0].at);
    assert s.a.bat.localEOB ==> x.s.sent == [] && !Sending(x.s) by {
      if s.a.bat.localEOB { StaysEmpty(s.a.snd, s.b.tx[0].k, s.b.tx[0].at); }
    }
    OtherSentOnce(all, s, t, x.tx);
  }

  lemma ReceiverAnswer(all: set<Key>, s: Sys)
    requires Once(all, s.b, s.a) && Enabled(s.a, s.b.tx, Recv(false)) && IsAnswer(s.b.tx[0])
    ensures var t := StepA(s, Recv(false)); Once(all, t.b, t.a) && t.a.rcv == s.a.rcv
  {
    match s.b.tx[0]
    case MGet(k, at) =>
      TookGet(s, false);
      ReceiverGet(all, s, StepA(s, Recv(false)));
    case MGot(k) =>
      TookGot(s, false);
      ReceiverGot(all, s, StepA(s, Recv(false)));
    case MSkip(k) =>
      TookSkip(s, false);
      ReceiverSkip(all, s, StepA(s, Recv(false)));
  }

  lemma ReceiverTop(all: set<Key>, s: Sys)
    requires Once(all, s.b, s.a) && Enabled(s.a, s.b.tx, Top)
    ensures var t := StepA(s, Top); Once(all, t.b, t.a) && t.a.rcv == s.a.rcv
  {
    OtherSentOnce(all, s, StepA(s, Top), S.Start(s.a.snd).tx);
  }

  lemma ReceiverBlock(all: set<Key>, s: Sys, blk: nat)
    requires Once(all, s.b, s.a) && Enabled(s.a, s.b.tx, SendBlock(blk))
    ensures var t := StepA(s, SendBlock(blk)); Once(all, t.b, t.a) && t.a.rcv == s.a.rcv
  {
    OtherSentOnce(all, s, StepA(s, SendBlock(blk)), S.Block(s.a.snd, blk).tx);
  }

  lemma ReceiverSendsEob(all: set<Key>, s: Sys)
    requires Once(all, s.b, s.a) && Enabled(s.a, s.b.tx, SendEob)
    ensures var t := StepA(s, SendEob); Once(all, t.b, t.a) && t.a.rcv == s.a.rcv
  {
    OtherSentOnce(all, s, StepA(s, SendEob), [MEob]);
  }

  lemma ReceiverAct(all: set<Key>, s: Sys, act: Act)
    requires Good(all) && Once(all, s.b, s.a) && Enabled(s.a, s.b.tx, act)
    requires act.Recv? ==> !act.openFails
    ensures var t := StepA(s, act); Once(all, t.b, t.a) && Renames(all, s.b.snd, s.a.rcv, t.a.rcv)
  {
    match act
    case Top => ReceiverTop(all, s);
    case SendEob => ReceiverSendsEob(all, s);
    case SendBlock(blk) => ReceiverBlock(all, s, blk);
    case Recv(fails) => ReceiverRecv(all, s);
    case EndBatch(more) => ReceiverEndOnce(all, s, more);
    case Enqueue(_) => ReceiverQuietOnce(all, s, act);
    case Take(_) => ReceiverQuietOnce(all, s, act);
    case Stop => ReceiverQuietOnce(all, s, act);
  }

  // ---- sessions ----

  /** What survives a session, however it ends. */
  ghost predicate OnDisk(all: set<Key>, s: S.Snd, r: R.Rcv) {
    && (forall k :: k in all ==>
          || k in s.disk.spool || PartOf(k) in r.hist.had || ThrownAway(r, k)
          || (s.disk.stc == Some(k) && Whole(r, k)))
    && (forall k :: k in s.disk.spool ==> k in all && |s.disk.spool[k]| == k.size)
    && (s.disk.stc.Some? ==> s.disk.stc.value in all && s.disk.stc.value !in s.disk.spool)
    && LogOk(all, s, r) && (forall p :: p in r.disk.inbound ==> p in r.hist.had)
    && (r.inn.Some? ==> !IsPkt(r.inn.value.k.name))
  }

  /** The queue of a new session: a pending status leads, and there is no other. */
  ghost predicate Offers(disk: S.Disk, masks: map<Key, bool>, q: Option<seq<S.Entry>>) {
    && (disk.stc.Some? ==> q.Some? && Leads(q.value, disk.spool, masks, disk.stc.value))
    && (q.Some? ==> OneStatus(q.value) && forall e :: e in q.value && e.status ==> disk.stc == Some(e.k))
  }

  lemma LeavesOnDisk(all: set<Key>, a: Peer, b: Peer)
    requires Good(all) && Once(all, a, b)
    ensures OnDisk(all, a.snd, b.rcv)
  {
    var d := Down(a.tx);
    if b.rcv.inn.Some? {
      assert b.rcv.inn.value.k in all;
    }
  }

  lemma FreshKept(all: set<Key>, a: Peer, b: Peer, q: Option<seq<S.Entry>>, nr: bool)
    requires Good(all) && OnDisk(all, a.snd, b.rcv) && Offers(a.snd.disk, b.rcv.masks, q)
    ensures Moving(all, true, Fresh(a, q, nr, true, false).snd, Fresh(b, None, false, false, true).rcv, [], [], false)
  {
    var s, r := Fresh(a, q, nr, true, false).snd, Fresh(b, None, false, false, true).rcv;
    CloseKeeps(b.rcv);
    assert forall k :: R.Part(r, k) == R.Part(b.rcv, k);
    forall k | k in all && s.disk.stc == Some(k) && Whole(r, k) ensures Carried(s, r, [], false, k) {
      assert Pending(s, r, k);
    }
  }

  lemma AgainOnce(all: set<Key>, a: Peer, b: Peer, qa: Option<seq<S.Entry>>, qb: Option<seq<S.Entry>>, nra: bool,
      nrb: bool, ndb: bool)
    requires Good(all) && OnDisk(all, a.snd, b.rcv) && Offers(a.snd.disk, b.rcv.masks, qa)
    ensures Once(all, Fresh(a, qa, nra, true, ndb), Fresh(b, qb, nrb, ndb, true))
  {
    FreshKept(all, a, b, qa, nra);
  }

  /** The conditions on a step: no disk operation fails at the receiver, every session is in ND mode, and in its queue
      a pending status leads. */
  ghost predicate Allowed(s: Sys, l: Label) {
    match l
    case ActA(act) => act.Enqueue? || act.EndBatch? ==> forall e :: e in act.more ==> !e.status
    case ActB(act) => act.Recv? ==> !act.openFails
    case Again(qa, _, _, nda, _, _) => nda && Offers(s.a.snd.disk, s.b.rcv.masks, qa)
  }

  lemma NextOnce(all: set<Key>, s: Sys, l: Label, t: Sys)
    requires Good(all) && Once(all, s.a, s.b) && Next(s, l, t) && Allowed(s, l)
    ensures Once(all, t.a, t.b)
    ensures Renames(all, s.a.snd, s.b.rcv, t.b.rcv)
  {
    match l
    case ActA(act) => SenderAct(all, s, act);
    case ActB(act) => ReceiverAct(all, Flip(s), act);
    case Again(qa, qb, nra, nda, nrb, ndb) =>
      LeavesOnDisk(all, s.a, s.b);
      AgainOnce(all, s.a, s.b, qa, qb, nra, nrb, ndb);
  }

  /** Two peers at the start of a session in ND mode: what their disks hold, and a queue in which a pending status
      leads. */
  ghost predicate Opens(all: set<Key>, s: Sys) {
    exists a: Peer, b: Peer, qa, qb, nra, nrb, ndb ::
      && OnDisk(all, a.snd, b.rcv) && Offers(a.snd.disk, b.rcv.masks, qa)
      && s == Sys(Fresh(a, qa, nra, true, ndb), Fresh(b, qb, nrb, ndb, true))
  }

  ghost predicate AllowedRun(ss: seq<Sys>, ls: seq<Label>)
    requires Run(ss, ls)
  {
    forall j :: 0 <= j < |ls| ==> Allowed(ss[j], ls[j])
  }

  lemma {:induction false} OnceAlways(all: set<Key>, ss: seq<Sys>, ls: seq<Label>, i: nat)
    requires Good(all) && Run(ss, ls) && AllowedRun(ss, ls) && Opens(all, ss[0]) && i < |ss|
    ensures Once(all, ss[i].a, ss[i].b)
  {
    if i == 0 {
      var a: Peer, b: Peer, qa, qb, nra, nrb, ndb :|
        && OnDisk(all, a.snd, b.rcv) && Offers(a.snd.disk, b.rcv.masks, qa)
        && ss[0] == Sys(Fresh(a, qa, nra, true, ndb), Fresh(b, qb, nrb, ndb, true));
      AgainOnce(all, a, b, qa, qb, nra, nrb, ndb);
    } else {
      OnceAlways(all, ss, ls, i - 1);
      NextOnce(all, ss[i - 1], ls[i - 1], ss[i]);
    }
  }

  /** A file is accounted for: offered again until it is delivered, or thrown away by the receiver's own mask. */
  ghost predicate Safe(s: Sys, k: Key) {
    || k in s.a.snd.disk.spool
    || PartOf(k) in s.b.rcv.hist.had
    || ThrownAway(s.b.rcv, k)
    || (s.a.snd.disk.stc == Some(k) && Whole(s.b.rcv, k))
  }

  /** Exactly once, over any number of sessions, each of them dropped at any point: every file is in the spool, whole at
      the receiver or delivered; what was delivered is no longer in the spool, and was delivered once; and a step
      that renames a file renames a whole one, which has left the spool before. */
  lemma DeliversOnce(all: set<Key>, ss: seq<Sys>, ls: seq<Label>, i: nat)
    requires Good(all) && Run(ss, ls) && AllowedRun(ss, ls) && Opens(all, ss[0]) && i < |ss|
    ensures forall k :: k in all ==> Safe(ss[i], k)
    ensures var log := ss[i].b.rcv.hist.log;
      && (forall m, n :: 0 <= m < n < |log| ==> log[m].p != log[n].p)
      && (forall x, k :: x in log && k in ss[i].a.snd.disk.spool ==> x.p != PartOf(k))
    ensures i + 1 < |ss| ==> Renames(all, ss[i].a.snd, ss[i].b.rcv, ss[i + 1].b.rcv)
  {
    OnceAlways(all, ss, ls, i);
    LeavesOnDisk(all, ss[i].a, ss[i].b);
    if i + 1 < |ss| {
      NextOnce(all, ss[i], ls[i], ss[i + 1]);
    }
  }

  /** With netnames, sizes and times that identify the contents: what is whole at the receiver is the sender's file. */
  lemma DeliversTheFile(all: set<Key>, c: D.Content, d: D.Content, ss: seq<Sys>, ls: seq<Label>, i: nat)
    requires Good(all) && Run(ss, ls) && AllowedRun(ss, ls) && Opens(all, ss[0]) && i < |ss|
    requires D.Sized(c) && D.Sized(d) && D.NamesOk(ss, ls) && D.Start(c, d, ss[0])
    ensures forall k :: k in all ==>
      || k in ss[i].a.snd.disk.spool || PartOf(k) in ss[i].b.rcv.hist.had || ThrownAway(ss[i].b.rcv, k)
      || R.Part(ss[i].b.rcv, k) == c[PartOf(k)]
    ensures forall x :: x in ss[i].b.rcv.hist.log ==> x.bytes == c[x.p]
  {
    DeliversOnce(all, ss, ls, i);
    D.ResumeCorrect(c, d, ss, ls, i);
    forall k | k in all && Whole(ss[i].b.rcv, k) ensures R.Part(ss[i].b.rcv, k) == c[PartOf(k)] {
    }
  }
}
