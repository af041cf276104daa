/** Who owes an answer. In one direction of a session every offered file is in exactly one place: announced and on its
    way, open at the receiver, or answered and on the way back; and GET_FILE_balance never falls below the number
    of M_GETs and replies in flight. */
module Tokens {
  import opened Options
  import opened Frames
  import S = Sender
  import R = Receiver
  import opened Session

  // ---- GET_FILE_balance ----

  /** By how much GET_FILE_balance exceeds the M_GETs and the replies in flight. A receiver with a positive excess
      never reaches the end of its batch. */
  function Excess(nr: bool, r: R.Rcv, ab: seq<Frame>, ba: seq<Frame>): int {
    r.g.balance - Gets(ba) - Replies(ab, nr)
  }

  ghost predicate OffsetsOk(nr: bool, r: R.Rcv, ab: seq<Frame>) {
    && (r.g.theyNR ==> nr)
    && forall f :: f in ab && f.MFile? ==> f.off >= -1 && (f.off == -1 ==> nr)
  }

  /** A status is offered only in NR mode. */
  ghost predicate StatusInNR(s: S.Snd) {
    s.q.Some? && s.q.value != [] && s.q.value[0].status ==> s.mode.weNR
  }

  lemma StartOffsets(s: S.Snd)
    requires S.CanStart(s) && StatusInNR(s)
    ensures var x := S.Start(s);
      && x.s.mode == s.mode && |x.tx| <= 1 && x.ok
      && (x.tx != [] ==> x.tx[0].MFile? && !x.tx[0].farewell && x.tx[0].off == (if s.mode.weNR then -1 else 0))
  {
  }

  lemma ReplyOffsets(s: S.Snd, k: Key, off: nat)
    ensures var x := S.Get(s, k, off);
      && x.s.mode == s.mode && |x.tx| <= 1
      && (x.ok ==> |x.tx| == 1 && x.tx[0].MFile? && x.tx[0].k == k && x.tx[0].off == off)
      && (!x.ok ==> x.tx == [] || x.tx == [MErr])
  {
    assert S.Reopen(s, k).mode == s.mode;
  }

  lemma AdmitBalance(r: R.Rcv, k: Key, off: int, w: bool, fails: bool)
    requires off >= -1
    ensures var x := R.Admit(r, k, off, w, fails);
      && x.ok && |x.tx| <= 1 && (x.tx != [] ==> IsAnswer(x.tx[0]))
      && x.r.g.theyNR == r.g.theyNR
      && (x.tx == [] ==>
            && x.r.inn == (if r.inn.Some? then r.inn else Some(R.In(k, w))) && |R.Part(x.r, x.r.inn.value.k)| == off
            && x.r.g.balance == r.g.balance - (if off > 0 || r.g.theyNR then 1 else 0))
      && (x.tx != [] ==>
            && x.tx[0].k == (if r.inn.Some? then r.inn.value.k else k) && x.r.inn.None?
            && x.r.g.balance == r.g.balance + Gets(x.tx))
  {
  }

  /** What M_FILE does to the balance: a reply that is accepted lowers it; a refused one leaves an excess behind. */
  lemma FileBalance(r: R.Rcv, k: Key, off: int, w: bool, fails: bool)
    requires off >= -1 && R.File(r, k, off, w, fails).ok
    ensures var x := R.File(r, k, off, w, fails);
      var inn := if r.inn.Some? && r.inn.value.k.name == k.name then r.inn else None;
      && |x.tx| <= 1 && (x.tx != [] ==> IsAnswer(x.tx[0]))
      && x.r.g.theyNR == (r.g.theyNR || off == -1)
      && (x.tx == [] ==>
            && x.r.inn == (if inn.Some? then inn else Some(R.In(k, w))) && |R.Part(x.r, x.r.inn.value.k)| == off
            && x.r.g.balance == r.g.balance - (if off > 0 || r.g.theyNR then 1 else 0))
      && (x.tx != [] ==>
            && x.tx[0].k == (if inn.Some? then inn.value.k else k) && x.r.inn.None?
            && x.r.g.balance == r.g.balance + Gets(x.tx))
  {
    var d := R.Rename(if r.inn.Some? && r.inn.value.k.name != k.name then R.ClosePartial(r) else r);
    assert d.ok && d.r.g == r.g && d.r.inn == (if r.inn.Some? && r.inn.value.k.name != k.name then None else r.inn);
    AdmitBalance(if off == -1 then d.r.(g := d.r.g.(theyNR := true)) else d.r, k, off, w, fails);
  }

  lemma FileFails(r: R.Rcv, k: Key, off: int, w: bool, fails: bool)
    requires off >= -1 && !R.File(r, k, off, w, fails).ok
    ensures var x := R.File(r, k, off, w, fails);
      x.tx == [MErr] && x.r.g == r.g
  {
    var d := R.Rename(if r.inn.Some? && r.inn.value.k.name != k.name then R.ClosePartial(r) else r);
    if d.ok {
      AdmitBalance(if off == -1 then d.r.(g := d.r.g.(theyNR := true)) else d.r, k, off, w, fails);
    }
  }

  lemma DataBalance(r: R.Rcv, bytes: seq<Byte>)
    ensures var x := R.Data(r, bytes);
      x.r.g == r.g && |x.tx| <= 1 && (x.tx != [] ==> x.tx[0].MGot?) && (r.inn.None? ==> x == R.Result(r, [], true))
  {
  }

  lemma EobBalance(r: R.Rcv)
    ensures var x := R.Eob(r);
      x.r.g == r.g && x.r.inn.None? && (x.tx == [] || (x.tx == [MErr] && !x.ok))
  {
  }

  // ---- held files ----

  function Sent(ts: seq<S.TFile>, k: Key): nat {
    if ts == [] then 0 else (if ts[0].k == k then 1 else 0) + Sent(ts[1..], k)
  }

  /** How often the sending half holds `k`: in transfer, or sent and unanswered. */
  function Held(s: S.Snd, k: Key): nat {
    (if S.OutIs(s, k) then 1 else 0) + Sent(s.sent, k)
  }

  lemma {:induction false} SentSplit(xs: seq<S.TFile>, ys: seq<S.TFile>, k: Key)
    ensures Sent(xs + ys, k) == Sent(xs, k) + Sent(ys, k)
  {
    if xs == [] {
      assert xs + ys == ys;
    } else {
      SentSplit(xs[1..], ys, k);
      assert (xs + ys)[1..] == xs[1..] + ys;
    }
  }

  lemma SentAt(ts: seq<S.TFile>, i: nat, t: S.TFile, k: Key)
    requires i < |ts|
    ensures Sent(ts[..i] + ([t] + ts[i + 1..]), k)
      == Sent(ts[..i], k) + (if t.k == k then 1 else 0) + Sent(ts[i + 1..], k)
  {
    SentSplit(ts[..i], [t] + ts[i + 1..], k);
    assert ([t] + ts[i + 1..])[1..] == ts[i + 1..];
  }

  lemma SentCut(ts: seq<S.TFile>, i: nat, k: Key)
    requires i < |ts|
    ensures Sent(ts[..i] + ts[i + 1..], k) == Sent(ts, k) - (if ts[i].k == k then 1 else 0)
  {
    assert ts == ts[..i] + ([ts[i]] + ts[i + 1..]);
    SentAt(ts, i, ts[i], k);
    SentSplit(ts[..i], ts[i + 1..], k);
  }

  lemma SentPut(ts: seq<S.TFile>, i: nat, t: S.TFile, k: Key)
    requires i < |ts|
    ensures Sent(ts[i := t], k) == Sent(ts, k) - (if ts[i].k == k then 1 else 0) + (if t.k == k then 1 else 0)
  {
    SentCut(ts, i, k);
    assert ts[i := t] == ts[..i] + ([t] + ts[i + 1..]);
    SentAt(ts, i, t, k);
    SentSplit(ts[..i], ts[i + 1..], k);
  }

  lemma {:induction false} SentFind(ts: seq<S.TFile>, k: Key)
    ensures S.Find(ts, k) < |ts| <==> Sent(ts, k) > 0
  {
    if ts != [] && ts[0].k != k {
      SentFind(ts[1..], k);
    }
  }

  lemma {:induction false} SentWithout(ts: seq<S.TFile>, k: Key, j: Key)
    ensures Sent(S.Without(ts, k), j) == if j == k then 0 else Sent(ts, j)
  {
    if ts != [] {
      SentWithout(ts[1..], k, j);
      if ts[0].k != k {
        assert S.Without(ts, k)[1..] == S.Without(ts[1..], k);
      }
    }
  }

  // ---- tokens ----

  function Open(r: R.Rcv, k: Key): nat {
    if r.inn == Some(R.In(k, false)) then 1 else 0
  }

  /** The places where an offered file can be. */
  function Places(r: R.Rcv, ab: seq<Frame>, ba: seq<Frame>, k: Key): nat {
    Files(ab, k) + Open(r, k) + Answers(ba, k)
  }

  /** After a farewell M_FILE no data is on its way until the next M_FILE. */
  function Bye(cur: bool, ab: seq<Frame>): bool
    decreases ab
  {
    if ab == [] then cur
    else Bye(if ab[0].MFile? then ab[0].farewell else cur && !ab[0].MEob?, ab[1..])
  }

  predicate Silent(nd: bool, cur: bool, ab: seq<Frame>)
    decreases ab
  {
    ab != [] ==>
      && (ab[0].Data? && cur ==> ab[0].bytes == [] && nd)
      && Silent(nd, if ab[0].MFile? then ab[0].farewell else cur && !ab[0].MEob?, ab[1..])
  }

  lemma {:induction false} SilentAppend(nd: bool, cur: bool, ab: seq<Frame>, f: Frame)
    ensures Bye(cur, ab + [f]) == if f.MFile? then f.farewell else Bye(cur, ab) && !f.MEob?
    ensures Silent(nd, cur, ab + [f]) <==> Silent(nd, cur, ab) && (f.Data? && Bye(cur, ab) ==> f.bytes == [] && nd)
    decreases ab
  {
    if ab == [] {
      assert ab + [f] == [f] && [f][1..] == [];
    } else {
      SilentAppend(nd, if ab[0].MFile? then ab[0].farewell else cur && !ab[0].MEob?, ab[1..], f);
      assert (ab + [f])[1..] == ab[1..] + [f];
    }
  }

  lemma {:induction false} SilentLess(nd: bool, ab: seq<Frame>)
    ensures Silent(nd, true, ab) ==> Silent(nd, false, ab)
    ensures Bye(false, ab) ==> Bye(true, ab)
  {
    if ab != [] && !ab[0].MFile? && !ab[0].MEob? {
      SilentLess(nd, ab[1..]);
    }
  }

  function Parting(r: R.Rcv): bool { r.inn.Some? && r.inn.value.farewell }

  /** A farewell M_FILE is for a file that nobody holds any more. */
  ghost predicate ByeOk(s: S.Snd, k: Key) {
    s.mode.weNR && S.Announced(s, k) && Held(s, k) == 0
  }

  ghost predicate FramesOk(s: S.Snd, ab: seq<Frame>) {
    forall f :: f in ab && f.MFile? ==>
      && f.off >= -1 && (f.off == -1 ==> s.mode.weNR) && S.Announced(s, f.k)
      && (f.farewell ==> ByeOk(s, f.k) && f.off >= 0 && (s.mode.weND ==> f.off != f.k.size))
  }

  ghost predicate InnOk(s: S.Snd, r: R.Rcv) {
    r.inn.Some? ==>
      && S.Announced(s, r.inn.value.k)
      && (r.inn.value.farewell ==>
            ByeOk(s, r.inn.value.k) && (s.mode.weND ==> |R.Part(r, r.inn.value.k)| != r.inn.value.k.size))
  }

  /** A file that is not open is a status, and something is awaited. */
  ghost predicate Guard(s: S.Snd) {
    s.out.Some? && s.out.value.f.None? ==>
      s.out.value.status && s.q.Some? && s.mode.weNR &&
      if s.mode.weND then s.sent == [] && (s.g.offReq || s.g.waiting) else s.g.offReq
  }

  /** In ND mode a sent file is alone. */
  ghost predicate Alone(s: S.Snd) {
    s.mode.weND && s.sent != [] ==> |s.sent| == 1 && s.out.None? && s.g.waiting
  }

  /** The frame asks for an offset, or answers such a question with another one or with a refusal. */
  predicate IsQuestion(f: Frame) { (f.MFile? && f.off == -1) || f.MGet? || f.MSkip? }

  /** In NR mode without ND, the question is about the file in transfer, and the sender waits for the answer. */
  ghost predicate Asking(s: S.Snd, f: Frame) {
    IsQuestion(f) && s.mode.weNR && !s.mode.weND ==> s.g.offReq && S.OutIs(s, f.k)
  }

  ghost predicate Asks(s: S.Snd, ab: seq<Frame>, ba: seq<Frame>) {
    && Alone(s)
    && (forall f :: f in ab && f.MFile? ==> Asking(s, f))
    && (forall f :: f in ba && IsAnswer(f) ==> Asking(s, f))
  }

  ghost predicate Counted(s: S.Snd, r: R.Rcv, ab: seq<Frame>, ba: seq<Frame>) {
    forall k :: Places(r, ab, ba, k) <= Held(s, k) <= 1 && (Held(s, k) == 1 ==> S.Announced(s, k))
  }

  /** The invariant of one direction. */
  ghost predicate Fair(s: S.Snd, r: R.Rcv, ab: seq<Frame>, ba: seq<Frame>) {
    && Counted(s, r, ab, ba) && Asks(s, ab, ba)
    && FramesOk(s, ab) && InnOk(s, r) && Guard(s)
    && (s.g.sendEof ==> s.mode.weND)
    && (r.g.theyNR ==> s.mode.weNR)
    && Silent(s.mode.weND, Parting(r), ab)
    && (Bye(Parting(r), ab) ==> !Sending(s))
  }

  /** The condition on a step: the file that starts has a netname not yet used in this session, and a status is offered
      only in NR mode. */
  ghost predicate Clean(s: S.Snd) {
    s.q.Some? && s.q.value != [] ==>
      var e := s.q.value[0];
      e.k.name !in s.hist.announced && (e.status ==> s.mode.weNR)
  }

  // ---- the sending half ----

  lemma StartHeld(s: S.Snd, k: Key)
    requires S.CanStart(s) && Guard(s)
    ensures var x := S.Start(s);
      && (x.tx == [] ==> Held(x.s, k) == Held(s, k) && x.s.hist == s.hist)
      && (x.tx != [] ==>
            && |x.tx| == 1 && x.tx[0].MFile?
            && Held(x.s, k) == Held(s, k) + (if x.tx[0].k == k then 1 else 0)
            && x.s.hist.announced == s.hist.announced[x.tx[0].k.name := x.tx[0].k])
  {
    assert s.out.None?;
  }

  /** Nobody has asked, or been asked, while the sender waits for no answer about an offset. */
  lemma NothingAsked(s: S.Snd, r: R.Rcv, ab: seq<Frame>, ba: seq<Frame>)
    requires Fair(s, r, ab, ba) && !s.g.offReq && s.mode.weNR && !s.mode.weND
    ensures forall f :: (f in ab && f.MFile?) || (f in ba && IsAnswer(f)) ==> !IsQuestion(f)
  {
    forall f | (f in ab && f.MFile?) || (f in ba && IsAnswer(f)) ensures !IsQuestion(f) {
      assert Asking(s, f);
    }
  }

  /** The file in transfer is answered: no other question is left. */
  lemma LastAsked(s: S.Snd, r: R.Rcv, ab: seq<Frame>, ba: seq<Frame>)
    requires Fair(s, r, ab, ba) && ba != [] && IsAnswer(ba[0]) && S.OutIs(s, ba[0].k) && s.mode.weNR && !s.mode.weND
    ensures forall f :: (f in ab && f.MFile?) || (f in ba[1..] && IsAnswer(f)) ==> !IsQuestion(f)
  {
    var k := ba[0].k;
    assert Places(r, ab, ba, k) <= Held(s, k) <= 1;
    forall f | (f in ab && f.MFile?) || (f in ba[1..] && IsAnswer(f)) ensures !IsQuestion(f) {
      if IsQuestion(f) {
        if f.MFile? {
          assert Asking(s, f);
          Occurs(ab, f, false);
        } else {
          var i :| 0 <= i < |ba[1..]| && ba[1..][i] == f;
          assert ba[i + 1] == f && Asking(s, f);
          Occurs(ba[1..], f, false);
        }
      }
    }
  }

  /** Nobody speaks of a file that was never announced. */
  lemma Unheard(s: S.Snd, r: R.Rcv, ab: seq<Frame>, ba: seq<Frame>, k: Key)
    requires Fair(s, r, ab, ba) && k.name !in s.hist.announced
    ensures Places(r, ab, ba, k) == 0 && Held(s, k) == 0
  {
    assert Places(r, ab, ba, k) <= Held(s, k) <= 1;
  }

  lemma StartAsks(s: S.Snd, r: R.Rcv, ab: seq<Frame>, ba: seq<Frame>)
    requires Fair(s, r, ab, ba) && S.CanStart(s)
    ensures Asks(S.Start(s).s, ab + S.Start(s).tx, ba)
  {
    var x := S.Start(s);
    if s.mode.weNR && !s.mode.weND { NothingAsked(s, r, ab, ba); }
    forall f | f in ab + x.tx && f.MFile? ensures Asking(x.s, f) {
      if f in x.tx { assert f == x.tx[0]; }
    }
  }

  /** Nothing was queued. */
  lemma StartNothing(s: S.Snd, r: R.Rcv, ab: seq<Frame>, ba: seq<Frame>)
    requires Fair(s, r, ab, ba) && S.CanStart(s) && S.Start(s).tx == []
    ensures Fair(S.Start(s).s, r, ab, ba)
  {
    var x := S.Start(s);
    StartOffsets(s);
    StartAsks(s, r, ab, ba);
    assert ab + [] == ab;
    assert forall k :: S.Announced(s, k) ==> S.Announced(x.s, k) by {
      StartHeld(s, Key("", 0, 0));
    }
    forall k ensures Held(x.s, k) == Held(s, k) { StartHeld(s, k); }
  }

  lemma StartCounted(s: S.Snd, r: R.Rcv, ab: seq<Frame>, ba: seq<Frame>, f: Frame)
    requires Fair(s, r, ab, ba) && S.CanStart(s) && Clean(s) && S.Start(s).tx == [f]
    ensures Counted(S.Start(s).s, r, ab + [f], ba)
  {
    var x := S.Start(s);
    StartHeld(s, f.k);
    Unheard(s, r, ab, ba, f.k);
    forall k ensures Places(r, ab + [f], ba, k) <= Held(x.s, k) <= 1 && (Held(x.s, k) == 1 ==> S.Announced(x.s, k)) {
      StartHeld(s, k);
      SplitKey(ab, [f], k);
      assert Places(r, ab, ba, k) <= Held(s, k) <= 1;
    }
  }

  /** What was announced before is another file, and stays announced. */
  lemma OfferedFrames(s: S.Snd, t: S.Snd, r: R.Rcv, ab: seq<Frame>, f: Frame)
    requires FramesOk(s, ab) && InnOk(s, r) && f.MFile? && !f.farewell && f.off >= -1 && (f.off == -1 ==> s.mode.weNR)
    requires f.k.name !in s.hist.announced && t.hist.announced == s.hist.announced[f.k.name := f.k]
    requires t.mode == s.mode && forall k :: Held(t, k) == Held(s, k) + (if k == f.k then 1 else 0)
    ensures FramesOk(t, ab + [f]) && InnOk(t, r)
  {
    assert forall k :: S.Announced(s, k) ==> S.Announced(t, k) && k != f.k;
    assert forall k :: ByeOk(s, k) ==> ByeOk(t, k);
    assert forall g :: g in ab + [f] ==> g in ab || g == f;
  }

  /** A file is offered. */
  lemma StartOffer(s: S.Snd, r: R.Rcv, ab: seq<Frame>, ba: seq<Frame>, f: Frame)
    requires Fair(s, r, ab, ba) && S.CanStart(s) && Clean(s) && S.Start(s).tx == [f]
    ensures Fair(S.Start(s).s, r, ab + [f], ba)
  {
    var x := S.Start(s);
    StartOffsets(s);
    forall k ensures Held(x.s, k) == Held(s, k) + (if k == f.k then 1 else 0) { StartHeld(s, k); }
    StartHeld(s, f.k);
    OfferedFrames(s, x.s, r, ab, f);
    SilentAppend(s.mode.weND, Parting(r), ab, f);
    StartCounted(s, r, ab, ba, f);
    StartAsks(s, r, ab, ba);
  }

  lemma StartFair(s: S.Snd, r: R.Rcv, ab: seq<Frame>, ba: seq<Frame>)
    requires Fair(s, r, ab, ba) && S.CanStart(s) && Clean(s)
    ensures Fair(S.Start(s).s, r, ab + S.Start(s).tx, ba)
  {
    var x := S.Start(s);
    StartHeld(s, Key("", 0, 0));
    if x.tx == [] {
      assert ab + x.tx == ab;
      StartNothing(s, r, ab, ba);
    } else {
      assert x.tx == [x.tx[0]];
      StartOffer(s, r, ab, ba, x.tx[0]);
    }
  }

  lemma BlockHeld(s: S.Snd, blk: nat, k: Key)
    requires S.CanBlock(s) && S.Block(s, blk).ok
    ensures var x := S.Block(s, blk);
      && Held(x.s, k) == Held(s, k) && x.s.hist == s.hist && x.s.mode == s.mode && x.s.q == s.q
      && |x.tx| == 1 && x.tx[0].Data? && (!Sending(s) ==> x.tx[0].bytes == [] && s.g.sendEof)
      && (x.s.out.Some? && x.s.out.value.f.None? ==> x.s.out == s.out && x.s.sent == s.sent && !Sending(s))
      && (x.s.g.sendEof ==> s.g.sendEof) && x.s.g.offReq == s.g.offReq && (s.g.waiting ==> x.s.g.waiting)
      && (Sending(x.s) ==> Sending(s))
  {
    if Sending(s) {
      var t := s.out.value.(f := None);
      SentSplit(s.sent, [t], k);
    }
  }

  lemma BlockAsks(s: S.Snd, r: R.Rcv, ab: seq<Frame>, ba: seq<Frame>, blk: nat)
    requires Fair(s, r, ab, ba) && S.CanBlock(s) && S.Block(s, blk).ok
    ensures Asks(S.Block(s, blk).s, ab, ba)
  {
    if s.mode.weNR && !s.mode.weND { NothingAsked(s, r, ab, ba); }
  }

  lemma BlockFair(s: S.Snd, r: R.Rcv, ab: seq<Frame>, ba: seq<Frame>, blk: nat)
    requires Fair(s, r, ab, ba) && S.CanBlock(s) && S.Block(s, blk).ok
    ensures Fair(S.Block(s, blk).s, r, ab + S.Block(s, blk).tx, ba)
  {
    var x := S.Block(s, blk);
    forall k ensures Held(x.s, k) == Held(s, k) { BlockHeld(s, blk, k); }
    BlockHeld(s, blk, Key("", 0, 0));
    BlockAsks(s, r, ab, ba, blk);
    Push(x.s, s, r, ab, ba, x.tx[0], ba);
    assert x.tx == [x.tx[0]];
  }

  /** The sending half moved from `s` to `t` and left `rest` of the frames that came in. */
  lemma Moved(t: S.Snd, s: S.Snd, r: R.Rcv, ab: seq<Frame>, ba: seq<Frame>, rest: seq<Frame>)
    requires Fair(s, r, ab, ba) && Guard(t) && t.hist.announced == s.hist.announced && t.mode == s.mode
    requires t.g.sendEof ==> t.mode.weND
    requires forall k :: Held(t, k) + Answers(ba, k) >= Held(s, k) + Answers(rest, k)
    requires forall k :: Held(t, k) <= Held(s, k)
    requires Sending(t) ==> Sending(s)
    requires Asks(t, ab, rest)
    ensures Fair(t, r, ab, rest)
  {
    forall k ensures Places(r, ab, rest, k) <= Held(t, k) <= 1 && (Held(t, k) == 1 ==> S.Announced(t, k)) {
      assert Places(r, ab, ba, k) <= Held(s, k) <= 1;
    }
  }

  /** As `Moved`, and `f` was queued. */
  lemma Push(t: S.Snd, s: S.Snd, r: R.Rcv, ab: seq<Frame>, ba: seq<Frame>, f: Frame, rest: seq<Frame>)
    requires Fair(s, r, ab, ba) && Guard(t) && t.hist.announced == s.hist.announced && t.mode == s.mode
    requires t.g.sendEof ==> t.mode.weND
    requires forall k :: Held(t, k) + Answers(ba, k) >= Held(s, k) + Answers(rest, k) + Files([f], k)
    requires forall k :: Held(t, k) <= Held(s, k)
    requires FramesOk(t, [f]) && Asks(t, ab, rest) && (f.MFile? ==> Asking(t, f))
    requires if f.MFile? then f.farewell ==> !Sending(t) else Sending(t) ==> Sending(s)
    requires f.Data? ==> Bye(Parting(r), ab) ==> f.bytes == [] && s.mode.weND
    ensures Fair(t, r, ab + [f], rest)
  {
    SilentAppend(s.mode.weND, Parting(r), ab, f);
    forall k ensures Places(r, ab + [f], rest, k) <= Held(t, k) <= 1 && (Held(t, k) == 1 ==> S.Announced(t, k)) {
      SplitKey(ab, [f], k);
      assert Places(r, ab, ba, k) <= Held(s, k) <= 1;
    }
    assert forall g :: g in ab + [f] ==> g in ab || g in [f];
  }

  /** Something answered is held. */
  lemma Answered(s: S.Snd, r: R.Rcv, ab: seq<Frame>, ba: seq<Frame>)
    requires Fair(s, r, ab, ba) && ba != [] && IsAnswer(ba[0])
    ensures Held(s, ba[0].k) == 1 && S.Announced(s, ba[0].k)
    ensures S.OutIs(s, ba[0].k) || S.Find(s.sent, ba[0].k) < |s.sent|
  {
    assert Places(r, ab, ba, ba[0].k) <= Held(s, ba[0].k) <= 1;
    SentFind(s.sent, ba[0].k);
  }

  lemma GotHeld(s: S.Snd, k: Key, j: Key)
    requires Held(s, k) == 1
    ensures var x := S.Got(s, k);
      && x.ok && x.tx == [] && Held(x.s, j) == (if j == k then 0 else Held(s, j))
      && x.s.hist.announced == s.hist.announced && x.s.mode == s.mode && x.s.g.sendEof == s.g.sendEof
      && (Guard(s) && Alone(s) ==> Guard(x.s)) && (Sending(x.s) ==> Sending(s))
  {
    SentFind(s.sent, k);
    var i := S.Find(s.sent, k);
    if i < |s.sent| {
      SentCut(s.sent, i, j);
      SentCut(s.sent, i, k);
    }
  }

  lemma GotAsks(s: S.Snd, r: R.Rcv, ab: seq<Frame>, ba: seq<Frame>)
    requires Fair(s, r, ab, ba) && ba != [] && ba[0].MGot?
    ensures Asks(S.Got(s, ba[0].k).s, ab, ba[1..])
  {
    var k := ba[0].k;
    Answered(s, r, ab, ba);
    if S.OutIs(s, k) {
      if s.mode.weNR && !s.mode.weND { LastAsked(s, r, ab, ba); }
    } else {
      var t := S.Got(s, k).s;
      assert t.g.offReq == s.g.offReq && t.out == s.out && t.mode == s.mode && (s.mode.weND ==> t.sent == []);
      assert forall f :: Asking(s, f) ==> Asking(t, f);
    }
  }

  lemma GotFair(s: S.Snd, r: R.Rcv, ab: seq<Frame>, ba: seq<Frame>)
    requires Fair(s, r, ab, ba) && ba != [] && ba[0].MGot?
    ensures Fair(S.Got(s, ba[0].k).s, r, ab, ba[1..])
  {
    Answered(s, r, ab, ba);
    forall j ensures Held(S.Got(s, ba[0].k).s, j) == (if j == ba[0].k then 0 else Held(s, j)) {
      GotHeld(s, ba[0].k, j);
    }
    GotHeld(s, ba[0].k, ba[0].k);
    GotAsks(s, r, ab, ba);
    Moved(S.Got(s, ba[0].k).s, s, r, ab, ba, ba[1..]);
  }

  lemma SkipHeld(s: S.Snd, k: Key, j: Key)
    requires Held(s, k) == 1 && Guard(s) && S.Skip(s, k).ok && (s.out.Some? && s.out.value.f.None? ==> S.OutIs(s, k))
    ensures var x := S.Skip(s, k);
      && x.tx == [] && Held(x.s, j) == (if j == k then 0 else Held(s, j))
      && x.s.hist.announced == s.hist.announced && x.s.mode == s.mode && x.s.g.sendEof == s.g.sendEof
      && Guard(x.s) && (Sending(x.s) ==> Sending(s))
  {
    SentFind(s.sent, k);
    SentWithout(s.sent, k, j);
    SentWithout(s.sent, k, k);
  }

  /** M_SKIP and M_GET: a status that waits is the file that they are about. */
  lemma AboutStatus(s: S.Snd, r: R.Rcv, ab: seq<Frame>, ba: seq<Frame>)
    requires Fair(s, r, ab, ba) && ba != [] && (ba[0].MGet? || ba[0].MSkip?) && s.out.Some? && s.out.value.f.None?
    ensures S.OutIs(s, ba[0].k)
  {
    Answered(s, r, ab, ba);
    assert Asking(s, ba[0]);
  }

  lemma SkipAsks(s: S.Snd, r: R.Rcv, ab: seq<Frame>, ba: seq<Frame>)
    requires Fair(s, r, ab, ba) && ba != [] && ba[0].MSkip? && S.Skip(s, ba[0].k).ok
    ensures Asks(S.Skip(s, ba[0].k).s, ab, ba[1..])
  {
    var k := ba[0].k;
    Answered(s, r, ab, ba);
    assert Asking(s, ba[0]);
    if s.mode.weNR && !s.mode.weND { LastAsked(s, r, ab, ba); }
    if s.mode.weND && s.sent != [] {
      assert s.sent[0].k == k;
      assert S.Without(s.sent, k) == [];
    }
  }

  lemma SkipFair(s: S.Snd, r: R.Rcv, ab: seq<Frame>, ba: seq<Frame>)
    requires Fair(s, r, ab, ba) && ba != [] && ba[0].MSkip? && S.Skip(s, ba[0].k).ok
    ensures Fair(S.Skip(s, ba[0].k).s, r, ab, ba[1..])
  {
    Answered(s, r, ab, ba);
    if s.out.Some? && s.out.value.f.None? { AboutStatus(s, r, ab, ba); }
    SkipAsks(s, r, ab, ba);
    forall j ensures Held(S.Skip(s, ba[0].k).s, j) == (if j == ba[0].k then 0 else Held(s, j)) {
      SkipHeld(s, ba[0].k, j);
    }
    SkipHeld(s, ba[0].k, ba[0].k);
    Moved(S.Skip(s, ba[0].k).s, s, r, ab, ba, ba[1..]);
  }

  lemma ReopenHeld(s: S.Snd, k: Key, j: Key)
    requires Held(s, k) == 1 && Guard(s) && (s.out.Some? && s.out.value.f.None? ==> S.OutIs(s, k))
    ensures var t := S.Reopen(s, k);
      && t.hist == s.hist && t.mode == s.mode && t.g == s.g && t.q == s.q
      && (t.out.Some? && t.out.value.f.None? ==> t == s)
      && (S.OutIs(t, k) ==> Held(t, j) == Held(s, j))
  {
    var i := S.Find(s.sent, k);
    SentFind(s.sent, k);
    if i < |s.sent| {
      SentCut(s.sent, i, j);
      if Sending(s) {
        SentPut(s.sent, i, s.out.value.(f := None), j);
      }
    }
  }

  lemma ReplyHeld(s: S.Snd, k: Key, off: nat, j: Key)
    requires Guard(s) && S.Reply(s, k, off).ok
    ensures S.OutIs(s, k)
    ensures var x := S.Reply(s, k, off);
      && x.s.hist == s.hist && x.s.mode == s.mode && |x.tx| == 1 && x.tx[0].MFile? && x.tx[0].k == k
      && x.tx[0].off == off
      && (if x.tx[0].farewell then
            s.mode.weNR && (s.mode.weND ==> off != k.size) && x.s.out.None?
            && Held(x.s, j) == Held(s, j) - (if j == k then 1 else 0)
          else Held(x.s, j) == Held(s, j))
      && Guard(x.s) && (x.s.g.sendEof ==> s.g.sendEof || s.mode.weND)
  {
  }

  lemma GetAsks(s: S.Snd, r: R.Rcv, ab: seq<Frame>, ba: seq<Frame>)
    requires Fair(s, r, ab, ba) && ba != [] && ba[0].MGet? && S.Get(s, ba[0].k, ba[0].at).ok
    ensures Asks(S.Get(s, ba[0].k, ba[0].at).s, ab, ba[1..])
  {
    var k, off := ba[0].k, ba[0].at;
    Answered(s, r, ab, ba);
    assert Asking(s, ba[0]);
    if s.mode.weNR && !s.mode.weND { LastAsked(s, r, ab, ba); }
    var t := S.Reopen(s, k);
    assert s.mode.weND ==> t.sent == [] by {
      if s.mode.weND && s.sent != [] {
        assert s.sent[0].k == k && S.Find(s.sent, k) == 0;
      }
    }
    assert S.Get(s, k, off).s.sent == t.sent && S.Get(s, k, off).s.mode == s.mode;
  }

  /** What M_GET makes of the sending half, and its answer. */
  lemma GetIs(s: S.Snd, r: R.Rcv, ab: seq<Frame>, ba: seq<Frame>) returns (f: Frame)
    requires Fair(s, r, ab, ba) && ba != [] && ba[0].MGet? && S.Get(s, ba[0].k, ba[0].at).ok
    ensures var x := S.Get(s, ba[0].k, ba[0].at);
      && x.tx == [f] && f.MFile? && f.k == ba[0].k && f.off == ba[0].at
      && Guard(x.s) && x.s.hist == s.hist && x.s.mode == s.mode && (x.s.g.sendEof ==> s.mode.weND)
      && (f.farewell ==> s.mode.weNR && (s.mode.weND ==> f.off != f.k.size) && x.s.out.None?)
      && (forall j :: Held(x.s, j) == Held(s, j) - (if f.farewell && j == f.k then 1 else 0))
      && S.Announced(s, f.k) && Held(s, f.k) == 1
  {
    var k, off := ba[0].k, ba[0].at;
    Answered(s, r, ab, ba);
    if s.out.Some? && s.out.value.f.None? { AboutStatus(s, r, ab, ba); }
    var t := S.Reopen(s, k);
    var x := S.Reply(t, k, off);
    ReopenHeld(s, k, k);
    ReplyHeld(t, k, off, k);
    f := x.tx[0];
    forall j ensures Held(x.s, j) == Held(s, j) - (if f.farewell && j == k then 1 else 0) {
      ReopenHeld(s, k, j);
      ReplyHeld(t, k, off, j);
    }
  }

  lemma GetFair(s: S.Snd, r: R.Rcv, ab: seq<Frame>, ba: seq<Frame>)
    requires Fair(s, r, ab, ba) && ba != [] && ba[0].MGet? && S.Get(s, ba[0].k, ba[0].at).ok
    ensures Fair(S.Get(s, ba[0].k, ba[0].at).s, r, ab + S.Get(s, ba[0].k, ba[0].at).tx, ba[1..])
  {
    var f := GetIs(s, r, ab, ba);
    GetAsks(s, r, ab, ba);
    Replied(s, S.Get(s, ba[0].k, ba[0].at).s, r, ab, ba, f);
  }

  lemma Replied(s: S.Snd, t: S.Snd, r: R.Rcv, ab: seq<Frame>, ba: seq<Frame>, f: Frame)
    requires Fair(s, r, ab, ba) && ba != [] && ba[0].MGet? && f.MFile? && f.k == ba[0].k && f.off == ba[0].at
    requires Guard(t) && t.hist == s.hist && t.mode == s.mode && (t.g.sendEof ==> s.mode.weND)
    requires f.farewell ==> s.mode.weNR && (s.mode.weND ==> f.off != f.k.size) && t.out.None?
    requires forall j :: Held(t, j) == Held(s, j) - (if f.farewell && j == f.k then 1 else 0)
    requires S.Announced(s, f.k) && Held(s, f.k) == 1 && Asks(t, ab, ba[1..])
    ensures Fair(t, r, ab + [f], ba[1..])
  {
    assert f.farewell ==> ByeOk(t, f.k);
    assert FramesOk(t, [f]);
    Push(t, s, r, ab, ba, f, ba[1..]);
  }

  // ---- the receiving half ----

  /** The receiving half consumed the first frame, moved to `t` and queued `tx`. */
  lemma Pull(s: S.Snd, r: R.Rcv, t: R.Rcv, ab: seq<Frame>, ba: seq<Frame>, tx: seq<Frame>)
    requires Fair(s, r, ab, ba) && ab != []
    requires t.g.theyNR ==> s.mode.weNR
    requires InnOk(s, t)
    requires forall k :: Files(ab[..1], k) + Open(r, k) >= Open(t, k) + Answers(tx, k)
    requires forall f :: f in tx && IsAnswer(f) ==> Asking(s, f)
    requires Parting(t) ==> if ab[0].MFile? then ab[0].farewell else Parting(r) && !ab[0].MEob?
    ensures Fair(s, t, ab[1..], ba + tx)
  {
    assert ab == ab[..1] + ab[1..];
    forall k ensures Places(t, ab[1..], ba + tx, k) <= Held(s, k) <= 1 && (Held(s, k) == 1 ==> S.Announced(s, k)) {
      assert Places(r, ab, ba, k) <= Held(s, k) <= 1;
      SplitKey(ab[..1], ab[1..], k);
      SplitKey(ba, tx, k);
    }
    SilentLess(s.mode.weND, ab[1..]);
  }

  lemma FileFair(s: S.Snd, r: R.Rcv, ab: seq<Frame>, ba: seq<Frame>, fails: bool)
    requires Fair(s, r, ab, ba) && ab != [] && ab[0].MFile?
    requires R.File(r, ab[0].k, ab[0].off, ab[0].farewell, fails).ok
    ensures var x := R.File(r, ab[0].k, ab[0].off, ab[0].farewell, fails);
      Fair(s, x.r, ab[1..], ba + x.tx) || (IsReply(ab[0], s.mode.weNR) && x.tx != [])
  {
    var f := ab[0];
    assert f in ab;
    var x := R.File(r, f.k, f.off, f.farewell, fails);
    FileBalance(r, f.k, f.off, f.farewell, fails);
    if !(IsReply(f, s.mode.weNR) && x.tx != []) {
      assert Asking(s, f);
      assert Places(r, ab, ba, f.k) <= Held(s, f.k) <= 1;
      assert r.inn.Some? && r.inn.value.k.name == f.k.name ==> r.inn.value.k == f.k;
      assert ab[..1] == [f];
      if r.inn.Some? && r.inn.value.k == f.k {
        assert r.inn == Some(R.In(f.k, f.farewell));
      }
      assert InnOk(s, x.r);
      assert x.tx != [] ==> x.tx == [x.tx[0]];
      Pull(s, r, x.r, ab, ba, x.tx);
    }
  }

  lemma DataFair(s: S.Snd, r: R.Rcv, ab: seq<Frame>, ba: seq<Frame>)
    requires Fair(s, r, ab, ba) && ab != [] && ab[0].Data? && R.Data(r, ab[0].bytes).ok
    ensures var x := R.Data(r, ab[0].bytes);
      && Fair(s, x.r, ab[1..], ba + x.tx)
      && (x.tx != [] ==> r.inn.Some? && !r.inn.value.farewell)
  {
    var x := R.Data(r, ab[0].bytes);
    assert ab[..1] == [ab[0]];
    if Parting(r) {
      var k := r.inn.value.k;
      assert ab[0].bytes == [] && s.mode.weND;
      assert R.Part(r, k) + [] == R.Part(r, k);
      assert x.tx == [] && x.r.inn == r.inn && R.Part(x.r, k) == R.Part(r, k);
    }
    assert x.tx != [] ==> x.tx == [MGot(r.inn.value.k)];
    Pull(s, r, x.r, ab, ba, x.tx);
  }

  lemma EobFair(s: S.Snd, r: R.Rcv, ab: seq<Frame>, ba: seq<Frame>)
    requires Fair(s, r, ab, ba) && ab != [] && ab[0].MEob? && R.Eob(r).ok
    ensures Fair(s, R.Eob(r).r, ab[1..], ba + R.Eob(r).tx)
  {
    EobBalance(r);
    assert ab[..1] == [ab[0]];
    Pull(s, r, R.Eob(r).r, ab, ba, R.Eob(r).tx);
  }

  // ---- frames of the other direction ----

  lemma OtherOut(s: S.Snd, r: R.Rcv, ab: seq<Frame>, ba: seq<Frame>, f: Frame)
    requires Fair(s, r, ab, ba) && (IsAnswer(f) || f.MEob? || f.MErr?)
    ensures Fair(s, r, ab + [f], ba)
  {
    Push(s, s, r, ab, ba, f, ba);
  }

  lemma OtherBack(s: S.Snd, r: R.Rcv, ab: seq<Frame>, ba: seq<Frame>, f: Frame)
    requires Fair(s, r, ab, ba) && !IsAnswer(f)
    ensures Fair(s, r, ab, ba + [f])
  {
    forall k ensures Answers(ba + [f], k) == Answers(ba, k) { SplitKey(ba, [f], k); }
    Moved(s, s, r, ab, ba, ba + [f]);
  }

  lemma OtherIn(s: S.Snd, r: R.Rcv, ab: seq<Frame>, ba: seq<Frame>)
    requires Fair(s, r, ab, ba) && ab != [] && (IsAnswer(ab[0]) || ab[0].MErr?)
    ensures Fair(s, r, ab[1..], ba)
  {
    assert ab[..1] == [ab[0]] && ba + [] == ba;
    Pull(s, r, r, ab, ba, []);
  }

  lemma OtherTaken(s: S.Snd, r: R.Rcv, ab: seq<Frame>, ba: seq<Frame>)
    requires Fair(s, r, ab, ba) && ba != []
    ensures Fair(s, r, ab, ba[1..])
  {
    Moved(s, s, r, ab, ba, ba[1..]);
  }
}
