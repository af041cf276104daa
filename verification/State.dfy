/** The session state as the program keeps it, and its handlers: fields that are updated in place and a list of sent
    files with tombstones. Every handler is proved to compute the function that specifies it. */
module State {
  import opened Options
  import opened Frames
  import S = Sender
  import R = Receiver
  import opened Session
  import Loop

  /** The files of a list with tombstones. */
  function Live(slots: seq<Option<S.TFile>>): seq<S.TFile> {
    if slots == [] then []
    else if slots[0].Some? then [slots[0].value] + Live(slots[1..])
    else Live(slots[1..])
  }

  lemma {:induction false} LiveSplit(xs: seq<Option<S.TFile>>, ys: seq<Option<S.TFile>>)
    ensures Live(xs + ys) == Live(xs) + Live(ys)
  {
    if xs == [] {
      assert xs + ys == ys;
    } else {
      LiveSplit(xs[1..], ys);
      assert (xs + ys)[1..] == xs[1..] + ys;
    }
  }

  /** Around slot `n`. */
  lemma {:induction false} LiveAt(slots: seq<Option<S.TFile>>, n: nat)
    requires n < |slots|
    ensures Live(slots) == Live(slots[..n]) + ((if slots[n].Some? then [slots[n].value] else []) + Live(slots[n + 1..]))
  {
    if n == 0 {
      assert slots[..0] == [];
    } else {
      LiveAt(slots[1..], n - 1);
      assert slots[..n][1..] == slots[1..][..n - 1];
      assert slots[1..][n..] == slots[n + 1..];
    }
  }

  lemma PutAt<T>(all: seq<T>, j: nat, x: T, xs: seq<T>, ys: seq<T>)
    requires j < |all| && all[..j] == xs && all[j + 1..] == ys
    ensures all[j := x] == xs + [x] + ys
  {
  }

  lemma LivePut(slots: seq<Option<S.TFile>>, n: nat, x: Option<S.TFile>)
    requires n < |slots|
    ensures Live(slots[n := x]) == Live(slots[..n]) + ((if x.Some? then [x.value] else []) + Live(slots[n + 1..]))
  {
    LiveAt(slots[n := x], n);
    assert slots[n := x][..n] == slots[..n] && slots[n := x][n + 1..] == slots[n + 1..];
  }

  lemma {:induction false} LiveEmpty(slots: seq<Option<S.TFile>>)
    ensures Live(slots) == [] <==> forall i :: 0 <= i < |slots| ==> slots[i].None?
  {
    if slots != [] {
      LiveEmpty(slots[1..]);
      assert forall i :: 1 <= i < |slots| ==> slots[i] == slots[1..][i - 1];
    }
  }

  predicate Is(slot: Option<S.TFile>, k: Key) { slot.Some? && slot.value.k == k }

  lemma {:induction false} FindIn(xs: seq<S.TFile>, ys: seq<S.TFile>, k: Key)
    requires forall x :: x in xs ==> x.k != k
    ensures S.Find(xs + ys, k) == |xs| + S.Find(ys, k)
  {
    if xs == [] {
      assert xs + ys == ys;
    } else {
      FindIn(xs[1..], ys, k);
      assert (xs + ys)[1..] == xs[1..] + ys;
    }
  }

  lemma {:induction false} LiveOnly(slots: seq<Option<S.TFile>>)
    ensures forall x :: x in Live(slots) <==> Some(x) in slots
  {
    if slots != [] {
      LiveOnly(slots[1..]);
    }
  }

  /** The slots with tombstones for `k` among the first `n`. */
  function Erased(slots: seq<Option<S.TFile>>, k: Key, n: nat): (r: seq<Option<S.TFile>>)
    requires n <= |slots|
    ensures |r| == |slots| && r[n..] == slots[n..]
    ensures forall i :: 0 <= i < n ==> r[i] == if Is(slots[i], k) then None else slots[i]
  {
    if n == 0 then slots
    else
      var r := Erased(slots, k, n - 1);
      if Is(slots[n - 1], k) then r[n - 1 := None] else r
  }

  lemma {:induction false} ErasedLive(slots: seq<Option<S.TFile>>, k: Key)
    ensures Live(Erased(slots, k, |slots|)) == S.Without(Live(slots), k)
  {
    if slots != [] {
      var r := Erased(slots, k, |slots|);
      assert r[1..] == Erased(slots[1..], k, |slots| - 1);
      ErasedLive(slots[1..], k);
    }
  }

  lemma FindLive(slots: seq<Option<S.TFile>>, k: Key)
    ensures S.Find(Live(slots), k) < |Live(slots)| <==> exists i :: 0 <= i < |slots| && Is(slots[i], k)
  {
    LiveOnly(slots);
    var i := S.Find(Live(slots), k);
    if i < |Live(slots)| {
      assert Some(Live(slots)[i]) in slots;
    }
    if j :| 0 <= j < |slots| && Is(slots[j], k) {
      assert slots[j].value in Live(slots);
    }
  }

  // ---- what the handlers do to a peer ----

  ghost predicate NoData(tx: seq<Frame>) { forall f :: f in tx ==> !f.Data? }

  lemma {:induction false} AllMsgs(tx: seq<Frame>)
    requires NoData(tx)
    ensures Msgs(tx) == |tx|
  {
    if tx != [] {
      assert tx[0] in tx && forall f :: f in tx[1..] ==> f in tx;
      AllMsgs(tx[1..]);
    }
  }

  lemma OneMsg(tx: seq<Frame>)
    requires |tx| <= 1 && (tx != [] ==> !tx[0].Data?)
    ensures NoData(tx)
  {
  }

  /** The receiving half of `p` took a message with the result `x`. */
  ghost predicate Received(p: Peer, q: Peer, x: R.Result) {
    && q.snd == p.snd && q.rcv == x.r && q.tx == p.tx + x.tx
    && q.bat == p.bat.(msgs := p.bat.msgs + Msgs(x.tx), live := x.ok)
  }

  ghost predicate Answered(p: Peer, q: Peer, x: S.Result) {
    && q.snd == x.s && q.rcv == p.rcv && q.tx == p.tx + x.tx
    && q.bat == p.bat.(msgs := p.bat.msgs + Msgs(x.tx), live := x.ok)
  }

  lemma DoneShapes(p: Peer, q: Peer)
    ensures forall x: R.Result {:trigger Received(p, q, x)} :: Received(p, q, x) ==> q == RcvDone(p, x)
    ensures forall x: S.Result {:trigger Answered(p, q, x)} :: Answered(p, q, x) ==> q == SndDone(p, x)
  {
  }

  /** What the dispatch of a frame does. */
  function Dispatched(p: Peer, f: Frame, openFails: bool): Peer {
    match f
    case MFile(k, off, w) => RcvDone(p, R.File(p.rcv, k, off, w, openFails))
    case MGet(k, off) => SndDone(p, S.Get(p.snd, k, off))
    case MGot(k) => SndDone(p, S.Got(p.snd, k))
    case MSkip(k) => SndDone(p, S.Skip(p.snd, k))
    case MEob => RcvDone(p.(bat := p.bat.(remoteEOB := true)), R.Eob(p.rcv))
    case MErr => p.(bat := p.bat.(live := false))
    case Data(bytes) => RcvDone(p, R.Data(p.rcv, bytes))
  }

  lemma HandleIs(p: Peer, f: Frame, openFails: bool)
    ensures Handle(p, f, openFails)
      == Dispatched(if f.Data? then p else p.(bat := p.bat.(msgs := p.bat.msgs + 1)), f, openFails)
  {
  }

  lemma FileSendsNoData(r: R.Rcv, k: Key, off: int, w: bool, fails: bool)
    ensures NoData(R.File(r, k, off, w, fails).tx)
  {
    var r0 := if r.inn.Some? && r.inn.value.k.name != k.name then R.ClosePartial(r) else r;
    RenameSendsNoData(r0);
    var d := R.Rename(r0);
    var r1 := if off == -1 then d.r.(g := d.r.g.(theyNR := true)) else d.r;
    AdmitSendsNoData(r1, k, off, w, fails);
  }

  lemma RenameSendsNoData(r: R.Rcv)
    ensures NoData(R.Rename(r).tx)
  {
    OneMsg(R.Rename(r).tx);
  }

  lemma AdmitSendsNoData(r: R.Rcv, k: Key, off: int, w: bool, fails: bool)
    ensures NoData(R.Admit(r, k, off, w, fails).tx)
  {
    OneMsg(R.Admit(r, k, off, w, fails).tx);
  }

  lemma DataSendsNoData(r: R.Rcv, bytes: seq<Byte>)
    ensures NoData(R.Data(r, bytes).tx)
  {
    OneMsg(R.Data(r, bytes).tx);
  }

  lemma EobSendsNoData(r: R.Rcv)
    ensures NoData(R.Eob(r).tx)
  {
    OneMsg(R.Eob(r).tx);
  }

  lemma ReplySendsNoData(s: S.Snd, k: Key, off: nat)
    ensures NoData(S.Reply(s, k, off).tx)
  {
    OneMsg(S.Reply(s, k, off).tx);
  }

  lemma SkipSendsNoData(s: S.Snd, k: Key)
    ensures Msgs(S.Skip(s, k).tx) == |S.Skip(s, k).tx|
  {
    OneMsg(S.Skip(s, k).tx);
    AllMsgs(S.Skip(s, k).tx);
  }

  lemma StartSendsNoData(s: S.Snd)
    requires S.CanStart(s)
    ensures Msgs(S.Start(s).tx) == |S.Start(s).tx| && S.Start(s).ok
  {
    OneMsg(S.Start(s).tx);
    AllMsgs(S.Start(s).tx);
  }

  lemma BlockIsData(s: S.Snd, blk: nat)
    requires S.CanBlock(s)
    ensures Msgs(S.Block(s, blk).tx) == 0
  {
    var tx := S.Block(s, blk).tx;
    assert |tx| <= 1 && (tx != [] ==> tx[0].Data? && tx == [tx[0]] && [tx[0]][1..] == []);
  }

  /** What M_GOT does to the sender; `status` when the link status is written. */
  ghost function Settled(s: S.Snd, k: Key, status: bool): S.Snd {
    var i := S.Find(s.sent, k);
    if S.OutIs(s, k) then
      var stc := if !status then s.disk.stc else if s.g.offReq then None else Some(k);
      S.Settle(s, k, stc, s.out.value.status)
        .(g := S.Flags(false, false, s.g.sendEof, true, s.g.rSkipped), out := None)
    else if i < |s.sent| then
      var stc := if !status then s.disk.stc else if s.g.offReq || !s.mode.weND then None else Some(k);
      S.Settle(s, k, stc, false).(sent := s.sent[..i] + s.sent[i + 1..])
    else
      s
  }

  lemma GotIs(s: S.Snd, k: Key)
    ensures var status := !(s.mode.weNR && !s.mode.weND);
      S.Got(s, k) == S.Result(Settled(if status then s else S.ClearStatus(s), k, status), [], true)
  {
  }

  class State {
    // the sending half
    var q: Option<seq<S.Entry>>
    var out: Option<S.TFile>
    var sentFls: seq<Option<S.TFile>>
    var offReqSent: bool
    var waitingForGot: bool
    var sendEof: bool
    var ndAddr: bool
    var rSkippedFlag: bool
    var mode: S.Mode
    var sendDisk: S.Disk
    ghost var sendHist: S.Hist
    // the receiving half
    var inn: Option<R.In>
    var inComplete: Option<Key>
    var getFileBalance: int
    var theyNR: bool
    var theyND: bool
    var skipAllFlag: bool
    var masks: map<Key, bool>
    var recvDisk: R.Disk
    ghost var recvHist: R.Hist
    // the batch
    var localEOB: bool
    var remoteEOB: bool
    var msgsInBatch: nat
    var live: bool
    ghost var ends: seq<nat>
    var tx: seq<Frame>

    /** A list of tombstones only is freed. */
    ghost predicate Valid() reads this { sentFls != [] ==> Live(sentFls) != [] }

    ghost function Snd(): S.Snd reads this {
      S.Snd(q, out, Live(sentFls), S.Flags(offReqSent, waitingForGot, sendEof, ndAddr, rSkippedFlag),
        mode, sendDisk, sendHist)
    }

    ghost function Rcv(): R.Rcv reads this {
      R.Rcv(inn, inComplete, R.Flags(getFileBalance, theyNR, theyND, skipAllFlag), masks, recvDisk, recvHist)
    }

    ghost function Bat(): Batch reads this { Batch(live, localEOB, remoteEOB, msgsInBatch, ends) }

    ghost function View(): Peer reads this { Peer(Snd(), Rcv(), Bat(), tx) }

    /** msg_send2 */
    method MsgSend(f: Frame)
      requires !f.Data?
      modifies this`tx, this`msgsInBatch
      ensures tx == old(tx) + [f] && msgsInBatch == old(msgsInBatch) + 1
    {
      tx := tx + [f];
      msgsInBatch := msgsInBatch + 1;
    }

    /** ND_set_status at ND_addr: nothing happens while the address is unknown. */
    method ClearStatus()
      modifies this`sendDisk
      ensures Snd() == S.ClearStatus(old(Snd()))
    {
      if ndAddr {
        sendDisk := sendDisk.(stc := None);
      }
    }

    /** Put a tombstone at `n`, and free the list if nothing else is left. */
    method RemoveFromSentFilesQueue(n: nat)
      requires n < |sentFls|
      modifies this`sentFls
      ensures Valid()
      ensures Live(sentFls) == Live(old(sentFls)[..n]) + Live(old(sentFls)[n + 1..])
      ensures sentFls == old(sentFls)[n := None]
        || (sentFls == [] && forall i :: 0 <= i < |old(sentFls)| && i != n ==> old(sentFls)[i].None?)
    {
      LivePut(sentFls, n, None);
      sentFls := sentFls[n := None];
      var i := 0;
      while i < |sentFls|
        invariant i <= |sentFls|
        invariant sentFls == old(sentFls)[n := None]
        invariant forall j :: 0 <= j < i ==> sentFls[j].None?
      {
        LiveEmpty(sentFls);
        if sentFls[i].Some? {
          return;
        }
        i := i + 1;
      }
      LiveEmpty(sentFls);
      assert forall j :: 0 <= j < |sentFls| && j != n ==> old(sentFls)[j] == sentFls[j];
      sentFls := [];
    }

    /** The first slot that holds `k`. */
    method FindSent(k: Key) returns (n: nat)
      ensures n <= |sentFls|
      ensures n < |sentFls| ==> Is(sentFls[n], k)
      ensures forall j :: 0 <= j < n ==> !Is(sentFls[j], k)
    {
      n := 0;
      while n < |sentFls| && !Is(sentFls[n], k)
        invariant n <= |sentFls|
        invariant forall j :: 0 <= j < n ==> !Is(sentFls[j], k)
      {
        n := n + 1;
      }
    }

    /** What the search finds is what Find finds among the live files. */
    lemma Found(k: Key, n: nat)
      requires n <= |sentFls| && (n < |sentFls| ==> Is(sentFls[n], k)) && forall j :: 0 <= j < n ==> !Is(sentFls[j], k)
      ensures var i := S.Find(Live(sentFls), k);
        if n == |sentFls| then i == |Live(sentFls)|
        else i == |Live(sentFls[..n])| < |Live(sentFls)| && Live(sentFls)[i] == sentFls[n].value
             && Live(sentFls)[..i] == Live(sentFls[..n]) && Live(sentFls)[i + 1..] == Live(sentFls[n + 1..])
    {
      LiveOnly(sentFls[..n]);
      if n == |sentFls| {
        assert sentFls[..n] == sentFls;
        FindIn(Live(sentFls), [], k);
        assert Live(sentFls) + [] == Live(sentFls);
      } else {
        LiveAt(sentFls, n);
        FindIn(Live(sentFls[..n]), [sentFls[n].value] + Live(sentFls[n + 1..]), k);
        assert Live(sentFls) == Live(sentFls[..n]) + ([sentFls[n].value] + Live(sentFls[n + 1..]));
      }
    }

    /** The remote has the file in transfer. */
    method GotOut(k: Key, status: bool)
      requires out.Some? && out.value.k == k
      modifies this`ndAddr, this`sendDisk, this`waitingForGot, this`offReqSent, this`sendHist, this`out
      ensures Snd() == (S.Settle(old(Snd()), k,
        if !status then old(sendDisk.stc) else if old(offReqSent) then None else Some(k),
        old(out).value.status)
        .(g := S.Flags(false, false, sendEof, true, rSkippedFlag), out := None))
    {
      ndAddr := true;
      if status {
        sendDisk := sendDisk.(stc := if offReqSent then None else Some(k));
      }
      waitingForGot, offReqSent := false, false;
      if !out.value.status {
        sendDisk := sendDisk.(spool := sendDisk.spool - {k});
      }
      if !out.value.status {
        sendHist := sendHist.(answered := S.Plus(sendHist.answered, k, 1));
      }
      out := None;
    }

    /** The remote has a file that was sent. */
    method GotSent(k: Key, status: bool, n: nat)
      requires n < |sentFls| && Is(sentFls[n], k)
      modifies this`ndAddr, this`sendDisk, this`waitingForGot, this`sendHist, this`sentFls
      ensures Valid()
      ensures Snd() == (S.Settle(old(Snd()), k,
        if !status then old(sendDisk.stc) else if offReqSent || !mode.weND then None else Some(k), false)
        .(sent := Live(old(sentFls)[..n]) + Live(old(sentFls)[n + 1..])))
    {
      ndAddr := true;
      if status {
        sendDisk := sendDisk.(stc := if offReqSent || !mode.weND then None else Some(k));
      }
      waitingForGot := false;
      sendDisk := sendDisk.(spool := sendDisk.spool - {k});
      sendHist := sendHist.(answered := S.Plus(sendHist.answered, k, 1));
      RemoveFromSentFilesQueue(n);
    }

    /** M_GOT, after the status was cleared in NR mode. */
    method GotFile(k: Key, status: bool)
      requires Valid()
      modifies this`ndAddr, this`sendDisk, this`waitingForGot, this`offReqSent, this`sendHist, this`out, this`sentFls
      ensures Valid() && Snd() == Settled(old(Snd()), k, status)
    {
      if out.Some? && out.value.k == k {
        GotOut(k, status);
      } else {
        var n := FindSent(k);
        Found(k, n);
        if n < |sentFls| {
          GotSent(k, status, n);
        }
      }
    }

    /** M_GOT */
    method GOT(k: Key)
      requires Valid()
      modifies this`ndAddr, this`sendDisk, this`waitingForGot, this`offReqSent, this`sendHist, this`out, this`sentFls
      ensures Valid() && Snd() == S.Got(old(Snd()), k).s
    {
      GotIs(Snd(), k);
      var status := true;
      if mode.weNR && !mode.weND {
        ClearStatus();
        status := false;
      }
      GotFile(k, status);
    }

    /** M_SKIP: every sent file of that key is removed. */
    method SkipSent(k: Key)
      requires Valid()
      modifies this`rSkippedFlag, this`ndAddr, this`sentFls
      ensures Valid() && Live(sentFls) == S.Without(Live(old(sentFls)), k)
      ensures var hit := S.Find(Live(old(sentFls)), k) < |Live(old(sentFls))|;
        rSkippedFlag == (old(rSkippedFlag) || hit) && ndAddr == (old(ndAddr) || hit)
    {
      ghost var slots := sentFls;
      ghost var hit := false;
      var n := 0;
      while n < |sentFls|
        invariant n <= |slots| && Valid()
        invariant sentFls == Erased(slots, k, n)
          || (sentFls == [] && forall i :: 0 <= i < |slots| ==> slots[i].None? || (i < n && Is(slots[i], k)))
        invariant hit <==> exists i :: 0 <= i < n && Is(slots[i], k)
        invariant rSkippedFlag == (old(rSkippedFlag) || hit) && ndAddr == (old(ndAddr) || hit)
        decreases |slots| - n
      {
        assert sentFls[n] == slots[n] by { assert sentFls[n..][0] == slots[n..][0]; }
        if Is(sentFls[n], k) {
          rSkippedFlag, ndAddr, hit := true, true, true;
          RemoveFromSentFilesQueue(n);
        }
        n := n + 1;
      }
      FindLive(slots, k);
      ErasedLive(slots, k);
      LiveEmpty(Erased(slots, k, |slots|));
    }

    /** What follows every M_SKIP: the status is cleared and nothing is awaited. */
    method Unwait()
      modifies this`ndAddr, this`sendDisk, this`waitingForGot, this`offReqSent
      ensures Snd() == S.Unwait(old(Snd()))
    {
      ClearStatus();
      ndAddr := false;
      if mode.weND || mode.weNR {
        waitingForGot, offReqSent := false, false;
      }
    }

    /** The file in transfer is marked; `n` files of that key are answered. */
    method Mark(k: Key, ghost n: nat)
      modifies this`rSkippedFlag, this`sendHist
      ensures var s := old(Snd());
        Snd() == s.(g := s.g.(rSkipped := s.g.rSkipped || S.OutIs(s, k)),
                    hist := s.hist.(answered := S.Plus(s.hist.answered, k, n)))
    {
      if out.Some? && out.value.k == k {
        rSkippedFlag := true;
      }
      sendHist := sendHist.(answered := S.Plus(sendHist.answered, k, n));
    }

    /** The sent files of that key are removed, and the file in transfer is marked. */
    method SkipMark(k: Key)
      requires Valid()
      modifies this`rSkippedFlag, this`ndAddr, this`sentFls, this`sendHist
      ensures Valid()
      ensures var s, inSent := old(Snd()), S.Find(old(Snd().sent), k) < |old(Snd().sent)|;
        Snd() == s.(sent := S.Without(s.sent, k),
                    g := s.g.(rSkipped := s.g.rSkipped || inSent || S.OutIs(s, k), ndAddr := s.g.ndAddr || inSent),
                    hist := s.hist.(answered := S.Plus(s.hist.answered, k, S.Files(s, k))))
    {
      ghost var n := S.Files(Snd(), k);
      SkipSent(k);
      Mark(k, n);
    }

    /** M_SKIP of the file in transfer; a status cannot be skipped. */
    method SkipOut(k: Key) returns (rc: bool)
      modifies this`out, this`tx, this`msgsInBatch
      ensures rc == !(S.OutIs(old(Snd()), k) && old(out).value.f.None?)
      ensures Snd() == if rc && S.OutIs(old(Snd()), k) then old(Snd()).(out := None) else old(Snd())
      ensures var more := if rc then [] else [MErr];
        tx == old(tx) + more && msgsInBatch == old(msgsInBatch) + |more|
    {
      if out.Some? && out.value.k == k {
        if out.value.f.None? {
          MsgSend(MErr);
          return false;
        }
        out := None;
      }
      assert tx == tx + [];
      return true;
    }

    /** M_SKIP */
    method SKIP(k: Key) returns (rc: bool)
      requires Valid()
      modifies this`rSkippedFlag, this`ndAddr, this`sentFls, this`sendHist, this`out, this`sendDisk,
        this`waitingForGot, this`offReqSent, this`tx, this`msgsInBatch
      ensures Valid()
      ensures var x := S.Skip(old(Snd()), k);
        Snd() == x.s && rc == x.ok && tx == old(tx) + x.tx && msgsInBatch == old(msgsInBatch) + |x.tx|
    {
      SkipMark(k);
      rc := SkipOut(k);
      if rc {
        Unwait();
      }
    }

    /** The file asked for changes places with the one in transfer. */
    method SwapWithSent(i: nat)
      requires Valid() && i < |sentFls| && sentFls[i].Some? && out.Some? && out.value.f.Some?
      modifies this`out, this`sentFls
      ensures Valid() && out == old(sentFls)[i]
      ensures Live(sentFls) == Live(old(sentFls)[..i]) + [old(out).value.(f := None)] + Live(old(sentFls)[i + 1..])
    {
      var buf := out.value.(f := None);
      LivePut(sentFls, i, Some(buf));
      out := sentFls[i];
      sentFls := sentFls[i := Some(buf)];
    }

    /** The file asked for becomes the one in transfer. */
    method TakeSent(i: nat)
      requires i < |sentFls| && sentFls[i].Some?
      modifies this`out, this`sentFls
      ensures Valid() && out == old(sentFls)[i]
      ensures Live(sentFls) == Live(old(sentFls)[..i]) + Live(old(sentFls)[i + 1..])
    {
      out := sentFls[i];
      RemoveFromSentFilesQueue(i);
    }

    /** The file asked for leaves its place among the sent ones, to one that is in transfer or to none. */
    method Replace(i: nat, k: Key)
      requires Valid() && i < |sentFls| && Is(sentFls[i], k) && forall j :: 0 <= j < i ==> !Is(sentFls[j], k)
      modifies this`out, this`sentFls
      ensures Valid() && out == old(sentFls)[i]
      ensures var (all, j) := (old(Live(sentFls)), S.Find(old(Live(sentFls)), k));
        && j < |all| && old(sentFls)[i] == Some(all[j])
        && Live(sentFls) == if old(out).Some? && old(out).value.f.Some? then all[j := old(out).value.(f := None)]
          else all[..j] + all[j + 1..]
    {
      Found(k, i);
      ghost var xs, ys, j := Live(sentFls[..i]), Live(sentFls[i + 1..]), S.Find(Live(sentFls), k);
      ghost var all := Live(sentFls);
      if out.Some? && out.value.f.Some? {
        PutAt(all, j, out.value.(f := None), xs, ys);
        SwapWithSent(i);
      } else {
        TakeSent(i);
      }
    }

    /** M_GET, the search among the sent files. */
    method ReopenSent(k: Key)
      requires Valid()
      modifies this`out, this`sentFls
      ensures Valid() && Snd() == S.Reopen(old(Snd()), k)
    {
      var i := FindSent(k);
      if i < |sentFls| {
        Replace(i, k);
        if k in sendDisk.spool {
          out := Some(out.value.(f := Some(S.Handle(sendDisk.spool[k], 0))));
        } else {
          out := None;
        }
      } else {
        Found(k, i);
      }
    }

    /** The answer to M_GET for a status. */
    method ReplyStatus(k: Key, off: nat)
      requires Valid() && out.Some? && out.value.k == k && out.value.f.None? && offReqSent
      modifies this`sendEof, this`waitingForGot, this`offReqSent, this`sendDisk, this`out, this`ndAddr, this`tx,
        this`msgsInBatch
      ensures Valid()
      ensures var x := S.Reply(old(Snd()), k, off);
        Snd() == x.s && x.ok && tx == old(tx) + x.tx && msgsInBatch == old(msgsInBatch) + |x.tx|
    {
      MsgSend(MFile(k, off, !(off == k.size && mode.weND)));
      if off == k.size && mode.weND {
        sendEof, waitingForGot, offReqSent := true, true, false;
      } else {
        sendDisk := sendDisk.(stc := None);
        out := None;
        Agree();
      }
    }

    /** The answer to M_GET with the file in transfer. Every path but one ends with the offset agreed on, the one
        that drops the session included. */
    method ReplyGet(k: Key, off: nat) returns (rc: bool)
      requires Valid()
      modifies this`sendEof, this`waitingForGot, this`offReqSent, this`sendDisk, this`out, this`ndAddr, this`tx,
        this`msgsInBatch
      ensures Valid()
      ensures var x := S.Reply(old(Snd()), k, off);
        Snd() == x.s && rc == x.ok && tx == old(tx) + x.tx && msgsInBatch == old(msgsInBatch) + |x.tx|
    {
      rc := false;
      if out.Some? && out.value.k == k && out.value.f.None? && offReqSent {
        ReplyStatus(k, off);
        return true;
      }
      if out.Some? && out.value.k == k && out.value.f.Some? {
        if off > k.size {
          MsgSend(MErr);
          out := Some(out.value.(f := None));
        } else {
          out := Some(out.value.(f := Some(out.value.f.value.(pos := off))));
          MsgSend(MFile(k, off, false));
          rc := true;
        }
      } else {
        assert tx == old(tx) + [];
      }
      Agree();
    }

    /** What follows an M_GET that was answered: the offset is agreed on. */
    method Agree()
      modifies this`ndAddr, this`sendDisk, this`waitingForGot, this`offReqSent
      ensures Snd() == S.Agreed(old(Snd()))
    {
      ClearStatus();
      ndAddr := false;
      if mode.weND {
        waitingForGot := false;
      }
      offReqSent := false;
    }

    /** M_GET */
    method GET(k: Key, off: nat) returns (rc: bool)
      requires Valid()
      modifies this`sentFls, this`sendEof, this`waitingForGot, this`offReqSent, this`sendDisk, this`out, this`ndAddr,
        this`tx, this`msgsInBatch
      ensures Valid()
      ensures var x := S.Get(old(Snd()), k, off);
        Snd() == x.s && rc == x.ok && tx == old(tx) + x.tx && msgsInBatch == old(msgsInBatch) + |x.tx|
    {
      ReopenSent(k);
      rc := ReplyGet(k, off);
    }

    // ---- sending ----

    /** Offer an entry of the queue: a status, or a file that can be opened. */
    method OfferFile(e: S.Entry)
      requires Valid() && (e.status || e.k in sendDisk.spool)
      modifies this`out, this`ndAddr, this`offReqSent, this`sendHist, this`tx, this`msgsInBatch
      ensures Valid()
      ensures out == Some(S.TFile(e.k, e.status, if e.status then None else Some(S.Handle(sendDisk.spool[e.k], 0))))
      ensures ndAddr == (old(ndAddr) || !mode.weND) && offReqSent == (old(offReqSent) || mode.weNR)
      ensures sendHist == old(sendHist).(announced := old(sendHist).announced[e.k.name := e.k],
                                         offered := if e.status then old(sendHist).offered
                                           else S.Plus(old(sendHist).offered, e.k, 1))
      ensures tx == old(tx) + [MFile(e.k, if mode.weNR then -1 else if e.status then e.k.size else 0, false)]
      ensures msgsInBatch == old(msgsInBatch) + 1
    {
      out := Some(S.TFile(e.k, e.status, if e.status then None else Some(S.Handle(sendDisk.spool[e.k], 0))));
      if !mode.weND {
        ndAddr := true;
      }
      sendHist := sendHist.(announced := sendHist.announced[e.k.name := e.k],
                            offered := if e.status then sendHist.offered
                              else S.Plus(sendHist.offered, e.k, 1));
      if mode.weNR {
        MsgSend(MFile(e.k, -1, false));
        offReqSent := true;
      } else if e.status {
        MsgSend(MFile(e.k, e.k.size, false));
      } else {
        MsgSend(MFile(e.k, 0, false));
      }
    }

    /** One round of the loop that looks for the next file. */
    method StartFileTransfer() returns (found: bool)
      requires Valid() && S.CanStart(Snd())
      modifies this`q, this`out, this`ndAddr, this`offReqSent, this`sendHist, this`tx, this`msgsInBatch
      ensures Valid()
      ensures var x := S.Start(old(Snd()));
        Snd() == x.s && x.ok && tx == old(tx) + x.tx && msgsInBatch == old(msgsInBatch) + |x.tx|
        && (found <==> x.tx != [])
    {
      assert tx == tx + [];
      if q.value == [] {
        q := None;
        return false;
      }
      var e := q.value[0];
      q := Some(q.value[1..]);
      out := None;
      if !e.status && e.k !in sendDisk.spool {
        return false;
      }
      OfferFile(e);
      return true;
    }

    /** The file in transfer is sent: it waits for its answer among the others. */
    method CurrentFileWasSent()
      requires Valid() && out.Some?
      modifies this`sentFls, this`out, this`waitingForGot
      ensures Valid() && Live(sentFls) == Live(old(sentFls)) + [old(out).value.(f := None)]
      ensures out.None? && waitingForGot == (old(waitingForGot) || mode.weND)
    {
      var file := out.value.(f := None);
      LiveSplit(sentFls, [Some(file)]);
      sentFls := sentFls + [Some(file)];
      out := None;
      if mode.weND {
        waitingForGot := true;
      }
    }

    /** The next data block. */
    method SendDataBlock(blk: nat) returns (rc: bool)
      requires Valid() && S.CanBlock(Snd())
      modifies this`sentFls, this`out, this`waitingForGot, this`sendEof, this`tx
      ensures Valid()
      ensures var x := S.Block(old(Snd()), blk);
        Snd() == x.s && rc == x.ok && tx == old(tx) + x.tx
    {
      if out.Some? && out.value.f.Some? {
        var h := out.value.f.value;
        var sz := if blk < out.value.k.size - h.pos then blk else out.value.k.size - h.pos;
        if sz < 0 || h.pos + sz > |h.data| {
          assert tx == tx + [];
          return false;
        }
        tx := tx + [Data(h.data[h.pos..h.pos + sz])];
        if sz == 0 || h.pos + sz == out.value.k.size {
          CurrentFileWasSent();
        } else {
          out := Some(out.value.(f := Some(h.(pos := h.pos + sz))));
        }
      } else {
        sendEof := false;
        tx := tx + [Data([])];
      }
      return true;
    }

    // ---- receiving ----

    /** inb_reject: the partial file is removed. */
    method InbReject(k: Key)
      modifies this`recvDisk
      ensures Rcv() == R.Reject(old(Rcv()), k)
    {
      recvDisk := recvDisk.(parts := recvDisk.parts - {PartOf(k)});
    }

    method ClosePartial()
      modifies this`recvDisk, this`inn
      ensures Rcv() == R.ClosePartial(old(Rcv()))
    {
      if inn.Some? {
        var k := inn.value.k;
        if IsPkt(k.name) || PartOf(k) !in recvDisk.parts || recvDisk.parts[PartOf(k)] == [] {
          InbReject(k);
        }
        inn := None;
      }
    }

    /** inb_done: a whole partial gets its true name. */
    method InbDone(k: Key) returns (rc: bool)
      modifies this`recvDisk, this`recvHist, this`tx, this`msgsInBatch
      ensures var x := R.Done(old(Rcv()), k);
        Rcv() == x.r && rc == x.ok && tx == old(tx) + x.tx && msgsInBatch == old(msgsInBatch) + |x.tx|
    {
      var p := PartOf(k);
      if p !in recvDisk.parts {
        MsgSend(MErr);
        return false;
      }
      assert tx == tx + [];
      var bytes := recvDisk.parts[p];
      recvDisk := R.Disk(recvDisk.parts - {p}, recvDisk.inbound[p := bytes]);
      recvHist := recvHist.(log := recvHist.log + [R.Delivery(p, bytes)], had := recvHist.had + {p});
      return true;
    }

    /** Rename the file that was completed in ND mode. */
    method RenameComplete() returns (rc: bool)
      modifies this`recvDisk, this`recvHist, this`tx, this`msgsInBatch, this`inComplete
      ensures var x := R.Rename(old(Rcv()));
        Rcv() == x.r && rc == x.ok && tx == old(tx) + x.tx && msgsInBatch == old(msgsInBatch) + |x.tx|
    {
      rc := true;
      if theyND && inComplete.Some? {
        rc := InbDone(inComplete.value);
        if rc {
          inComplete := None;
        }
      } else {
        assert tx == tx + [];
      }
    }

    /** inb_fopen: a partial file is continued; one longer than the file is emptied. */
    method InbFopen(k: Key, farewell: bool)
      modifies this`recvDisk, this`inn
      ensures Rcv() == R.Open(old(Rcv()), k, farewell)
    {
      var cur := if PartOf(k) in recvDisk.parts then recvDisk.parts[PartOf(k)] else [];
      if |cur| > k.size {
        cur := [];
      }
      recvDisk := recvDisk.(parts := recvDisk.parts[PartOf(k) := cur]);
      inn := Some(R.In(k, farewell));
    }

    /** M_FILE, once the file is open. */
    method CheckOffset(off: int)
      requires inn.Some?
      modifies this`inn, this`getFileBalance, this`tx, this`msgsInBatch
      ensures var x := R.Offset(old(Rcv()), off);
        Rcv() == x.r && x.ok && tx == old(tx) + x.tx && msgsInBatch == old(msgsInBatch) + |x.tx|
    {
      var k := inn.value.k;
      var have := if PartOf(k) in recvDisk.parts then |recvDisk.parts[PartOf(k)]| else 0;
      if off == -1 || off != have {
        MsgSend(MGet(k, have));
        getFileBalance := getFileBalance + 1;
        inn := None;
      } else {
        assert tx == tx + [];
        if off != 0 || theyNR {
          getFileBalance := getFileBalance - 1;
        }
      }
    }

    /** M_FILE: refuse the file, or open it. */
    method AdmitFile(k: Key, off: int, farewell: bool, openFails: bool)
      modifies this`inn, this`getFileBalance, this`tx, this`msgsInBatch, this`skipAllFlag, this`recvDisk
      ensures var x := R.Admit(old(Rcv()), k, off, farewell, openFails);
        Rcv() == x.r && x.ok && tx == old(tx) + x.tx && msgsInBatch == old(msgsInBatch) + |x.tx|
    {
      if inn.None? {
        if k in masks {
          MsgSend(if masks[k] then MGot(k) else MSkip(k));
          return;
        }
        if PartOf(k) in recvDisk.inbound {
          MsgSend(MGot(k));
          return;
        }
        if openFails {
          skipAllFlag := true;
        }
        if skipAllFlag {
          MsgSend(MSkip(k));
          return;
        }
        InbFopen(k, farewell);
      }
      CheckOffset(off);
    }

    /** A file of another name is open: it is closed, and what is complete is renamed. */
    method BeforeFile(name: string) returns (rc: bool)
      modifies this`inn, this`tx, this`msgsInBatch, this`recvDisk, this`recvHist, this`inComplete
      ensures var r := old(Rcv());
        var x := R.Rename(if r.inn.Some? && r.inn.value.k.name != name then R.ClosePartial(r) else r);
        Rcv() == x.r && rc == x.ok && tx == old(tx) + x.tx && msgsInBatch == old(msgsInBatch) + |x.tx|
    {
      if inn.Some? && inn.value.k.name != name {
        ClosePartial();
      }
      rc := RenameComplete();
    }

    /** "M_FILE ... -1" tells of the NR mode. */
    method Offered(k: Key, off: int, farewell: bool, openFails: bool)
      modifies this`inn, this`getFileBalance, this`tx, this`msgsInBatch, this`skipAllFlag, this`recvDisk, this`theyNR
      ensures var r := old(Rcv());
        var x := R.Admit(if off == -1 then r.(g := r.g.(theyNR := true)) else r, k, off, farewell, openFails);
        Rcv() == x.r && x.ok && tx == old(tx) + x.tx && msgsInBatch == old(msgsInBatch) + |x.tx|
    {
      if off == -1 {
        theyNR := true;
      }
      AdmitFile(k, off, farewell, openFails);
    }

    /** M_FILE */
    method StartFileRecv(k: Key, off: int, farewell: bool, openFails: bool) returns (rc: bool)
      modifies this`inn, this`getFileBalance, this`tx, this`msgsInBatch, this`skipAllFlag, this`recvDisk,
        this`recvHist, this`inComplete, this`theyNR
      ensures var x := R.File(old(Rcv()), k, off, farewell, openFails);
        Rcv() == x.r && rc == x.ok && tx == old(tx) + x.tx && msgsInBatch == old(msgsInBatch) + |x.tx|
    {
      rc := BeforeFile(k.name);
      if rc {
        Offered(k, off, farewell, openFails);
      }
    }

    /** A file has all its bytes: it is renamed at once, or waits for the next frame in ND mode. */
    method FileComplete(k: Key) returns (rc: bool)
      requires inn.None?
      modifies this`tx, this`msgsInBatch, this`recvDisk, this`recvHist, this`inComplete
      ensures var r := old(Rcv());
        var d := R.Done(r, k);
        if r.g.theyND then rc && Rcv() == r.(inComplete := Some(k))
          && tx == old(tx) + [MGot(k)] && msgsInBatch == old(msgsInBatch) + 1
        else Rcv() == d.r && rc == d.ok && (rc ==> tx == old(tx) + [MGot(k)] && msgsInBatch == old(msgsInBatch) + 1)
    {
      rc := true;
      if theyND {
        inComplete := Some(k);
      } else {
        rc := InbDone(k);
        if !rc {
          return;
        }
      }
      MsgSend(MGot(k));
    }

    /** A data block. */
    method RecvData(bytes: seq<Byte>) returns (rc: bool)
      modifies this`inn, this`tx, this`msgsInBatch, this`recvDisk, this`recvHist, this`inComplete
      ensures var x := R.Data(old(Rcv()), bytes);
        Rcv() == x.r && rc == x.ok && tx == old(tx) + x.tx && msgsInBatch == old(msgsInBatch) + |x.tx|
    {
      rc := true;
      if inn.Some? {
        var k := inn.value.k;
        var all := (if PartOf(k) in recvDisk.parts then recvDisk.parts[PartOf(k)] else []) + bytes;
        recvDisk := recvDisk.(parts := recvDisk.parts[PartOf(k) := all]);
        if |all| == k.size {
          inn := None;
          rc := FileComplete(k);
          return;
        } else if |all| > k.size {
          rc := false;
        }
      }
      assert tx == old(tx) + [];
    }

    /** M_EOB, after it was noted. */
    method CloseBatch() returns (rc: bool)
      modifies this`inn, this`tx, this`msgsInBatch, this`recvDisk, this`recvHist, this`inComplete
      ensures var x := R.Eob(old(Rcv()));
        Rcv() == x.r && rc == x.ok && tx == old(tx) + x.tx && msgsInBatch == old(msgsInBatch) + |x.tx|
    {
      if inn.Some? {
        var k := inn.value.k;
        if !theyNR && PartOf(k) in recvDisk.parts && recvDisk.parts[PartOf(k)] != [] {
          InbReject(k);
          inn := None;
        } else {
          ClosePartial();
        }
      }
      rc := RenameComplete();
    }

    // ---- the loop ----

    predicate BatchEnded()
      reads this
      ensures Valid() ==> BatchEnded() == BatchOver(View())
    {
      remoteEOB && sentFls == [] && localEOB && getFileBalance == 0 && inn.None? && !(out.Some? && out.value.f.Some?)
    }

    /** The session ends with success. */
    method FinishSession()
      requires Valid()
      modifies this`sendDisk, this`ndAddr, this`recvDisk, this`live
      ensures Valid() && View() == Finish(old(View()))
    {
      ForgetStatus();
      InbRemovePartial();
      live := false;
    }

    method ForgetStatus()
      modifies this`sendDisk, this`ndAddr
      ensures Snd() == S.ClearStatus(old(Snd())).(g := old(Snd()).g.(ndAddr := false))
    {
      ClearStatus();
      ndAddr := false;
    }

    method InbRemovePartial()
      modifies this`recvDisk
      ensures Rcv() == if skipAllFlag then old(Rcv()) else old(Rcv()).(disk := old(Rcv()).disk.(parts := map[]))
    {
      if !skipAllFlag {
        recvDisk := recvDisk.(parts := map[]);
      }
    }

    /** The next batch starts: the file boxes are scanned again, unless the remote skipped something. */
    method NextBatch(more: seq<S.Entry>)
      requires Valid() && live
      modifies this`msgsInBatch, this`remoteEOB, this`localEOB, this`q
      ensures Valid() && Bat() == Batch(true, false, false, 0, ends) && Rcv() == old(Rcv())
      ensures Snd() == old(Snd()).(q := if rSkippedFlag then old(q) else More(old(q), more))
    {
      msgsInBatch := 0;
      remoteEOB, localEOB := false, false;
      if !rSkippedFlag && more != [] {
        q := if q.None? then Some(more) else Some(q.value + more);
      }
    }

    lemma EndStep(p: Peer, more: seq<S.Entry>)
      requires Enabled(p, [], Act.EndBatch(more))
      ensures var p0 := p.(bat := p.bat.(ends := p.bat.ends + [p.bat.msgs]));
        Step(p, [], Act.EndBatch(more)) == if p.bat.msgs <= 2 then Finish(p0)
          else p.(bat := Batch(true, false, false, 0, p0.bat.ends),
            snd := p.snd.(q := if p.snd.g.rSkipped then p.snd.q else More(p.snd.q, more)))
    {
    }

    method EndLast()
      requires Valid() && live
      modifies this`sendDisk, this`ndAddr, this`recvDisk, this`live, this`ends
      ensures Valid()
      ensures var p := old(View()); View() == Finish(p.(bat := p.bat.(ends := p.bat.ends + [p.bat.msgs])))
    {
      ends := ends + [msgsInBatch];
      FinishSession();
    }

    method EndOther(more: seq<S.Entry>)
      requires Valid() && live
      modifies this`msgsInBatch, this`remoteEOB, this`localEOB, this`q, this`ends
      ensures Valid()
      ensures var p := old(View());
        View() == p.(bat := Batch(true, false, false, 0, p.bat.ends + [p.bat.msgs]),
                     snd := p.snd.(q := if p.snd.g.rSkipped then p.snd.q else More(p.snd.q, more)))
    {
      ghost var p := View();
      ends := ends + [msgsInBatch];
      assert Snd() == p.snd && Rcv() == p.rcv;
      NextBatch(more);
    }

    /** The end of a batch: stop after one that held the M_EOBs only, or go on. */
    method EndBatch(more: seq<S.Entry>) returns (stop: bool)
      requires Valid() && live && BatchEnded()
      modifies this`sendDisk, this`ndAddr, this`recvDisk, this`live, this`ends, this`msgsInBatch, this`remoteEOB,
        this`localEOB, this`q
      ensures Valid() && stop == (old(msgsInBatch) <= 2)
      ensures View() == Step(old(View()), [], Act.EndBatch(more))
    {
      EndStep(View(), more);
      stop := msgsInBatch <= 2;
      if stop {
        EndLast();
      } else {
        EndOther(more);
      }
    }

    // ---- one frame ----

    method CountMsg()
      modifies this`msgsInBatch
      ensures View() == old(View()).(bat := old(View()).bat.(msgs := old(View()).bat.msgs + 1))
      ensures Live(sentFls) == old(Live(sentFls))
    {
      msgsInBatch := msgsInBatch + 1;
    }

    /** A handler that fails ends the session. */
    method GoOn(rc: bool)
      modifies this`live
      ensures View() == old(View()).(bat := old(View()).bat.(live := rc))
    {
      live := rc;
    }

    method NoteEob()
      modifies this`remoteEOB
      ensures View() == old(View()).(bat := old(View()).bat.(remoteEOB := true))
    {
      remoteEOB := true;
    }

    /** The receiving half took a frame with the result `x`. */
    twostate predicate Took(x: R.Result)
      reads this
    {
      Rcv() == x.r && tx == old(tx) + x.tx && msgsInBatch == old(msgsInBatch) + |x.tx| && NoData(x.tx)
      && SndFields() && live == old(live) && localEOB == old(localEOB) && remoteEOB == old(remoteEOB)
      && ends == old(ends)
    }

    /** The sending half is as it was. */
    twostate predicate SndFields()
      reads this
    {
      && q == old(q) && out == old(out) && sentFls == old(sentFls) && offReqSent == old(offReqSent)
      && waitingForGot == old(waitingForGot)
      && sendEof == old(sendEof) && ndAddr == old(ndAddr) && rSkippedFlag == old(rSkippedFlag) && mode == old(mode)
      && sendDisk == old(sendDisk) && sendHist == old(sendHist)
    }

    /** The sending half did `x`. */
    twostate predicate Did(x: S.Result)
      reads this
    {
      Snd() == x.s && tx == old(tx) + x.tx && msgsInBatch == old(msgsInBatch) + Msgs(x.tx)
      && RcvFields() && live == old(live) && localEOB == old(localEOB) && remoteEOB == old(remoteEOB)
      && ends == old(ends)
    }

    /** The receiving half is as it was. */
    twostate predicate RcvFields()
      reads this
    {
      && inn == old(inn) && inComplete == old(inComplete) && getFileBalance == old(getFileBalance)
      && theyNR == old(theyNR)
      && theyND == old(theyND) && skipAllFlag == old(skipAllFlag) && masks == old(masks) && recvDisk == old(recvDisk)
      && recvHist == old(recvHist)
    }

    twostate lemma TookIs(x: R.Result)
      requires Took(x)
      ensures View().(bat := View().bat.(live := x.ok)) == RcvDone(old(View()), x)
      ensures sentFls == old(sentFls)
    {
      AllMsgs(x.tx);
      var q := View().(bat := View().bat.(live := x.ok));
      assert Received(old(View()), q, x);
      DoneShapes(old(View()), q);
    }

    twostate lemma DidIs(x: S.Result)
      requires Did(x)
      ensures View().(bat := View().bat.(live := x.ok)) == SndDone(old(View()), x)
    {
      var q := View().(bat := View().bat.(live := x.ok));
      assert Answered(old(View()), q, x);
      DoneShapes(old(View()), q);
    }

    method TakeFile(k: Key, off: int, farewell: bool, openFails: bool) returns (rc: bool)
      modifies this`inn, this`getFileBalance, this`tx, this`msgsInBatch, this`skipAllFlag, this`recvDisk,
        this`recvHist, this`inComplete, this`theyNR
      ensures var x := R.File(old(Rcv()), k, off, farewell, openFails); Took(x) && rc == x.ok
    {
      FileSendsNoData(Rcv(), k, off, farewell, openFails);
      rc := StartFileRecv(k, off, farewell, openFails);
    }

    method TakeData(bytes: seq<Byte>) returns (rc: bool)
      modifies this`inn, this`tx, this`msgsInBatch, this`recvDisk, this`recvHist, this`inComplete
      ensures var x := R.Data(old(Rcv()), bytes); Took(x) && rc == x.ok
    {
      DataSendsNoData(Rcv(), bytes);
      rc := RecvData(bytes);
    }

    method TakeEob() returns (rc: bool)
      modifies this`inn, this`tx, this`msgsInBatch, this`recvDisk, this`recvHist, this`inComplete
      ensures var x := R.Eob(old(Rcv())); Took(x) && rc == x.ok
    {
      EobSendsNoData(Rcv());
      rc := CloseBatch();
    }

    method TakeGet(k: Key, off: nat) returns (rc: bool)
      requires Valid()
      modifies this`sentFls, this`sendEof, this`waitingForGot, this`offReqSent, this`sendDisk, this`out, this`ndAddr,
        this`tx, this`msgsInBatch
      ensures Valid()
      ensures var x := S.Get(old(Snd()), k, off); Did(x) && rc == x.ok
    {
      ReplySendsNoData(S.Reopen(Snd(), k), k, off);
      AllMsgs(S.Get(Snd(), k, off).tx);
      rc := GET(k, off);
    }

    method TakeGot(k: Key)
      requires Valid()
      modifies this`ndAddr, this`sendDisk, this`waitingForGot, this`offReqSent, this`sendHist, this`out, this`sentFls
      ensures Valid()
      ensures var x := S.Got(old(Snd()), k); Did(x) && x.ok
    {
      GotIs(Snd(), k);
      GOT(k);
      assert tx == old(tx) + [] && Msgs([]) == 0;
    }

    method TakeSkip(k: Key) returns (rc: bool)
      requires Valid()
      modifies this`rSkippedFlag, this`ndAddr, this`sentFls, this`sendHist, this`out, this`sendDisk,
        this`waitingForGot, this`offReqSent, this`tx, this`msgsInBatch
      ensures Valid()
      ensures var x := S.Skip(old(Snd()), k); Did(x) && rc == x.ok
    {
      SkipSendsNoData(Snd(), k);
      rc := SKIP(k);
    }

    method OnFile(k: Key, off: int, farewell: bool, openFails: bool)
      requires Valid()
      modifies this
      ensures Valid() && View() == RcvDone(old(View()), R.File(old(Rcv()), k, off, farewell, openFails))
    {
      var rc := TakeFile(k, off, farewell, openFails);
      TookIs(R.File(old(Rcv()), k, off, farewell, openFails));
      GoOn(rc);
    }

    method OnData(bytes: seq<Byte>)
      requires Valid()
      modifies this
      ensures Valid() && View() == RcvDone(old(View()), R.Data(old(Rcv()), bytes))
    {
      var rc := TakeData(bytes);
      TookIs(R.Data(old(Rcv()), bytes));
      GoOn(rc);
    }

    method OnClose()
      requires Valid()
      modifies this
      ensures Valid() && View() == RcvDone(old(View()), R.Eob(old(Rcv())))
    {
      var rc := TakeEob();
      TookIs(R.Eob(old(Rcv())));
      GoOn(rc);
    }

    method OnGet(k: Key, off: nat)
      requires Valid()
      modifies this
      ensures Valid() && View() == SndDone(old(View()), S.Get(old(Snd()), k, off))
    {
      var rc := TakeGet(k, off);
      DidIs(S.Get(old(Snd()), k, off));
      GoOn(rc);
    }

    method OnGot(k: Key)
      requires Valid()
      modifies this
      ensures Valid() && View() == SndDone(old(View()), S.Got(old(Snd()), k))
    {
      TakeGot(k);
      DidIs(S.Got(old(Snd()), k));
      GoOn(true);
    }

    method OnSkip(k: Key)
      requires Valid()
      modifies this
      ensures Valid() && View() == SndDone(old(View()), S.Skip(old(Snd()), k))
    {
      var rc := TakeSkip(k);
      DidIs(S.Skip(old(Snd()), k));
      GoOn(rc);
    }

    /** The dispatch of a frame. */
    method Dispatch(f: Frame, openFails: bool)
      requires Valid()
      modifies this
      ensures Valid() && View() == Dispatched(old(View()), f, openFails)
    {
      match f
      case MFile(k, off, w) => OnFile(k, off, w, openFails);
      case MGet(k, off) => OnGet(k, off);
      case MGot(k) => OnGot(k);
      case MSkip(k) => OnSkip(k);
      case MEob =>
        NoteEob();
        OnClose();
      case MErr => GoOn(false);
      case Data(bytes) => OnData(bytes);
    }

    /** A frame was read: messages are counted, then dispatched. */
    method OnFrame(f: Frame, openFails: bool)
      requires Valid()
      modifies this
      ensures Valid() && View() == Handle(old(View()), f, openFails)
    {
      HandleIs(View(), f, openFails);
      if !f.Data? {
        CountMsg();
      }
      Dispatch(f, openFails);
    }

    // ---- a round of the loop ----

    predicate MayStart()
      reads this
      ensures MayStart() == Loop.MayStart(View())
    {
      live && !localEOB && q.Some? && !(out.Some? && out.value.f.Some?) && !waitingForGot && !offReqSent
    }

    method StartOne() returns (found: bool)
      requires Valid() && S.CanStart(Snd())
      modifies this`q, this`out, this`ndAddr, this`offReqSent, this`sendHist, this`tx, this`msgsInBatch
      ensures Valid()
      ensures var x := S.Start(old(Snd())); Did(x) && x.ok && (found <==> x.tx != [])
    {
      StartSendsNoData(Snd());
      found := StartFileTransfer();
    }

    method TopStep() returns (found: bool)
      requires Valid() && MayStart()
      modifies this`q, this`out, this`ndAddr, this`offReqSent, this`sendHist, this`tx, this`msgsInBatch
      ensures Valid() && live && View() == Step(old(View()), [], Top) && (found <==> S.Start(old(Snd())).tx != [])
      ensures !found && q.Some? ==> MayStart() && |q.value| < |old(q.value)|
    {
      Loop.StartKeepsOn(View(), []);
      found := StartOne();
      DidIs(S.Start(old(Snd())));
    }

    /** The next file that can be opened; without one the queue is freed. */
    method NextFile()
      requires Valid() && MayStart()
      modifies this`q, this`out, this`ndAddr, this`offReqSent, this`sendHist, this`tx, this`msgsInBatch
      ensures Valid() && View() == Loop.NextFile(old(View()))
    {
      ghost var p := View();
      var found := false;
      while !found && q.Some?
        invariant Valid() && (!found && q.Some? ==> MayStart() && Loop.NextFile(View()) == Loop.NextFile(p))
        invariant found || q.None? ==> View() == Loop.NextFile(p)
        decreases !found && q.Some?, if q.Some? then |q.value| else 0
      {
        found := TopStep();
      }
    }

    /** M_EOB: there is nothing more to send in this batch. */
    method SendEob()
      requires Valid() && Loop.EobDue(View())
      modifies this`localEOB, this`tx, this`msgsInBatch
      ensures Valid() && View() == Step(old(View()), [], Act.SendEob)
    {
      localEOB := true;
      MsgSend(MEob);
      assert [MEob][1..] == [];
    }

    method Offer()
      requires Valid() && live
      modifies this
      ensures Valid() && View() == Loop.Offer(old(View()))
    {
      if MayStart() {
        NextFile();
      }
      if live && !localEOB && !(out.Some? && out.value.f.Some?) && q.None? && sentFls == [] {
        SendEob();
      }
    }

    method SendOne(blk: nat) returns (rc: bool)
      requires Valid() && S.CanBlock(Snd())
      modifies this`sentFls, this`out, this`waitingForGot, this`sendEof, this`tx
      ensures Valid()
      ensures var x := S.Block(old(Snd()), blk); Did(x) && rc == x.ok
    {
      BlockIsData(Snd(), blk);
      rc := SendDataBlock(blk);
    }

    method BlockStep(blk: nat)
      requires Valid() && S.CanBlock(Snd())
      modifies this
      ensures Valid() && View() == SndDone(old(View()), S.Block(old(Snd()), blk))
    {
      var rc := SendOne(blk);
      DidIs(S.Block(old(Snd()), blk));
      GoOn(rc);
    }

    method Exchange(io: Loop.Io)
      requires Valid()
      modifies this
      ensures Valid() && View() == Loop.Exchange(old(View()), io)
    {
      if io.timeout {
        GoOn(false);
        return;
      }
      if io.input.Some? {
        OnFrame(io.input.value, io.fails);
      }
      if live && io.blk.Some? && ((out.Some? && out.value.f.Some? && !offReqSent && !waitingForGot) || sendEof) {
        BlockStep(io.blk.value);
      }
    }

    /** One round of the loop of protocol(). */
    method Round(io: Loop.Io)
      requires Valid() && live
      modifies this
      ensures Valid() && View() == Loop.Round(old(View()), io)
    {
      Offer();
      if live && BatchEnded() {
        var stop := EndBatch(io.more);
      } else {
        Exchange(io);
      }
    }
  }
}
