/** When to stop. Both peers count the messages of a batch; they decide on these counts alone whether to go on. */
module BatchAgreement {
  import opened Options
  import opened Frames
  import S = Sender
  import R = Receiver
  import opened Session
  import opened Tokens

  // ---- a receiver that waits for ever ----

  /** The excess in the direction from `a` to `b`. */
  function Surplus(a: Peer, b: Peer): int {
    Excess(a.snd.mode.weNR, b.rcv, a.tx, b.tx)
  }

  ghost predicate Offsets(a: Peer, b: Peer) {
    OffsetsOk(a.snd.mode.weNR, b.rcv, a.tx)
  }

  /** The condition on a step of `p`. */
  ghost predicate CleanStep(p: Peer, act: Act) {
    act.Top? ==> Clean(p.snd)
  }

  ghost predicate CleanRun(ss: seq<Sys>, ls: seq<Label>)
    requires Run(ss, ls)
  {
    forall j :: 0 <= j < |ls| ==>
      (ls[j].ActA? ==> CleanStep(ss[j].a, ls[j].act)) && (ls[j].ActB? ==> CleanStep(ss[j].b, ls[j].act))
  }

  lemma HeadSplit(fs: seq<Frame>, nr: bool)
    requires fs != []
    ensures Msgs(fs) == Msgs(fs[1..]) + (if fs[0].Data? then 0 else 1)
    ensures Eobs(fs) == Eobs(fs[1..]) + (if fs[0].MEob? then 1 else 0)
    ensures Gets(fs) == Gets(fs[1..]) + (if fs[0].MGet? then 1 else 0)
    ensures Replies(fs, nr) == Replies(fs[1..], nr) + (if IsReply(fs[0], nr) then 1 else 0)
  {
  }

  lemma TailSplit(fs: seq<Frame>, tx: seq<Frame>, nr: bool)
    requires |tx| <= 1
    ensures Msgs(fs + tx) == Msgs(fs) + Msgs(tx) && Msgs(tx) == (if tx != [] && !tx[0].Data? then 1 else 0)
    ensures Eobs(fs + tx) == Eobs(fs) + (if tx != [] && tx[0].MEob? then 1 else 0)
    ensures Gets(fs + tx) == Gets(fs) + (if tx != [] && tx[0].MGet? then 1 else 0)
    ensures Replies(fs + tx, nr) == Replies(fs, nr) + (if tx != [] && IsReply(tx[0], nr) then 1 else 0)
  {
    Split(fs, tx, nr);
    if tx != [] {
      assert tx == [tx[0]];
    }
  }

  /** What a step of the sending half queues, and what it leaves of the frames from the other side. */
  lemma SenderSurplus(a: Peer, b: Peer, nr: bool, tx: seq<Frame>, rest: seq<Frame>)
    requires Offsets(a, b) && nr == a.snd.mode.weNR && |tx| <= 1
    requires rest == b.tx || (b.tx != [] && rest == b.tx[1..])
    requires tx != [] && tx[0].MFile? ==> tx[0].off >= -1 && (tx[0].off == -1 ==> nr)
    requires tx != [] && IsReply(tx[0], nr) ==> b.tx != [] && rest == b.tx[1..] && b.tx[0].MGet?
    ensures OffsetsOk(nr, b.rcv, a.tx + tx)
    ensures Excess(nr, b.rcv, a.tx + tx, rest) >= Surplus(a, b)
  {
    TailSplit(a.tx, tx, nr);
    if rest != b.tx { HeadSplit(b.tx, nr); }
  }

  /** What a step of the receiving half does; `nr` is the mode of the other side. */
  lemma ReceiverSurplus(b: Peer, a: Peer, f: Frame, x: R.Result, fails: bool)
    requires Offsets(b, a) && b.tx != [] && f == b.tx[0]
    requires match f
      case MFile(k, off, w) => x == R.File(a.rcv, k, off, w, fails)
      case MEob => x == R.Eob(a.rcv)
      case Data(bytes) => x == R.Data(a.rcv, bytes)
      case _ => x == R.Result(a.rcv, [], true)
    ensures |x.tx| <= 1 && (x.tx != [] ==> IsAnswer(x.tx[0]) || x.tx[0].MErr?)
    ensures OffsetsOk(b.snd.mode.weNR, x.r, b.tx[1..])
    ensures Excess(b.snd.mode.weNR, x.r, b.tx[1..], a.tx + x.tx) >= Surplus(b, a)
    ensures x.tx != [] && IsReply(f, b.snd.mode.weNR) ==>
      Excess(b.snd.mode.weNR, x.r, b.tx[1..], a.tx + x.tx) >= Surplus(b, a) + 1
    ensures x.tx == [] && f.MFile? ==> x.ok && x.r.inn.Some?
  {
    var nr := b.snd.mode.weNR;
    HeadSplit(b.tx, nr);
    assert f in b.tx;
    match f
    case MFile(k, off, w) =>
      if x.ok {
        FileBalance(a.rcv, k, off, w, fails);
      } else {
        FileFails(a.rcv, k, off, w, fails);
      }
      TailSplit(a.tx, x.tx, nr);
    case MEob =>
      EobBalance(a.rcv);
      TailSplit(a.tx, x.tx, nr);
    case Data(bytes) =>
      DataBalance(a.rcv, bytes);
      TailSplit(a.tx, x.tx, nr);
    case _ =>
      TailSplit(a.tx, x.tx, nr);
  }

  /** Frames that pass the other way. */
  lemma OtherSurplus(b: Peer, r: R.Rcv, ab: seq<Frame>, tx: seq<Frame>, rest: seq<Frame>)
    requires OffsetsOk(b.snd.mode.weNR, r, b.tx) && |tx| <= 1 && (tx != [] ==> !tx[0].MGet?)
    requires rest == b.tx || (b.tx != [] && rest == b.tx[1..] && !b.tx[0].MFile?)
    ensures OffsetsOk(b.snd.mode.weNR, r, rest)
    ensures Excess(b.snd.mode.weNR, r, rest, ab + tx) == Excess(b.snd.mode.weNR, r, b.tx, ab)
  {
    TailSplit(ab, tx, b.snd.mode.weNR);
    if rest != b.tx { HeadSplit(b.tx, b.snd.mode.weNR); }
  }

  lemma RecvSurplus(s: Sys, fails: bool)
    requires Offsets(s.a, s.b) && Offsets(s.b, s.a) && Enabled(s.a, s.b.tx, Recv(fails))
    requires var f := s.b.tx[0]; f.MFile? || f.MEob? || f.Data? || f.MErr?
    ensures var t := StepA(s, Recv(fails));
      && Offsets(t.a, t.b) && Offsets(t.b, t.a)
      && Surplus(t.a, t.b) >= Surplus(s.a, s.b) && Surplus(t.b, t.a) >= Surplus(s.b, s.a)
  {
    var f := s.b.tx[0];
    var x := match f
      case MFile(k, off, w) => R.File(s.a.rcv, k, off, w, fails)
      case MEob => R.Eob(s.a.rcv)
      case Data(bytes) => R.Data(s.a.rcv, bytes)
      case _ => R.Result(s.a.rcv, [], true);
    ReceiverSurplus(s.b, s.a, f, x, fails);
    SenderSurplus(s.a, s.b, s.a.snd.mode.weNR, x.tx, s.b.tx[1..]);
    var t := StepA(s, Recv(fails));
    assert t.a.rcv == x.r && t.a.tx == s.a.tx + x.tx && t.a.snd == s.a.snd && t.b.rcv == s.b.rcv;
    assert t.b.tx == s.b.tx[1..];
  }

  /** Peer `a` took an answer, with the result `x`. */
  ghost predicate Took(s: Sys, t: Sys, x: S.Result) {
    && s.b.tx != [] && t.b == s.b.(tx := s.b.tx[1..])
    && t.a.snd == x.s && t.a.rcv == s.a.rcv && t.a.tx == s.a.tx + x.tx
    && t.a.bat == s.a.bat.(msgs := s.a.bat.msgs + Msgs(x.tx) + 1, live := x.ok)
    && |x.tx| <= 1 && x.s.mode == s.a.snd.mode && (x.ok && x.tx != [] ==> x.tx[0].MFile?)
    && (x.tx != [] ==> x.tx[0].MErr? || (s.b.tx[0].MGet? && x.tx[0].MFile? && x.tx[0].off >= 0))
  }

  lemma AnswerIs(s: Sys, fails: bool) returns (x: S.Result)
    requires Enabled(s.a, s.b.tx, Recv(fails)) && IsAnswer(s.b.tx[0])
    ensures Took(s, StepA(s, Recv(fails)), x)
    ensures match s.b.tx[0]
      case MGet(k, at) => x == S.Get(s.a.snd, k, at)
      case MGot(k) => x == S.Got(s.a.snd, k)
      case MSkip(k) => x == S.Skip(s.a.snd, k)
      case _ => false
  {
    match s.b.tx[0]
    case MGet(k, at) =>
      x := S.Get(s.a.snd, k, at);
      ReplyOffsets(s.a.snd, k, at);
    case MGot(k) => x := S.Got(s.a.snd, k);
    case MSkip(k) => x := S.Skip(s.a.snd, k);
  }

  lemma TookSurplus(s: Sys, t: Sys, x: S.Result)
    requires Offsets(s.a, s.b) && Offsets(s.b, s.a) && Took(s, t, x) && IsAnswer(s.b.tx[0])
    ensures Offsets(t.a, t.b) && Offsets(t.b, t.a)
    ensures Surplus(t.a, t.b) >= Surplus(s.a, s.b) && Surplus(t.b, t.a) >= Surplus(s.b, s.a)
  {
    SenderSurplus(s.a, s.b, s.a.snd.mode.weNR, x.tx, s.b.tx[1..]);
    OtherSurplus(s.b, s.a.rcv, s.a.tx, x.tx, s.b.tx[1..]);
  }

  lemma AnswerSurplus(s: Sys, fails: bool)
    requires Offsets(s.a, s.b) && Offsets(s.b, s.a) && Enabled(s.a, s.b.tx, Recv(fails)) && IsAnswer(s.b.tx[0])
    ensures var t := StepA(s, Recv(fails));
      && Offsets(t.a, t.b) && Offsets(t.b, t.a)
      && Surplus(t.a, t.b) >= Surplus(s.a, s.b) && Surplus(t.b, t.a) >= Surplus(s.b, s.a)
  {
    var x := AnswerIs(s, fails);
    TookSurplus(s, StepA(s, Recv(fails)), x);
  }

  /** No step lowers the excess of either direction. */
  lemma ActSurplus(s: Sys, act: Act)
    requires Offsets(s.a, s.b) && Offsets(s.b, s.a) && Enabled(s.a, s.b.tx, act)
    requires act.Top? ==> StatusInNR(s.a.snd)
    ensures var t := StepA(s, act);
      && Offsets(t.a, t.b) && Offsets(t.b, t.a)
      && Surplus(t.a, t.b) >= Surplus(s.a, s.b) && Surplus(t.b, t.a) >= Surplus(s.b, s.a)
  {
    var nr := s.a.snd.mode.weNR;
    match act
    case Top =>
      StartOffsets(s.a.snd);
      SenderSurplus(s.a, s.b, nr, S.Start(s.a.snd).tx, s.b.tx);
      OtherSurplus(s.b, s.a.rcv, s.a.tx, S.Start(s.a.snd).tx, s.b.tx);
    case SendEob =>
      SenderSurplus(s.a, s.b, nr, [MEob], s.b.tx);
      OtherSurplus(s.b, s.a.rcv, s.a.tx, [MEob], s.b.tx);
    case SendBlock(blk) =>
      var x := S.Block(s.a.snd, blk);
      assert |x.tx| <= 1 && x.s.mode == s.a.snd.mode && (x.tx != [] ==> x.tx[0].Data?);
      SenderSurplus(s.a, s.b, nr, x.tx, s.b.tx);
      OtherSurplus(s.b, s.a.rcv, s.a.tx, x.tx, s.b.tx);
    case Recv(fails) =>
      if IsAnswer(s.b.tx[0]) { AnswerSurplus(s, fails); } else { RecvSurplus(s, fails); }
    case _ =>
  }

  lemma OwnSends(s: Sys, t: Sys, tx: seq<Frame>)
    requires s.b.tx != [] && !s.b.tx[0].MGet? && |tx| <= 1 && (tx != [] ==> !tx[0].MFile?)
    requires t.a.snd == s.a.snd && t.a.tx == s.a.tx + tx && t.b == s.b.(tx := s.b.tx[1..])
    ensures Surplus(t.a, t.b) == Surplus(s.a, s.b)
  {
    TailSplit(s.a.tx, tx, s.a.snd.mode.weNR);
    HeadSplit(s.b.tx, s.a.snd.mode.weNR);
  }

  lemma OwnReceipt(s: Sys, fails: bool)
    requires Offsets(s.b, s.a) && Enabled(s.a, s.b.tx, Recv(fails)) && !IsAnswer(s.b.tx[0])
    ensures var t := StepA(s, Recv(fails)); Surplus(t.a, t.b) == Surplus(s.a, s.b)
  {
    var f := s.b.tx[0];
    match f
    case MFile(k, off, w) =>
      var x := R.File(s.a.rcv, k, off, w, fails);
      ReceiverSurplus(s.b, s.a, f, x, fails);
      OwnSends(s, StepA(s, Recv(fails)), x.tx);
    case MEob =>
      EobBalance(s.a.rcv);
      OwnSends(s, StepA(s, Recv(fails)), R.Eob(s.a.rcv).tx);
    case Data(bytes) =>
      DataBalance(s.a.rcv, bytes);
      OwnSends(s, StepA(s, Recv(fails)), R.Data(s.a.rcv, bytes).tx);
    case MErr => OwnSends(s, StepA(s, Recv(fails)), []);
  }

  /** Only an answer to M_GET changes the excess of the remote. */
  lemma OwnSurplus(s: Sys, act: Act)
    requires Offsets(s.b, s.a) && Enabled(s.a, s.b.tx, act)
    requires act.Top? ==> StatusInNR(s.a.snd)
    requires act.Recv? ==> !IsAnswer(s.b.tx[0])
    ensures var t := StepA(s, act); Surplus(t.a, t.b) == Surplus(s.a, s.b)
  {
    var nr := s.a.snd.mode.weNR;
    match act
    case Top =>
      StartOffsets(s.a.snd);
      TailSplit(s.a.tx, S.Start(s.a.snd).tx, nr);
    case SendEob => TailSplit(s.a.tx, [MEob], nr);
    case SendBlock(blk) => TailSplit(s.a.tx, S.Block(s.a.snd, blk).tx, nr);
    case Recv(fails) => OwnReceipt(s, fails);
    case _ =>
  }

  /** A step that at most takes a data block does not change the peer's own excess. */
  lemma HeardSurplus(s: Sys, act: Act)
    requires Enabled(s.a, s.b.tx, act)
    requires act.Top? ==> StatusInNR(s.a.snd)
    requires act.Recv? ==> s.b.tx[0].Data?
    ensures var t := StepA(s, act); Surplus(t.b, t.a) == Surplus(s.b, s.a)
  {
    var nr := s.b.snd.mode.weNR;
    match act
    case Top =>
      StartOffsets(s.a.snd);
      TailSplit(s.a.tx, S.Start(s.a.snd).tx, nr);
    case SendEob => TailSplit(s.a.tx, [MEob], nr);
    case SendBlock(blk) => TailSplit(s.a.tx, S.Block(s.a.snd, blk).tx, nr);
    case Recv(_) =>
      DataBalance(s.a.rcv, s.b.tx[0].bytes);
      TailSplit(s.a.tx, R.Data(s.a.rcv, s.b.tx[0].bytes).tx, nr);
      HeadSplit(s.b.tx, nr);
    case _ =>
  }

  // ---- every file in one place ----

  ghost predicate Fairs(s: Sys) {
    && Fair(s.a.snd, s.b.rcv, s.a.tx, s.b.tx)
    && Fair(s.b.snd, s.a.rcv, s.b.tx, s.a.tx)
  }

  /** Peer `a` moved its sending half to `u`, queued `tx` and left `rest`; the other direction does not notice. */
  lemma FairBySender(s: Sys, t: Sys, u: S.Snd, tx: seq<Frame>, rest: seq<Frame>)
    requires Fairs(s) && Fair(u, s.b.rcv, s.a.tx + tx, rest)
    requires t.a.snd == u && t.a.rcv == s.a.rcv && t.a.tx == s.a.tx + tx
    requires rest == s.b.tx || (s.b.tx != [] && rest == s.b.tx[1..] && IsAnswer(s.b.tx[0]))
    requires t.b == s.b.(tx := rest) && |tx| <= 1 && (tx != [] ==> !IsAnswer(tx[0]))
    ensures Fairs(t)
  {
    if rest != s.b.tx {
      OtherIn(s.b.snd, s.a.rcv, s.b.tx, s.a.tx);
    }
    if tx == [] {
      assert s.a.tx + tx == s.a.tx;
    } else {
      assert tx == [tx[0]];
      OtherBack(s.b.snd, s.a.rcv, rest, s.a.tx, tx[0]);
    }
  }

  /** Peer `a` moved its receiving half to `r` and queued `tx`. */
  lemma FairByReceiver(s: Sys, t: Sys, r: R.Rcv, tx: seq<Frame>)
    requires Fairs(s) && s.b.tx != [] && Fair(s.b.snd, r, s.b.tx[1..], s.a.tx + tx)
    requires t.a.snd == s.a.snd && t.a.rcv == r && t.a.tx == s.a.tx + tx && t.b == s.b.(tx := s.b.tx[1..])
    requires |tx| <= 1 && (tx != [] ==> IsAnswer(tx[0]) || tx[0].MErr?)
    ensures Fairs(t)
  {
    OtherTaken(s.a.snd, s.b.rcv, s.a.tx, s.b.tx);
    if tx == [] {
      assert s.a.tx + tx == s.a.tx;
    } else {
      assert tx == [tx[0]];
      OtherOut(s.a.snd, s.b.rcv, s.a.tx, s.b.tx[1..], tx[0]);
    }
  }

  lemma TookFair(s: Sys, t: Sys, x: S.Result)
    requires Fairs(s) && Took(s, t, x) && x.ok && IsAnswer(s.b.tx[0])
    requires match s.b.tx[0]
      case MGet(k, at) => x == S.Get(s.a.snd, k, at)
      case MGot(k) => x == S.Got(s.a.snd, k)
      case MSkip(k) => x == S.Skip(s.a.snd, k)
      case _ => false
    ensures Fairs(t)
  {
    assert Fair(x.s, s.b.rcv, s.a.tx + x.tx, s.b.tx[1..]) by {
      assert s.a.tx + [] == s.a.tx;
      match s.b.tx[0] {
        case MGet(_, _) => GetFair(s.a.snd, s.b.rcv, s.a.tx, s.b.tx);
        case MGot(_) => GotFair(s.a.snd, s.b.rcv, s.a.tx, s.b.tx);
        case MSkip(_) => SkipFair(s.a.snd, s.b.rcv, s.a.tx, s.b.tx);
      }
    }
    FairBySender(s, t, x.s, x.tx, s.b.tx[1..]);
  }

  lemma FairAnswer(s: Sys, fails: bool)
    requires Fairs(s) && Enabled(s.a, s.b.tx, Recv(fails)) && IsAnswer(s.b.tx[0])
    requires StepA(s, Recv(fails)).a.bat.live
    ensures Fairs(StepA(s, Recv(fails)))
  {
    var x := AnswerIs(s, fails);
    TookFair(s, StepA(s, Recv(fails)), x);
  }

  lemma FairFile(s: Sys, fails: bool)
    requires Fairs(s) && Offsets(s.b, s.a) && Surplus(s.b, s.a) >= 0
    requires Enabled(s.a, s.b.tx, Recv(fails)) && s.b.tx[0].MFile?
    requires StepA(s, Recv(fails)).a.bat.live
    ensures var t := StepA(s, Recv(fails)); Fairs(t) || Surplus(t.b, t.a) >= 1
  {
    var f := s.b.tx[0];
    var x := R.File(s.a.rcv, f.k, f.off, f.farewell, fails);
    var t := StepA(s, Recv(fails));
    assert x.ok && t.a.snd == s.a.snd && t.a.rcv == x.r && t.a.tx == s.a.tx + x.tx && t.b == s.b.(tx := s.b.tx[1..]);
    assert |x.tx| <= 1 && (x.tx != [] ==> IsAnswer(x.tx[0]) || x.tx[0].MErr?)
      && (x.tx != [] && IsReply(f, s.b.snd.mode.weNR) ==> Surplus(t.b, t.a) >= 1) by {
      ReceiverSurplus(s.b, s.a, f, x, fails);
    }
    assert Fair(s.b.snd, x.r, s.b.tx[1..], s.a.tx + x.tx) || (IsReply(f, s.b.snd.mode.weNR) && x.tx != []) by {
      FileFair(s.b.snd, s.a.rcv, s.b.tx, s.a.tx, fails);
    }
    if !(IsReply(f, s.b.snd.mode.weNR) && x.tx != []) {
      FairByReceiver(s, t, x.r, x.tx);
    }
  }

  lemma FairData(s: Sys, fails: bool)
    requires Fairs(s) && Enabled(s.a, s.b.tx, Recv(fails)) && s.b.tx[0].Data?
    requires StepA(s, Recv(fails)).a.bat.live
    ensures Fairs(StepA(s, Recv(fails)))
  {
    var x := R.Data(s.a.rcv, s.b.tx[0].bytes);
    DataBalance(s.a.rcv, s.b.tx[0].bytes);
    DataFair(s.b.snd, s.a.rcv, s.b.tx, s.a.tx);
    FairByReceiver(s, StepA(s, Recv(fails)), x.r, x.tx);
  }

  lemma FairEob(s: Sys, fails: bool)
    requires Fairs(s) && Enabled(s.a, s.b.tx, Recv(fails)) && s.b.tx[0].MEob?
    requires StepA(s, Recv(fails)).a.bat.live
    ensures Fairs(StepA(s, Recv(fails)))
  {
    var x := R.Eob(s.a.rcv);
    EobBalance(s.a.rcv);
    EobFair(s.b.snd, s.a.rcv, s.b.tx, s.a.tx);
    FairByReceiver(s, StepA(s, Recv(fails)), x.r, x.tx);
  }

  /** A step of `a` that does not stop it keeps every file in one place, or leaves `a` with an excess. */
  lemma FairAct(s: Sys, act: Act)
    requires Fairs(s) && Offsets(s.b, s.a) && Surplus(s.b, s.a) >= 0
    requires Enabled(s.a, s.b.tx, act) && CleanStep(s.a, act) && StepA(s, act).a.bat.live
    requires act.EndBatch? ==> s.a.snd.out.None?
    requires act.Recv? ==> !s.b.tx[0].MErr?
    ensures var t := StepA(s, act); Fairs(t) || Surplus(t.b, t.a) >= 1
  {
    match act
    case Top =>
      StartFair(s.a.snd, s.b.rcv, s.a.tx, s.b.tx);
      StartOffsets(s.a.snd);
      FairBySender(s, StepA(s, act), S.Start(s.a.snd).s, S.Start(s.a.snd).tx, s.b.tx);
    case SendEob =>
      OtherOut(s.a.snd, s.b.rcv, s.a.tx, s.b.tx, MEob);
      FairBySender(s, StepA(s, act), s.a.snd, [MEob], s.b.tx);
    case SendBlock(blk) =>
      BlockFair(s.a.snd, s.b.rcv, s.a.tx, s.b.tx, blk);
      BlockHeld(s.a.snd, blk, Key("", 0, 0));
      FairBySender(s, StepA(s, act), S.Block(s.a.snd, blk).s, S.Block(s.a.snd, blk).tx, s.b.tx);
    case Recv(fails) =>
      if s.b.tx[0].MFile? { FairFile(s, fails); }
      else if s.b.tx[0].Data? { FairData(s, fails); }
      else if s.b.tx[0].MEob? { FairEob(s, fails); }
      else { FairAnswer(s, fails); }
    case _ => FairQuiet(s, act);
  }

  lemma FairQuiet(s: Sys, act: Act)
    requires Fairs(s) && Enabled(s.a, s.b.tx, act)
    requires act.EndBatch? || act.Enqueue? || act.Take? || act.Stop?
    requires act.EndBatch? ==> s.a.snd.out.None?
    ensures Fairs(StepA(s, act))
  {
    var t := StepA(s, act);
    assert forall k :: Held(t.a.snd, k) == Held(s.a.snd, k);
    Moved(t.a.snd, s.a.snd, s.b.rcv, s.a.tx, s.b.tx, s.b.tx);
    assert s.a.rcv.inn.Some? ==> R.Part(t.a.rcv, s.a.rcv.inn.value.k) == R.Part(s.a.rcv, s.a.rcv.inn.value.k);
  }

  // ---- the batches of the two peers ----

  function Bit(b: bool): nat { if b then 1 else 0 }

  /** No M_FILE behind an M_EOB; `seen` says that one was already received. */
  predicate FilesFirst(fs: seq<Frame>, seen: bool)
    decreases fs
  {
    fs != [] ==> (fs[0].MFile? ==> !seen) && FilesFirst(fs[1..], seen || fs[0].MEob?)
  }

  lemma {:induction false} FilesFirstSplit(xs: seq<Frame>, ys: seq<Frame>, seen: bool)
    ensures FilesFirst(xs + ys, seen) <==> FilesFirst(xs, seen) && FilesFirst(ys, seen || Eobs(xs) > 0)
    decreases xs
  {
    if xs == [] {
      assert xs + ys == ys;
    } else {
      FilesFirstSplit(xs[1..], ys, seen || xs[0].MEob?);
      assert (xs + ys)[1..] == xs[1..] + ys;
    }
  }

  lemma {:induction false} NoFilesLeft(fs: seq<Frame>)
    requires FilesFirst(fs, true)
    ensures forall f :: f in fs ==> !f.MFile?
    ensures forall nr :: Replies(fs, nr) == 0
  {
    if fs != [] {
      NoFilesLeft(fs[1..]);
    }
  }

  lemma {:induction false} OnlyData(fs: seq<Frame>)
    ensures Msgs(fs) == 0 <==> forall f :: f in fs ==> f.Data?
    ensures Msgs(fs) == 0 ==> Eobs(fs) == 0 && Gets(fs) == 0 && FilesFirst(fs, true) && FilesFirst(fs, false)
    ensures forall nr :: Msgs(fs) == 0 ==> Replies(fs, nr) == 0
  {
    if fs != [] {
      OnlyData(fs[1..]);
    }
  }

  /** What is left of a batch when its sender has ended it: data, farewells, and the M_EOB. */
  ghost predicate Passing(fs: seq<Frame>) {
    forall f :: f in fs ==> f.Data? || f.MEob? || (f.MFile? && f.farewell)
  }

  /** Once it has sent M_EOB a peer holds no file. */
  ghost predicate Idle(p: Peer) {
    p.bat.localEOB ==> p.snd.out.None? && p.snd.sent == []
  }

  ghost predicate HalfLevel(a: Peer, b: Peer) {
    && a.bat.live
    && Eobs(a.tx) + Bit(b.bat.remoteEOB) == Bit(a.bat.localEOB)
    && FilesFirst(a.tx, b.bat.remoteEOB)
    && (b.bat.remoteEOB ==> b.rcv.inn.None?)
    && MErr !in a.tx
  }

  /** Both peers are in the same batch. */
  ghost predicate Level(a: Peer, b: Peer) {
    && |a.bat.ends| == |b.bat.ends|
    && a.bat.msgs + Msgs(b.tx) == b.bat.msgs + Msgs(a.tx)
    && HalfLevel(a, b) && HalfLevel(b, a)
  }

  /** Peer `a` has ended the batch that `b` is still in; the first `n` frames in flight belong to that batch. */
  ghost predicate Ahead(a: Peer, b: Peer, n: nat) {
    && n <= |a.tx|
    && |a.bat.ends| == |b.bat.ends| + 1
    && var pre, post := a.tx[..n], a.tx[n..];
    && a.bat.ends[|b.bat.ends|] == b.bat.msgs + Msgs(pre)
    && Msgs(b.tx) == 0 && MErr !in a.tx && b.bat.localEOB && a.rcv.inn.None?
    && Eobs(pre) + Bit(b.bat.remoteEOB) == 1
    && (b.bat.remoteEOB ==> Msgs(pre) == 0 && b.rcv.inn.None?)
    && FilesFirst(pre, b.bat.remoteEOB) && Passing(pre)
    && (b.rcv.inn.Some? ==> b.rcv.inn.value.farewell)
    && Replies(post, a.snd.mode.weNR) == 0
    && (a.bat.live ==>
          && !a.bat.remoteEOB && a.bat.msgs == Msgs(post)
          && Eobs(post) == Bit(a.bat.localEOB) && FilesFirst(post, false))
  }

  ghost predicate Clear(s: Sys) {
    && Fairs(s) && Idle(s.a) && Idle(s.b)
    && Surplus(s.a, s.b) == 0 && Surplus(s.b, s.a) == 0
    && (Level(s.a, s.b) || (exists n: nat :: Ahead(s.a, s.b, n)) || (exists n: nat :: Ahead(s.b, s.a, n)))
  }

  /** Peer `b` will end no more batches, and `a` has ended as many. */
  ghost predicate Over(a: Peer, b: Peer) {
    |a.bat.ends| >= |b.bat.ends| && (Surplus(a, b) >= 1 || !b.bat.live)
  }

  ghost predicate Agree(x: seq<nat>, y: seq<nat>) {
    forall i :: 0 <= i < |x| && i < |y| ==> x[i] == y[i]
  }

  ghost predicate Inv(s: Sys) {
    && Agree(s.a.bat.ends, s.b.bat.ends)
    && Offsets(s.a, s.b) && Offsets(s.b, s.a)
    && Surplus(s.a, s.b) >= 0 && Surplus(s.b, s.a) >= 0
    && (Clear(s) || Over(s.a, s.b) || Over(s.b, s.a))
  }

  // ---- in the same batch ----

  /** Nobody holds anything: no answer is on its way and only farewells are. */
  lemma NothingOwed(s: S.Snd, r: R.Rcv, ab: seq<Frame>, ba: seq<Frame>)
    requires Fair(s, r, ab, ba) && s.out.None? && s.sent == []
    ensures forall f :: f in ab && f.MFile? ==> f.farewell
    ensures forall f :: f in ba ==> !IsAnswer(f)
    ensures r.inn.Some? ==> r.inn.value.farewell
  {
    forall f | f in ab && f.MFile? ensures f.farewell {
      assert Places(r, ab, ba, f.k) <= Held(s, f.k) == 0;
      Occurs(ab, f, false);
    }
    forall f | f in ba && IsAnswer(f) ensures false {
      assert Places(r, ab, ba, f.k) <= Held(s, f.k) == 0;
      Occurs(ba, f, false);
    }
    if r.inn.Some? {
      assert Places(r, ab, ba, r.inn.value.k) <= Held(s, r.inn.value.k) == 0;
    }
  }

  lemma NoEob(fs: seq<Frame>)
    requires Eobs(fs) == 0
    ensures MEob !in fs
  {
    if MEob in fs { Occurs(fs, MEob, false); }
  }

  /** Peer `a` ends its batch first. Everything it announced is answered, so `b` will count just what is in flight. */
  lemma LevelEnds(s: Sys, more: seq<S.Entry>)
    requires Fairs(s) && Idle(s.a) && Idle(s.b) && Level(s.a, s.b)
    requires Enabled(s.a, s.b.tx, EndBatch(more))
    ensures var t := StepA(s, EndBatch(more)); Ahead(t.a, t.b, |t.a.tx|)
  {
    var t := StepA(s, EndBatch(more));
    NothingOwed(s.a.snd, s.b.rcv, s.a.tx, s.b.tx);
    NothingOwed(s.b.snd, s.a.rcv, s.b.tx, s.a.tx);
    NoFilesLeft(s.b.tx);
    NoEob(s.b.tx);
    OnlyData(s.b.tx);
    OnlyData(s.a.tx);
    assert s.a.tx[..|s.a.tx|] == s.a.tx && s.a.tx[|s.a.tx|..] == [];
    if s.b.bat.remoteEOB {
      NoFilesLeft(s.a.tx);
      NoEob(s.a.tx);
    }
  }

  /** The counts after `a` queued `tx`. */
  lemma LevelSends(s: Sys, t: Sys, tx: seq<Frame>)
    requires Level(s.a, s.b) && |tx| <= 1
    requires t.a.tx == s.a.tx + tx && t.a.bat == s.a.bat.(msgs := s.a.bat.msgs + Msgs(tx), localEOB := t.a.bat.localEOB)
    requires t.a.rcv == s.a.rcv && t.b == s.b
    requires tx != [] ==> !tx[0].MErr?
    requires if tx != [] && tx[0].MEob? then !s.a.bat.localEOB && t.a.bat.localEOB
      else t.a.bat.localEOB == s.a.bat.localEOB
    requires tx != [] && tx[0].MFile? ==> !s.a.bat.localEOB
    ensures Level(t.a, t.b)
  {
    TailSplit(s.a.tx, tx, false);
    FilesFirstSplit(s.a.tx, tx, s.b.bat.remoteEOB);
  }

  /** The counts after `a` consumed the first frame and queued `tx`. */
  lemma LevelReceives(s: Sys, t: Sys, tx: seq<Frame>)
    requires Level(s.a, s.b) && |tx| <= 1 && s.b.tx != []
    requires t.a.tx == s.a.tx + tx && t.b == s.b.(tx := s.b.tx[1..])
    requires t.a.bat == s.a.bat.(
      msgs := s.a.bat.msgs + Msgs(tx) + (if s.b.tx[0].Data? then 0 else 1),
      remoteEOB := s.a.bat.remoteEOB || s.b.tx[0].MEob?)
    requires tx != [] ==> IsAnswer(tx[0]) || (tx[0].MFile? && !s.a.bat.localEOB)
    requires if s.b.tx[0].MFile? then true
      else if s.b.tx[0].MEob? then t.a.rcv.inn.None?
      else s.a.rcv.inn.None? ==> t.a.rcv.inn.None?
    ensures Level(t.a, t.b)
  {
    TailSplit(s.a.tx, tx, false);
    HeadSplit(s.b.tx, false);
    FilesFirstSplit(s.a.tx, tx, s.b.bat.remoteEOB);
    assert s.b.tx == [s.b.tx[0]] + s.b.tx[1..];
  }

  lemma LevelTook(s: Sys, t: Sys, x: S.Result)
    requires Fairs(s) && Idle(s.a) && Level(s.a, s.b) && Took(s, t, x) && x.ok && IsAnswer(s.b.tx[0])
    ensures Level(t.a, t.b) && Idle(t.a)
  {
    assert !s.a.bat.localEOB by { Answered(s.a.snd, s.b.rcv, s.a.tx, s.b.tx); }
    LevelReceives(s, t, x.tx);
  }

  lemma LevelAnswer(s: Sys, fails: bool)
    requires Fairs(s) && Idle(s.a) && Level(s.a, s.b)
    requires Enabled(s.a, s.b.tx, Recv(fails)) && IsAnswer(s.b.tx[0]) && StepA(s, Recv(fails)).a.bat.live
    ensures var t := StepA(s, Recv(fails)); Level(t.a, t.b) && Idle(t.a)
  {
    var x := AnswerIs(s, fails);
    LevelTook(s, StepA(s, Recv(fails)), x);
  }

  lemma LevelFile(s: Sys, fails: bool)
    requires Fairs(s) && Idle(s.a) && Level(s.a, s.b)
    requires Enabled(s.a, s.b.tx, Recv(fails)) && s.b.tx[0].MFile? && StepA(s, Recv(fails)).a.bat.live
    ensures var t := StepA(s, Recv(fails)); Level(t.a, t.b) && Idle(t.a)
  {
    var f := s.b.tx[0];
    var x := R.File(s.a.rcv, f.k, f.off, f.farewell, fails);
    var t := StepA(s, Recv(fails));
    assert t.a.snd == s.a.snd && t.a.tx == s.a.tx + x.tx && t.b == s.b.(tx := s.b.tx[1..])
      && t.a.bat == s.a.bat.(msgs := s.a.bat.msgs + Msgs(x.tx) + 1) && x.ok;
    assert |x.tx| <= 1 && (x.tx != [] ==> IsAnswer(x.tx[0])) by {
      assert f in s.b.tx;
      FileBalance(s.a.rcv, f.k, f.off, f.farewell, fails);
    }
    LevelReceives(s, t, x.tx);
  }

  /** Peer `a` took a frame with its receiving half, with the result `x`. */
  ghost predicate Received(s: Sys, t: Sys, x: R.Result) {
    && s.b.tx != [] && t.b == s.b.(tx := s.b.tx[1..])
    && t.a.snd == s.a.snd && t.a.rcv == x.r && t.a.tx == s.a.tx + x.tx
    && t.a.bat == s.a.bat.(
      msgs := s.a.bat.msgs + Msgs(x.tx) + (if s.b.tx[0].Data? then 0 else 1), live := x.ok,
      remoteEOB := s.a.bat.remoteEOB || s.b.tx[0].MEob?)
  }

  lemma EobIs(s: Sys, fails: bool)
    requires Enabled(s.a, s.b.tx, Recv(fails)) && s.b.tx[0].MEob?
    ensures Received(s, StepA(s, Recv(fails)), R.Eob(s.a.rcv))
  {
  }

  lemma DataIs(s: Sys, fails: bool)
    requires Enabled(s.a, s.b.tx, Recv(fails)) && s.b.tx[0].Data?
    ensures Received(s, StepA(s, Recv(fails)), R.Data(s.a.rcv, s.b.tx[0].bytes))
  {
  }

  lemma LevelEob(s: Sys, t: Sys)
    requires Idle(s.a) && Level(s.a, s.b) && s.b.tx != [] && s.b.tx[0].MEob?
    requires Received(s, t, R.Eob(s.a.rcv)) && t.a.bat.live
    ensures Level(t.a, t.b) && Idle(t.a)
  {
    EobBalance(s.a.rcv);
    assert s.a.tx + [] == s.a.tx;
    LevelReceives(s, t, []);
  }

  lemma LevelData(s: Sys, t: Sys)
    requires Idle(s.a) && Level(s.a, s.b) && s.b.tx != [] && s.b.tx[0].Data?
    requires Received(s, t, R.Data(s.a.rcv, s.b.tx[0].bytes)) && t.a.bat.live
    ensures Level(t.a, t.b) && Idle(t.a)
  {
    DataBalance(s.a.rcv, s.b.tx[0].bytes);
    LevelReceives(s, t, R.Data(s.a.rcv, s.b.tx[0].bytes).tx);
  }

  lemma LevelRecv(s: Sys, fails: bool)
    requires Fairs(s) && Idle(s.a) && Level(s.a, s.b)
    requires Enabled(s.a, s.b.tx, Recv(fails)) && !IsAnswer(s.b.tx[0]) && StepA(s, Recv(fails)).a.bat.live
    ensures var t := StepA(s, Recv(fails)); Level(t.a, t.b) && Idle(t.a)
  {
    var f := s.b.tx[0];
    var t := StepA(s, Recv(fails));
    assert f in s.b.tx;
    match f
    case MFile(k, off, w) => LevelFile(s, fails);
    case MEob =>
      EobIs(s, fails);
      LevelEob(s, t);
    case Data(bytes) =>
      DataIs(s, fails);
      LevelData(s, t);
  }

  lemma LevelBlock(s: Sys, blk: nat)
    requires Fairs(s) && Idle(s.a) && Level(s.a, s.b)
    requires Enabled(s.a, s.b.tx, SendBlock(blk)) && StepA(s, SendBlock(blk)).a.bat.live
    ensures var t := StepA(s, SendBlock(blk)); Level(t.a, t.b) && Idle(t.a)
  {
    var x := S.Block(s.a.snd, blk);
    assert |x.tx| == 1 && x.tx[0].Data? by { BlockHeld(s.a.snd, blk, Key("", 0, 0)); }
    LevelSends(s, StepA(s, SendBlock(blk)), x.tx);
  }

  /** In the same batch, any step of `a` but the last. */
  lemma LevelAct(s: Sys, act: Act)
    requires Fairs(s) && Idle(s.a) && Level(s.a, s.b)
    requires Enabled(s.a, s.b.tx, act) && !act.EndBatch? && StepA(s, act).a.bat.live
    ensures var t := StepA(s, act); Level(t.a, t.b) && Idle(t.a)
  {
    match act
    case Top =>
      StartTx(s.a.snd);
      LevelSends(s, StepA(s, act), S.Start(s.a.snd).tx);
    case SendEob =>
      LevelSends(s, StepA(s, act), [MEob]);
    case SendBlock(blk) => LevelBlock(s, blk);
    case Recv(fails) =>
      if IsAnswer(s.b.tx[0]) { LevelAnswer(s, fails); } else { LevelRecv(s, fails); }
    case _ =>
  }

  lemma StartTx(s: S.Snd)
    requires S.CanStart(s)
    ensures |S.Start(s).tx| <= 1 && (S.Start(s).tx != [] ==> S.Start(s).tx[0].MFile?) && S.Start(s).ok
  {
  }

  // ---- one batch apart ----

  /** The peer that is behind has nothing left to do but to take what belongs to its batch: with nothing of it
      left, its batch is over. */
  lemma BehindOver(a: Peer, b: Peer, n: nat)
    requires Ahead(a, b, n) && Idle(b) && Surplus(a, b) == 0 && n == 0
    ensures BatchOver(b)
  {
    assert a.tx[..0] == [] && a.tx[0..] == a.tx;
    OnlyData(b.tx);
  }

  /** Peer `a` is behind and takes a frame. */
  lemma BehindRecv(s: Sys, n: nat, fails: bool)
    requires Fairs(s) && Idle(s.a) && Ahead(s.b, s.a, n) && Offsets(s.b, s.a) && Surplus(s.b, s.a) == 0
    requires Enabled(s.a, s.b.tx, Recv(fails)) && StepA(s, Recv(fails)).a.bat.live
    ensures var t := StepA(s, Recv(fails));
      n > 0 && (Surplus(t.b, t.a) >= 1 || (Ahead(t.b, t.a, n - 1) && t.a.bat.localEOB && t.a.snd == s.a.snd))
  {
    if n == 0 {
      BehindOver(s.b, s.a, n);
    } else {
      var f := s.b.tx[0];
      var t := StepA(s, Recv(fails));
      assert f == s.b.tx[..n][0] && f in s.b.tx[..n];
      var x := if f.MFile? then R.File(s.a.rcv, f.k, f.off, f.farewell, fails)
               else if f.MEob? then R.Eob(s.a.rcv) else R.Data(s.a.rcv, f.bytes);
      assert t.a.rcv == x.r && t.a.tx == s.a.tx + x.tx && x.ok && t.a.snd == s.a.snd && t.b == s.b.(tx := s.b.tx[1..])
        && (x.tx == [] ==> t.a.bat == s.a.bat.(msgs := s.a.bat.msgs + (if f.Data? then 0 else 1),
            remoteEOB := s.a.bat.remoteEOB || f.MEob?));
      BehindTakes(s, f, x, fails);
      if Surplus(t.b, t.a) < 1 {
        BehindTook(s, t, n, f);
      }
    }
  }

  lemma BehindTook(s: Sys, t: Sys, n: nat, f: Frame)
    requires Ahead(s.b, s.a, n) && n > 0 && f == s.b.tx[0]
    requires t.a.tx == s.a.tx + [] && t.b == s.b.(tx := s.b.tx[1..]) && t.a.snd == s.a.snd
    requires t.a.bat == s.a.bat.(msgs := s.a.bat.msgs + (if f.Data? then 0 else 1),
      remoteEOB := s.a.bat.remoteEOB || f.MEob?)
    requires t.a.rcv.inn.Some? ==> t.a.rcv.inn.value.farewell
    requires f.MEob? ==> t.a.rcv.inn.None?
    requires f.Data? && s.a.rcv.inn.None? ==> t.a.rcv.inn.None?
    ensures Ahead(t.b, t.a, n - 1)
  {
    var pre := s.b.tx[..n];
    assert f == pre[0] && s.a.tx + [] == s.a.tx;
    assert t.b.tx[..n - 1] == pre[1..] && t.b.tx[n - 1..] == s.b.tx[n..];
    HeadSplit(pre, false);
    OnlyData(pre[1..]);
    if f.MEob? {
      NoFilesLeft(pre[1..]);
      NoEob(pre[1..]);
    }
  }

  /** What is taken from the old batch is answered only at the price of an excess. */
  lemma BehindTakes(s: Sys, f: Frame, x: R.Result, fails: bool)
    requires Fairs(s) && Offsets(s.b, s.a) && Surplus(s.b, s.a) == 0
    requires s.b.tx != [] && f == s.b.tx[0] && (s.a.rcv.inn.Some? ==> s.a.rcv.inn.value.farewell)
    requires x.ok
    requires match f
      case MFile(k, off, w) => w && x == R.File(s.a.rcv, k, off, w, fails)
      case MEob => x == R.Eob(s.a.rcv)
      case Data(bytes) => x == R.Data(s.a.rcv, bytes)
      case _ => false
    ensures Excess(s.b.snd.mode.weNR, x.r, s.b.tx[1..], s.a.tx + x.tx) >= 1 || x.tx == []
    ensures x.tx == [] ==> (x.r.inn.Some? ==> x.r.inn.value.farewell)
    ensures f.MEob? ==> x.r.inn.None?
    ensures f.Data? && s.a.rcv.inn.None? ==> x.r.inn.None?
  {
    ReceiverSurplus(s.b, s.a, f, x, fails);
    assert f in s.b.tx;
    match f
    case MFile(k, off, w) =>
      FileBalance(s.a.rcv, k, off, w, fails);
    case MEob =>
      EobBalance(s.a.rcv);
    case Data(bytes) =>
      DataFair(s.b.snd, s.a.rcv, s.b.tx, s.a.tx);
      DataBalance(s.a.rcv, bytes);
  }

  lemma BehindTaken(s: Sys, n: nat, fails: bool)
    requires Idle(s.a) && Ahead(s.b, s.a, n) && Surplus(s.b, s.a) == 0 && Enabled(s.a, s.b.tx, Recv(fails))
    ensures !IsAnswer(s.b.tx[0])
  {
    if n == 0 {
      BehindOver(s.b, s.a, n);
    } else {
      assert s.b.tx[0] in s.b.tx[..n];
    }
  }

  /** Peer `a` is behind: any step but the end of its batch. */
  lemma BehindAct(s: Sys, n: nat, act: Act)
    requires Fairs(s) && Idle(s.a) && Ahead(s.b, s.a, n) && Offsets(s.b, s.a) && Surplus(s.b, s.a) == 0
    requires Enabled(s.a, s.b.tx, act) && !act.EndBatch? && StepA(s, act).a.bat.live
    ensures var t := StepA(s, act);
      Idle(t.a) && (Surplus(t.b, t.a) >= 1 || exists m: nat :: Ahead(t.b, t.a, m))
  {
    var t := StepA(s, act);
    match act
    case SendBlock(blk) =>
      BlockHeld(s.a.snd, blk, Key("", 0, 0));
      var x := S.Block(s.a.snd, blk);
      assert x.tx == [x.tx[0]];
      TailSplit(s.a.tx, x.tx, false);
      assert Ahead(t.b, t.a, n);
    case Recv(fails) =>
      BehindRecv(s, n, fails);
      if Surplus(t.b, t.a) < 1 {
        assert Ahead(t.b, t.a, n - 1);
      }
    case Enqueue(_) =>
      assert Ahead(t.b, t.a, n);
    case Take(_) =>
      assert Ahead(t.b, t.a, n);
    case _ =>
  }

  /** Peer `a` was behind and ends the batch: with the count of the other peer. */
  lemma BehindEnds(s: Sys, n: nat, more: seq<S.Entry>)
    requires Fairs(s) && Idle(s.a) && Ahead(s.b, s.a, n)
    requires Enabled(s.a, s.b.tx, EndBatch(more))
    ensures s.a.bat.msgs == s.b.bat.ends[|s.a.bat.ends|]
    ensures var t := StepA(s, EndBatch(more)); t.a.bat.live && t.b.bat.live ==> Level(t.a, t.b)
  {
    var t := StepA(s, EndBatch(more));
    var pre, post := s.b.tx[..n], s.b.tx[n..];
    assert s.b.tx == pre + post;
    Split(pre, post, false);
    FilesFirstSplit(pre, post, false);
    OnlyData(pre);
    OnlyData(s.a.tx);
  }

  /** Peer `a` is ahead: no step of it touches the old batch. */
  lemma AheadBlock(s: Sys, n: nat, blk: nat)
    requires Fairs(s) && Idle(s.a) && Ahead(s.a, s.b, n) && Enabled(s.a, s.b.tx, SendBlock(blk))
    ensures var t := StepA(s, SendBlock(blk)); Ahead(t.a, t.b, n) && Idle(t.a)
  {
    var x := S.Block(s.a.snd, blk);
    assert |x.tx| <= 1 && (x.tx != [] ==> x.tx[0].Data?);
    if s.a.bat.localEOB { BlockIdle(s.a.snd, blk); }
    AheadSends(s, StepA(s, SendBlock(blk)), n, x.tx);
  }

  lemma AheadRecv(s: Sys, n: nat, fails: bool)
    requires Idle(s.a) && Ahead(s.a, s.b, n) && Enabled(s.a, s.b.tx, Recv(fails))
    ensures var t := StepA(s, Recv(fails)); Ahead(t.a, t.b, n) && Idle(t.a)
  {
    OnlyData(s.b.tx);
    OnlyData(s.b.tx[1..]);
    assert s.b.tx[0].Data?;
    DataIs(s, fails);
    DataBalance(s.a.rcv, s.b.tx[0].bytes);
    assert s.a.tx + [] == s.a.tx;
  }

  lemma AheadAct(s: Sys, n: nat, act: Act)
    requires Fairs(s) && Idle(s.a) && Ahead(s.a, s.b, n)
    requires Enabled(s.a, s.b.tx, act) && (act.Top? ==> StatusInNR(s.a.snd))
    ensures var t := StepA(s, act); Ahead(t.a, t.b, n) && Idle(t.a) && !act.EndBatch?
  {
    var t := StepA(s, act);
    match act
    case Top =>
      StartOffsets(s.a.snd);
      AheadSends(s, t, n, S.Start(s.a.snd).tx);
    case SendEob =>
      AheadSends(s, t, n, [MEob]);
    case SendBlock(blk) => AheadBlock(s, n, blk);
    case Recv(fails) => AheadRecv(s, n, fails);
    case _ =>
  }

  lemma BlockIdle(s: S.Snd, blk: nat)
    requires S.CanBlock(s) && s.out.None? && s.sent == []
    ensures S.Block(s, blk).s.out.None? && S.Block(s, blk).s.sent == []
  {
  }

  lemma AheadSends(s: Sys, t: Sys, n: nat, tx: seq<Frame>)
    requires Ahead(s.a, s.b, n) && s.a.bat.live && |tx| <= 1
    requires t.a.tx == s.a.tx + tx && t.a.rcv == s.a.rcv && t.b == s.b && t.a.snd.mode == s.a.snd.mode
    requires t.a.bat == s.a.bat.(msgs := s.a.bat.msgs + Msgs(tx), localEOB := t.a.bat.localEOB, live := t.a.bat.live)
    requires tx != [] ==>
      tx[0].MEob? || tx[0].Data? || (tx[0].MFile? && !s.a.bat.localEOB && !IsReply(tx[0], s.a.snd.mode.weNR))
    requires if tx != [] && tx[0].MEob? then !s.a.bat.localEOB && t.a.bat.localEOB
      else t.a.bat.localEOB == s.a.bat.localEOB
    ensures Ahead(t.a, t.b, n)
  {
    var post := s.a.tx[n..];
    assert t.a.tx[..n] == s.a.tx[..n] && t.a.tx[n..] == post + tx;
    TailSplit(post, tx, s.a.snd.mode.weNR);
    FilesFirstSplit(post, tx, false);
  }

  // ---- every step ----

  /** Peer `a` is ahead and stops before the end of its batch. */
  lemma AheadStops(s: Sys, n: nat, act: Act)
    requires Fairs(s) && Ahead(s.a, s.b, n)
    requires Enabled(s.a, s.b.tx, act) && !act.EndBatch? && !StepA(s, act).a.bat.live
    ensures Fairs(StepA(s, act))
  {
    var t := StepA(s, act);
    match act
    case SendBlock(blk) =>
      assert s.a.tx + [] == s.a.tx;
      assert t.a.snd == s.a.snd && t.a.tx == s.a.tx;
    case Recv(_) =>
      OnlyData(s.b.tx);
    case Stop => FairQuiet(s, act);
    case Take(_) => FairQuiet(s, act);
    case _ =>
  }

  /** Only the end of a batch is recorded as one. */
  lemma EndsKept(s: Sys, act: Act)
    requires Enabled(s.a, s.b.tx, act) && !act.EndBatch?
    ensures var t := StepA(s, act); t.a.bat.ends == s.a.bat.ends && t.b.bat == s.b.bat
  {
  }

  lemma ClearLevel(s: Sys, act: Act)
    requires Clear(s) && Level(s.a, s.b) && Offsets(s.a, s.b) && Offsets(s.b, s.a)
    requires Enabled(s.a, s.b.tx, act) && CleanStep(s.a, act) && !act.EndBatch?
    requires var t := StepA(s, act); Surplus(t.a, t.b) >= 0 && Surplus(t.b, t.a) >= 0
    ensures var t := StepA(s, act); Clear(t) || Over(t.a, t.b) || Over(t.b, t.a)
  {
    var t := StepA(s, act);
    EndsKept(s, act);
    if t.a.bat.live {
      assert act.Recv? ==> s.b.tx[0] in s.b.tx;
      assert Fairs(t) || Surplus(t.b, t.a) >= 1 by { FairAct(s, act); }
      assert Level(t.a, t.b) && Idle(t.a) by { LevelAct(s, act); }
      assert Idle(t.b);
    }
  }

  lemma ClearBehind(s: Sys, act: Act, n: nat)
    requires Clear(s) && Ahead(s.b, s.a, n) && Offsets(s.a, s.b) && Offsets(s.b, s.a)
    requires Enabled(s.a, s.b.tx, act) && CleanStep(s.a, act) && !act.EndBatch?
    requires var t := StepA(s, act); Surplus(t.a, t.b) >= 0 && Surplus(t.b, t.a) >= 0
    ensures var t := StepA(s, act); Clear(t) || Over(t.a, t.b) || Over(t.b, t.a)
  {
    var t := StepA(s, act);
    EndsKept(s, act);
    if t.a.bat.live {
      assert act.Recv? ==> s.b.tx[0] in s.b.tx;
      assert Fairs(t) || Surplus(t.b, t.a) >= 1 by { FairAct(s, act); }
      assert Idle(t.a) && (Surplus(t.b, t.a) >= 1 || exists m: nat :: Ahead(t.b, t.a, m)) by { BehindAct(s, n, act); }
      assert Surplus(t.a, t.b) == 0 by {
        if act.Recv? { BehindTaken(s, n, act.openFails); }
        OwnSurplus(s, act);
      }
      assert Idle(t.b);
    }
  }

  lemma ClearAhead(s: Sys, act: Act, n: nat)
    requires Clear(s) && Ahead(s.a, s.b, n) && Offsets(s.a, s.b) && Offsets(s.b, s.a)
    requires Enabled(s.a, s.b.tx, act) && CleanStep(s.a, act) && !act.EndBatch?
    requires var t := StepA(s, act); Surplus(t.a, t.b) >= 0 && Surplus(t.b, t.a) >= 0
    ensures var t := StepA(s, act); Clear(t) || Over(t.a, t.b) || Over(t.b, t.a)
  {
    var t := StepA(s, act);
    EndsKept(s, act);
    assert Ahead(t.a, t.b, n) && Idle(t.a) by { AheadAct(s, n, act); }
    assert Surplus(t.b, t.a) == 0 by {
      OnlyData(s.b.tx);
      HeardSurplus(s, act);
    }
    assert Idle(t.b);
    if t.a.bat.live {
      OnlyData(s.b.tx);
      assert Fairs(t) || Surplus(t.b, t.a) >= 1 by { FairAct(s, act); }
    } else {
      assert Fairs(t) by { AheadStops(s, n, act); }
    }
  }

  lemma ClearAct(s: Sys, act: Act)
    requires Clear(s) && Offsets(s.a, s.b) && Offsets(s.b, s.a)
    requires Enabled(s.a, s.b.tx, act) && CleanStep(s.a, act) && !act.EndBatch?
    requires var t := StepA(s, act); Surplus(t.a, t.b) >= 0 && Surplus(t.b, t.a) >= 0
    ensures var t := StepA(s, act); Clear(t) || Over(t.a, t.b) || Over(t.b, t.a)
  {
    if Level(s.a, s.b) {
      ClearLevel(s, act);
    } else if n: nat :| Ahead(s.b, s.a, n) {
      ClearBehind(s, act, n);
    } else {
      var n: nat :| Ahead(s.a, s.b, n);
      ClearAhead(s, act, n);
    }
  }

  lemma ClearEnds(s: Sys, more: seq<S.Entry>)
    requires Clear(s) && Agree(s.a.bat.ends, s.b.bat.ends) && Offsets(s.a, s.b) && Offsets(s.b, s.a)
    requires Enabled(s.a, s.b.tx, EndBatch(more))
    ensures var t := StepA(s, EndBatch(more));
      Agree(t.a.bat.ends, t.b.bat.ends) && (Clear(t) || Over(t.a, t.b) || Over(t.b, t.a))
  {
    var t := StepA(s, EndBatch(more));
    ActSurplus(s, EndBatch(more));
    FairQuiet(s, EndBatch(more));
    if Level(s.a, s.b) {
      LevelEnds(s, more);
      assert Ahead(t.a, t.b, |t.a.tx|);
    } else if n: nat :| Ahead(s.b, s.a, n) {
      BehindEnds(s, n, more);
    }
  }

  /** A peer that will end no more batches stays so. */
  lemma OverAct(s: Sys, act: Act, t: Sys)
    requires Over(s.a, s.b) || Over(s.b, s.a)
    requires Enabled(s.a, s.b.tx, act) && t == StepA(s, act)
    requires Surplus(t.a, t.b) >= Surplus(s.a, s.b) && Surplus(t.b, t.a) >= Surplus(s.b, s.a) >= 0
    requires Agree(s.a.bat.ends, s.b.bat.ends)
    ensures Agree(t.a.bat.ends, t.b.bat.ends) && (Over(t.a, t.b) || Over(t.b, t.a))
  {
    assert t.b.bat == s.b.bat;
    assert t.a.bat.ends == s.a.bat.ends || (act.EndBatch? && t.a.bat.ends == s.a.bat.ends + [s.a.bat.msgs]);
    assert act.EndBatch? ==> !Over(s.b, s.a) || |s.a.bat.ends| < |s.b.bat.ends|;
  }

  lemma ClearAnyAct(s: Sys, act: Act, t: Sys)
    requires Clear(s) && Agree(s.a.bat.ends, s.b.bat.ends) && Offsets(s.a, s.b) && Offsets(s.b, s.a)
    requires Enabled(s.a, s.b.tx, act) && CleanStep(s.a, act) && t == StepA(s, act)
    requires Surplus(t.a, t.b) >= 0 && Surplus(t.b, t.a) >= 0
    ensures Agree(t.a.bat.ends, t.b.bat.ends) && (Clear(t) || Over(t.a, t.b) || Over(t.b, t.a))
  {
    if act.EndBatch? {
      ClearEnds(s, act.more);
    } else {
      ClearAct(s, act);
      EndsSame(s, act);
    }
  }

  lemma EndsSame(s: Sys, act: Act)
    requires Enabled(s.a, s.b.tx, act) && !act.EndBatch?
    ensures StepA(s, act).a.bat.ends == s.a.bat.ends && StepA(s, act).b.bat == s.b.bat
  {
  }

  lemma InvAct(s: Sys, act: Act)
    requires Inv(s) && Enabled(s.a, s.b.tx, act) && CleanStep(s.a, act)
    ensures Inv(StepA(s, act))
  {
    var t := StepA(s, act);
    ActSurplus(s, act);
    if Clear(s) {
      ClearAnyAct(s, act, t);
    } else {
      OverAct(s, act, t);
    }
  }

  lemma InvFlip(s: Sys)
    requires Inv(s)
    ensures Inv(Flip(s))
  {
  }

  lemma NextInv(s: Sys, l: Label, t: Sys)
    requires Inv(s) && Next(s, l, t)
    requires l.ActA? ==> CleanStep(s.a, l.act)
    requires l.ActB? ==> CleanStep(s.b, l.act)
    ensures Inv(t)
  {
    match l
    case ActA(act) => InvAct(s, act);
    case ActB(act) =>
      InvFlip(s);
      InvAct(Flip(s), act);
      InvFlip(StepA(Flip(s), act));
    case Again(qa, qb, nra, nda, nrb, ndb) => AgainInv(t, qa, qb, nra, nda, nrb, ndb);
  }

  /** Two peers at the start of a session. */
  ghost predicate NewSession(s: Sys) {
    exists p, q, qa, qb, nra, nda, nrb, ndb :: s == Sys(Fresh(p, qa, nra, nda, ndb), Fresh(q, qb, nrb, ndb, nda))
  }

  lemma AgainInv(s: Sys, qa: Option<seq<S.Entry>>, qb: Option<seq<S.Entry>>, nra: bool, nda: bool, nrb: bool, ndb: bool)
    requires exists p, q :: s == Sys(Fresh(p, qa, nra, nda, ndb), Fresh(q, qb, nrb, ndb, nda))
    ensures Inv(s)
  {
    assert Fairs(s) && Level(s.a, s.b);
  }

  // ---- all runs ----

  /** Batch agreement, in any state of any run whose steps are clean: the peers counted the same messages in every
      batch that both have ended, so both went on or both stopped. */
  lemma {:induction false} SameCounts(ss: seq<Sys>, ls: seq<Label>, i: nat)
    requires Run(ss, ls) && CleanRun(ss, ls)
    requires NewSession(ss[0]) && i < |ss|
    ensures Inv(ss[i])
    ensures Agree(ss[i].a.bat.ends, ss[i].b.bat.ends)
  {
    if i == 0 {
      var p, q, qa, qb, nra, nda, nrb, ndb :| ss[0] == Sys(Fresh(p, qa, nra, nda, ndb), Fresh(q, qb, nrb, ndb, nda));
      AgainInv(ss[0], qa, qb, nra, nda, nrb, ndb);
    } else {
      SameCounts(ss, ls, i - 1);
      NextInv(ss[i - 1], ls[i - 1], ss[i]);
    }
  }
}
