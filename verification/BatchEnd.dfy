/** What a peer that ends a batch knows: every file it offered was answered. And what two peers that end a batch
    share: they both stop, or both go on. */
module BatchEnd {
  import opened Options
  import opened Frames
  import S = Sender
  import opened Session
  import opened Tokens
  import opened BatchAgreement

  /** Each offer of a file was answered, or the file is in transfer or waits for its answer; only a status is in
      transfer without being open. */
  ghost predicate Owed(s: S.Snd) {
    && (forall k :: s.hist.offered(k) == s.hist.answered(k) + S.Files(s, k))
    && (s.out.Some? ==> (s.out.value.status <==> s.out.value.f.None?))
    && (forall t :: t in s.sent ==> !t.status)
  }

  /** Every file was answered as often as it was offered. */
  ghost predicate AllAnswered(s: S.Snd) { forall k :: s.hist.offered(k) == s.hist.answered(k) }

  /** The session ended with success: its last batch held the two M_EOBs only. */
  predicate Won(p: Peer) { p.bat.ends != [] && p.bat.ends[|p.bat.ends| - 1] <= 2 }

  /** What a peer keeps on its own, whatever the remote sends. */
  ghost predicate Orderly(p: Peer) {
    && (p.bat.live ==> Owed(p.snd) && !Won(p))
    && (Won(p) ==> AllAnswered(p.snd))
    && (forall i :: 0 <= i < |p.bat.ends| && p.bat.ends[i] <= 2 ==> i == |p.bat.ends| - 1)
  }

  lemma {:induction false} Removed(ts: seq<S.TFile>, k: Key)
    ensures |ts| - |S.Without(ts, k)| == Sent(ts, k)
  {
    if ts != [] {
      Removed(ts[1..], k);
    }
  }

  function Open(s: S.Snd, k: Key): nat { if Sending(s) && s.out.value.k == k then 1 else 0 }

  lemma FilesAre(s: S.Snd)
    ensures forall k :: S.Files(s, k) == Sent(s.sent, k) + Open(s, k)
  {
    forall k ensures S.Files(s, k) == Sent(s.sent, k) + Open(s, k) { Removed(s.sent, k); }
  }

  lemma StartOwed(s: S.Snd)
    requires Owed(s) && S.CanStart(s)
    ensures Owed(S.Start(s).s)
  {
    var t := S.Start(s).s;
    assert t.sent == s.sent && !Sending(s);
    forall k ensures t.hist.offered(k) == t.hist.answered(k) + S.Files(t, k) {
      assert s.hist.offered(k) == s.hist.answered(k) + S.Files(s, k);
    }
  }

  lemma BlockOwed(s: S.Snd, blk: nat)
    requires Owed(s) && S.CanBlock(s)
    ensures S.Block(s, blk).ok ==> Owed(S.Block(s, blk).s)
  {
    var t := S.Block(s, blk).s;
    FilesAre(s);
    FilesAre(t);
    if S.Block(s, blk).ok && Sending(s) {
      forall k ensures Sent(t.sent, k) + Open(t, k) == Sent(s.sent, k) + Open(s, k) {
        SentSplit(s.sent, [s.out.value.(f := None)], k);
      }
    }
  }

  lemma GotOwed(s: S.Snd, k: Key)
    requires Owed(s)
    ensures Owed(S.Got(s, k).s)
  {
    var i := S.Find(s.sent, k);
    FilesAre(s);
    FilesAre(S.Got(s, k).s);
    if i < |s.sent| {
      forall j ensures Sent(s.sent[..i] + s.sent[i + 1..], j) == Sent(s.sent, j) - (if j == k then 1 else 0) {
        SentCut(s.sent, i, j);
      }
    }
  }

  lemma SkipOwed(s: S.Snd, k: Key)
    requires Owed(s)
    ensures S.Skip(s, k).ok ==> Owed(S.Skip(s, k).s)
  {
    FilesAre(s);
    FilesAre(S.Skip(s, k).s);
    forall j ensures Sent(S.Without(s.sent, k), j) == if j == k then 0 else Sent(s.sent, j) {
      SentWithout(s.sent, k, j);
    }
  }

  /** A file that was sent is open again, and the one in transfer waits in its place. */
  lemma ReopenOwed(s: S.Snd, k: Key)
    requires Owed(s) && S.OutIs(S.Reopen(s, k), k)
    ensures Owed(S.Reopen(s, k))
  {
    var i, t := S.Find(s.sent, k), S.Reopen(s, k);
    FilesAre(s);
    FilesAre(t);
    if i < |s.sent| {
      assert s.sent[i] in s.sent;
      forall j ensures Sent(t.sent, j) + Open(t, j) == Sent(s.sent, j) + Open(s, j) {
        SentCut(s.sent, i, j);
        if Sending(s) {
          SentPut(s.sent, i, s.out.value.(f := None), j);
        }
      }
    }
  }

  lemma ReplyOwed(s: S.Snd, k: Key, off: nat)
    requires Owed(s) && S.Reply(s, k, off).ok
    ensures Owed(S.Reply(s, k, off).s)
  {
    FilesAre(s);
    FilesAre(S.Reply(s, k, off).s);
  }

  lemma GetOwed(s: S.Snd, k: Key, off: nat)
    requires Owed(s) && S.Get(s, k, off).ok
    ensures Owed(S.Get(s, k, off).s)
  {
    ReopenOwed(s, k);
    ReplyOwed(S.Reopen(s, k), k, off);
  }

  lemma HandleOwed(p: Peer, f: Frame, fails: bool)
    requires Owed(p.snd) && p.bat.live
    ensures var q := Handle(p, f, fails); (q.bat.live ==> Owed(q.snd)) && q.bat.ends == p.bat.ends
  {
    match f
    case MGet(k, off) => if S.Get(p.snd, k, off).ok { GetOwed(p.snd, k, off); }
    case MGot(k) => GotOwed(p.snd, k);
    case MSkip(k) => SkipOwed(p.snd, k);
    case _ =>
  }

  lemma EndOwed(p: Peer, more: seq<S.Entry>)
    requires Orderly(p) && p.bat.live && BatchOver(p)
    ensures Orderly(Step(p, [], EndBatch(more))) && AllAnswered(p.snd)
  {
    FilesAre(p.snd);
    var q := Step(p, [], EndBatch(more));
    FilesAre(q.snd);
  }

  lemma StepOrderly(p: Peer, from: seq<Frame>, act: Act)
    requires Orderly(p) && Enabled(p, from, act)
    ensures Orderly(Step(p, from, act))
  {
    match act
    case Top => StartOwed(p.snd);
    case SendBlock(blk) => BlockOwed(p.snd, blk);
    case Recv(fails) => HandleOwed(p, from[0], fails);
    case EndBatch(more) => EndOwed(p, more);
    case _ =>
  }

  lemma NextOrderly(s: Sys, l: Label, t: Sys)
    requires Orderly(s.a) && Orderly(s.b) && Next(s, l, t)
    ensures Orderly(t.a) && Orderly(t.b)
  {
    match l
    case ActA(act) => StepOrderly(s.a, s.b.tx, act);
    case ActB(act) => StepOrderly(s.b, s.a.tx, act);
    case Again(_, _, _, _, _, _) =>
  }

  /** Over every run, whatever the netnames and whatever the other side sends: a peer about to end a batch, and a peer
      that has ended its session with success, has had every file it offered answered by M_GOT or M_SKIP, as often as
      it was offered. */
  lemma {:induction false} EndsAnswered(ss: seq<Sys>, ls: seq<Label>, i: nat)
    requires Run(ss, ls)
    requires NewSession(ss[0]) && i < |ss|
    ensures Orderly(ss[i].a) && Orderly(ss[i].b)
    ensures ss[i].a.bat.live && BatchOver(ss[i].a) ==> AllAnswered(ss[i].a.snd)
    ensures Won(ss[i].a) ==> AllAnswered(ss[i].a.snd)
  {
    if i == 0 {
    } else {
      EndsAnswered(ss, ls, i - 1);
      NextOrderly(ss[i - 1], ls[i - 1], ss[i]);
    }
    if ss[i].a.bat.live && BatchOver(ss[i].a) {
      EndOwed(ss[i].a, []);
    }
  }

  /** Over every clean run: when one peer has ended its session with success, the other has ended no batch beyond that
      one, and if it has ended that one, it has ended its session with success too. */
  lemma StopTogether(ss: seq<Sys>, ls: seq<Label>, i: nat)
    requires Run(ss, ls) && CleanRun(ss, ls)
    requires NewSession(ss[0]) && i < |ss|
    ensures var a, b := ss[i].a, ss[i].b;
      && (Won(a) ==> |b.bat.ends| <= |a.bat.ends| && (|b.bat.ends| == |a.bat.ends| ==> Won(b)))
      && (Won(b) ==> |a.bat.ends| <= |b.bat.ends| && (|a.bat.ends| == |b.bat.ends| ==> Won(a)))
  {
    SameCounts(ss, ls, i);
    EndsAnswered(ss, ls, i);
  }
}
