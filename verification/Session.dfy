/** Two peers joined by two FIFO channels: the loop of protocol(), a session's end, and a new
    session after both have stopped. */
module Session {
  import opened Options
  import opened Frames
  import S = Sender
  import R = Receiver

  datatype Batch = Batch(
    live: bool,                      // still in the loop of protocol()
    localEOB: bool, remoteEOB: bool,
    msgs: nat,                       // msgs_in_batch
    ends: seq<nat>)                  // history: msgs_in_batch at the end of each batch

  datatype Peer = Peer(
    snd: S.Snd, rcv: R.Rcv,
    bat: Batch,
    tx: seq<Frame>)                  // queued or in flight to the remote

  datatype Sys = Sys(a: Peer, b: Peer)

  datatype Act =
    | Top                            // start the next file, or drop the exhausted queue
    | SendEob
    | SendBlock(blk: nat)
    | Recv(openFails: bool)
    | EndBatch(more: seq<S.Entry>)   // `more` is what the scan of the file boxes adds
    | Enqueue(more: seq<S.Entry>)    // events of received files add to the queue
    | Take(p: PartKey)               // another program takes a file from the inbound
    | Stop                           // timeout, broken connection

  function Send(p: Peer, fs: seq<Frame>): Peer {
    p.(tx := p.tx + fs, bat := p.bat.(msgs := p.bat.msgs + Msgs(fs)))
  }

  predicate Sending(s: S.Snd) { s.out.Some? && s.out.value.f.Some? }

  predicate BatchOver(p: Peer) {
    p.bat.remoteEOB && p.snd.sent == [] && p.bat.localEOB && p.rcv.g.balance == 0 && p.rcv.inn.None? && !Sending(p.snd)
  }

  predicate Enabled(p: Peer, from: seq<Frame>, act: Act) {
    match act
    case Top => p.bat.live && !p.bat.localEOB && S.CanStart(p.snd)
    case SendEob => p.bat.live && !p.bat.localEOB && !Sending(p.snd) && p.snd.q.None? && p.snd.sent == []
    case SendBlock(blk) => p.bat.live && blk > 0 && S.CanBlock(p.snd)
    case Recv(_) => p.bat.live && !BatchOver(p) && from != []
    case EndBatch(_) => p.bat.live && BatchOver(p)
    case Enqueue(_) => p.bat.live
    case Take(_) => true
    case Stop => p.bat.live
  }

  function More(q: Option<seq<S.Entry>>, more: seq<S.Entry>): Option<seq<S.Entry>> {
    if more == [] then q else if q.None? then Some(more) else Some(q.value + more)
  }

  /** A session ends with success: the status is cleared and, unless something was refused,
      the link's partial files are removed. */
  function Finish(p: Peer): Peer {
    p.(snd := S.ClearStatus(p.snd).(g := p.snd.g.(ndAddr := false)),
       rcv := if p.rcv.g.skipAll then p.rcv else p.rcv.(disk := p.rcv.disk.(parts := map[])),
       bat := p.bat.(live := false))
  }

  function SndDone(p: Peer, x: S.Result): Peer {
    Send(p.(snd := x.s, bat := p.bat.(live := x.ok)), x.tx)
  }

  function RcvDone(p: Peer, x: R.Result): Peer {
    Send(p.(rcv := x.r, bat := p.bat.(live := x.ok)), x.tx)
  }

  function Handle(p: Peer, f: Frame, openFails: bool): Peer {
    var p0 := if f.Data? then p else p.(bat := p.bat.(msgs := p.bat.msgs + 1));
    match f
    case MFile(k, off, w) => RcvDone(p0, R.File(p0.rcv, k, off, w, openFails))
    case MGet(k, off) => SndDone(p0, S.Get(p0.snd, k, off))
    case MGot(k) => SndDone(p0, S.Got(p0.snd, k))
    case MSkip(k) => SndDone(p0, S.Skip(p0.snd, k))
    case MEob => RcvDone(p0.(bat := p0.bat.(remoteEOB := true)), R.Eob(p0.rcv))
    case MErr => p0.(bat := p0.bat.(live := false))
    case Data(bytes) => RcvDone(p0, R.Data(p0.rcv, bytes))
  }

  function Step(p: Peer, from: seq<Frame>, act: Act): Peer
    requires Enabled(p, from, act)
  {
    match act
    case Top => SndDone(p, S.Start(p.snd))
    case SendEob => Send(p.(bat := p.bat.(localEOB := true)), [MEob])
    case SendBlock(blk) => SndDone(p, S.Block(p.snd, blk))
    case Recv(openFails) => Handle(p, from[0], openFails)
    case EndBatch(more) =>
      if p.bat.msgs <= 2 then Finish(p.(bat := p.bat.(ends := p.bat.ends + [p.bat.msgs])))
      else
        p.(bat := Batch(true, false, false, 0, p.bat.ends + [p.bat.msgs]),
           snd := p.snd.(q := if p.snd.g.rSkipped then p.snd.q else More(p.snd.q, more)))
    case Enqueue(more) => p.(snd := p.snd.(q := More(p.snd.q, more)))
    case Take(x) => p.(rcv := p.rcv.(disk := p.rcv.disk.(inbound := p.rcv.disk.inbound - {x})))
    case Stop => p.(bat := p.bat.(live := false))
  }

  function Left(from: seq<Frame>, act: Act): seq<Frame> {
    if act.Recv? && from != [] then from[1..] else from
  }

  function Flip(s: Sys): Sys { Sys(s.b, s.a) }

  /** Peer `a` acts. */
  function StepA(s: Sys, act: Act): Sys
    requires Enabled(s.a, s.b.tx, act)
  {
    Sys(Step(s.a, s.b.tx, act), s.b.(tx := Left(s.b.tx, act)))
  }

  /** What a peer brings into its next session: its disk. The queue `q` and the modes are the new session's. */
  function Fresh(p: Peer, q: Option<seq<S.Entry>>, weNR: bool, weND: bool, theyND: bool): Peer {
    Peer(S.Snd(q, None, [], S.Flags(false, false, false, false, false),
      S.Mode(weNR || weND, weND), p.snd.disk, S.Hist(map[], S.NEVER, S.NEVER)),
         R.ClosePartial(p.rcv).(inComplete := None, g := R.Flags(0, false, theyND, false)),
         Batch(true, false, false, 0, []), [])
  }

  datatype Label =
    | ActA(act: Act)
    | ActB(act: Act)
    | Again(qa: Option<seq<S.Entry>>, qb: Option<seq<S.Entry>>, nra: bool, nda: bool, nrb: bool, ndb: bool)

  /** One step of the two peers. A new session starts from any state: what was in flight is lost,
      and the modes agree because each side tells the other what it wants. */
  ghost predicate Next(s: Sys, l: Label, s': Sys) {
    match l
    case ActA(act) => Enabled(s.a, s.b.tx, act) && s' == StepA(s, act)
    case ActB(act) => Enabled(s.b, s.a.tx, act) && s' == Flip(StepA(Flip(s), act))
    case Again(qa, qb, nra, nda, nrb, ndb) =>
      s' == Sys(Fresh(s.a, qa, nra, nda, ndb), Fresh(s.b, qb, nrb, ndb, nda))
  }

  /** A run: states, and the steps between them. */
  ghost predicate Run(ss: seq<Sys>, ls: seq<Label>) {
    |ss| == |ls| + 1 && forall i :: 0 <= i < |ls| ==> Next(ss[i], ls[i], ss[i + 1])
  }
}
