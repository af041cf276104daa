/** One round of the loop of protocol(), as the steps of the session that it consists of. */
module Loop {
  import opened Options
  import opened Frames
  import S = Sender
  import R = Receiver
  import opened Session

  /** What a round meets: a frame that was read, whether the disk refuses a new file, whether there is room for a
      data block and how long it may be, what the scan of the file boxes adds, a timeout. */
  datatype Io = Io(input: Option<Frame>, fails: bool, blk: Option<nat>, more: seq<S.Entry>, timeout: bool)

  predicate MayStart(p: Peer) { p.bat.live && !p.bat.localEOB && S.CanStart(p.snd) }

  /** Entries whose file is missing are passed over. */
  function NextFile(p: Peer): Peer
    requires MayStart(p)
    decreases |p.snd.q.value|
  {
    var t := Step(p, [], Top);
    if S.Start(p.snd).tx != [] || t.snd.q.None? then t else NextFile(t)
  }

  predicate EobDue(p: Peer) {
    p.bat.live && !p.bat.localEOB && !Sending(p.snd) && p.snd.q.None? && p.snd.sent == []
  }

  /** Up to the check for the end of the batch. */
  function Offer(p: Peer): Peer
    requires p.bat.live
  {
    var p1 := if MayStart(p) then NextFile(p) else p;
    if EobDue(p1) then Step(p1, [], SendEob) else p1
  }

  /** From select on. */
  function Exchange(p: Peer, io: Io): Peer {
    if io.timeout then p.(bat := p.bat.(live := false)) else
    var p1 := if io.input.Some? then Handle(p, io.input.value, io.fails) else p;
    if p1.bat.live && io.blk.Some? && S.CanBlock(p1.snd) then SndDone(p1, S.Block(p1.snd, io.blk.value)) else p1
  }

  function Round(p: Peer, io: Io): Peer
    requires p.bat.live
  {
    var p1 := Offer(p);
    if p1.bat.live && BatchOver(p1) then Step(p1, [], EndBatch(io.more)) else Exchange(p1, io)
  }

  // ---- steps ----

  /** From `p` the steps lead to `q`. */
  ghost predicate Follows(p: Peer, from: seq<Frame>, acts: seq<Act>, q: Peer)
    decreases |acts|
  {
    if acts == [] then q == p
    else Enabled(p, from, acts[0]) && Follows(Step(p, from, acts[0]), Left(from, acts[0]), acts[1..], q)
  }

  function AllLeft(from: seq<Frame>, acts: seq<Act>): seq<Frame>
    decreases |acts|
  {
    if acts == [] then from else AllLeft(Left(from, acts[0]), acts[1..])
  }

  lemma {:induction false} FollowsMore(p: Peer, from: seq<Frame>, acts: seq<Act>, q: Peer, act: Act)
    requires Follows(p, from, acts, q) && Enabled(q, AllLeft(from, acts), act)
    ensures Follows(p, from, acts + [act], Step(q, AllLeft(from, acts), act))
    ensures AllLeft(from, acts + [act]) == Left(AllLeft(from, acts), act)
    decreases |acts|
  {
    if acts == [] {
      assert acts + [act] == [act] && [act][1..] == [];
    } else {
      FollowsMore(Step(p, from, acts[0]), Left(from, acts[0]), acts[1..], q, act);
      assert (acts + [act])[1..] == acts[1..] + [act];
    }
  }

  lemma StartKeepsOn(p: Peer, from: seq<Frame>)
    requires MayStart(p)
    ensures Enabled(p, from, Top) && Step(p, from, Top) == Step(p, [], Top) && Step(p, [], Top).bat.live
    ensures S.Start(p.snd).tx == [] && Step(p, [], Top).snd.q.Some? ==> MayStart(Step(p, [], Top))
  {
  }

  lemma {:induction false} NextFileFollows(p0: Peer, from: seq<Frame>, acts0: seq<Act>, p: Peer)
    returns (acts: seq<Act>)
    requires MayStart(p) && Follows(p0, from, acts0, p) && AllLeft(from, acts0) == from
    requires forall a :: a in acts0 ==> a.Top?
    ensures Follows(p0, from, acts, NextFile(p)) && AllLeft(from, acts) == from && NextFile(p).bat.live
    ensures forall a :: a in acts ==> a.Top?
    decreases |p.snd.q.value|
  {
    StartKeepsOn(p, from);
    FollowsMore(p0, from, acts0, p, Top);
    acts := acts0 + [Top];
    var t := Step(p, [], Top);
    if S.Start(p.snd).tx == [] && t.snd.q.Some? {
      acts := NextFileFollows(p0, from, acts, t);
    }
  }

  lemma OfferFollows(p: Peer, from: seq<Frame>) returns (acts: seq<Act>)
    requires p.bat.live
    ensures Follows(p, from, acts, Offer(p)) && AllLeft(from, acts) == from && Offer(p).bat.live
    ensures forall a :: a in acts ==> a.Top? || a.SendEob?
  {
    acts := [];
    var p1 := p;
    if MayStart(p) {
      acts := NextFileFollows(p, from, [], p);
      p1 := NextFile(p);
    }
    if EobDue(p1) {
      FollowsMore(p, from, acts, p1, SendEob);
      acts := acts + [SendEob];
    }
  }

  /** The steps that a round can consist of. */
  predicate OfRound(io: Io, a: Act) {
    a.Top? || a.SendEob? || a.SendBlock? || a.Stop? || a == Recv(io.fails) || a == EndBatch(io.more)
  }

  /** The round takes the frame that it meets. */
  predicate Reads(p: Peer, io: Io)
    requires p.bat.live
  {
    io.input.Some? && !io.timeout && !BatchOver(Offer(p))
  }

  /** Every round of the loop is a sequence of steps of the session, with the frame it read taken from the front of
      the channel. */
  lemma RoundFollows(p: Peer, from: seq<Frame>, io: Io) returns (acts: seq<Act>)
    requires p.bat.live && (io.input.Some? ==> from != [] && from[0] == io.input.value)
    requires (io.blk.Some? ==> io.blk.value > 0)
    ensures Follows(p, from, acts, Round(p, io)) && forall a :: a in acts ==> OfRound(io, a)
    ensures AllLeft(from, acts) == if Reads(p, io) then from[1..] else from
  {
    acts := OfferFollows(p, from);
    var q := Offer(p);
    if BatchOver(q) {
      FollowsMore(p, from, acts, q, EndBatch(io.more));
      acts := acts + [EndBatch(io.more)];
    } else if io.timeout {
      FollowsMore(p, from, acts, q, Stop);
      acts := acts + [Stop];
    } else {
      var u := q;
      if io.input.Some? {
        FollowsMore(p, from, acts, q, Recv(io.fails));
        acts := acts + [Recv(io.fails)];
        u := Handle(q, io.input.value, io.fails);
      }
      if u.bat.live && io.blk.Some? && S.CanBlock(u.snd) {
        FollowsMore(p, from, acts, u, SendBlock(io.blk.value));
        acts := acts + [SendBlock(io.blk.value)];
      }
    }
  }
}
