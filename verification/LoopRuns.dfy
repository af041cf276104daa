/** Two peers that both run the loop of protocol(): what holds over all runs of the session holds between their
    rounds. */
module LoopRuns {
  import opened Options
  import opened Frames
  import S = Sender
  import opened Session
  import opened Loop
  import opened Walk
  import B = BatchAgreement
  import BE = BatchEnd
  import E = ExactlyOnce

  /** A round of one of the peers, or a new session of both. */
  datatype Turn =
    | RoundA(io: Io)
    | RoundB(io: Io)
    | Renew(qa: Option<seq<S.Entry>>, qb: Option<seq<S.Entry>>, nra: bool, nda: bool, nrb: bool, ndb: bool)

  /** Peer `a` goes once through the loop; a frame that it reads is the first one on its way. */
  ghost predicate Goes(s: Sys, io: Io, t: Sys) {
    && s.a.bat.live && (io.input.Some? ==> s.b.tx != [] && s.b.tx[0] == io.input.value)
    && (io.blk.Some? ==> io.blk.value > 0)
    && t == Sys(Round(s.a, io), s.b.(tx := if Reads(s.a, io) then s.b.tx[1..] else s.b.tx))
  }

  ghost predicate NextTurn(s: Sys, l: Turn, t: Sys) {
    match l
    case RoundA(io) => Goes(s, io, t)
    case RoundB(io) => Goes(Flip(s), io, Flip(t))
    case Renew(qa, qb, nra, nda, nrb, ndb) =>
      t == Sys(Fresh(s.a, qa, nra, nda, ndb), Fresh(s.b, qb, nrb, ndb, nda))
  }

  ghost predicate Looping(ss: seq<Sys>, ts: seq<Turn>) {
    |ss| == |ts| + 1 && forall i :: 0 <= i < |ts| ==> NextTurn(ss[i], ts[i], ss[i + 1])
  }

  /** A rule on the steps of a session that allows every step of the turn. */
  ghost predicate Allows(ok: Rule, s: Sys, l: Turn) {
    match l
    case RoundA(io) => forall t: Sys, a {:trigger ok(t, ActA(a))} :: OfRound(io, a) ==> ok(t, ActA(a))
    case RoundB(io) => forall t: Sys, a {:trigger ok(t, ActB(a))} :: OfRound(io, a) ==> ok(t, ActB(a))
    case Renew(qa, qb, nra, nda, nrb, ndb) => ok(s, Again(qa, qb, nra, nda, nrb, ndb))
  }

  lemma {:induction false} ActsReach(ok: Rule, z: Sys, s: Sys, acts: seq<Act>, q: Peer)
    requires Reaches(ok, z, s) && Follows(s.a, s.b.tx, acts, q)
    requires forall t: Sys, a {:trigger ok(t, ActA(a))} :: a in acts ==> ok(t, ActA(a))
    ensures Reaches(ok, z, Sys(q, s.b.(tx := AllLeft(s.b.tx, acts))))
    decreases |acts|
  {
    if acts == [] {
      assert s == Sys(q, s.b.(tx := s.b.tx));
    } else {
      assert acts[0] in acts;
      var t := GoA(ok, z, s, acts[0]);
      ActsReach(ok, z, t, acts[1..], q);
    }
  }

  lemma {:induction false} ActsReachB(ok: Rule, z: Sys, s: Sys, acts: seq<Act>, q: Peer)
    requires Reaches(ok, z, s) && Follows(s.b, s.a.tx, acts, q)
    requires forall t: Sys, a {:trigger ok(t, ActB(a))} :: a in acts ==> ok(t, ActB(a))
    ensures Reaches(ok, z, Sys(s.a.(tx := AllLeft(s.a.tx, acts)), q))
    decreases |acts|
  {
    if acts == [] {
      assert s == Sys(s.a.(tx := s.a.tx), q);
    } else {
      assert acts[0] in acts;
      var t := GoB(ok, z, s, acts[0]);
      ActsReachB(ok, z, t, acts[1..], q);
    }
  }

  lemma TurnReaches(ok: Rule, z: Sys, s: Sys, l: Turn, t: Sys)
    requires Reaches(ok, z, s) && NextTurn(s, l, t) && Allows(ok, s, l)
    ensures Reaches(ok, z, t)
  {
    match l
    case RoundA(io) =>
      var acts := RoundFollows(s.a, s.b.tx, io);
      ActsReach(ok, z, s, acts, t.a);
    case RoundB(io) =>
      var acts := RoundFollows(s.b, s.a.tx, io);
      ActsReachB(ok, z, s, acts, t.b);
    case Renew(qa, qb, nra, nda, nrb, ndb) =>
      Extend(ok, z, s, Again(qa, qb, nra, nda, nrb, ndb), t);
  }

  /** Whatever two looping peers do, with any interleaving of their rounds, is a run of the session. */
  lemma {:induction false} LoopsAreRuns(ok: Rule, ss: seq<Sys>, ts: seq<Turn>, i: nat)
    requires Looping(ss, ts) && i < |ss| && forall j :: 0 <= j < |ts| ==> Allows(ok, ss[j], ts[j])
    ensures Reaches(ok, ss[0], ss[i])
  {
    if i == 0 {
      Stay(ok, ss[0]);
    } else {
      LoopsAreRuns(ok, ss, ts, i - 1);
      TurnReaches(ok, ss[0], ss[i - 1], ts[i - 1], ss[i]);
    }
  }

  // ---- what follows ----

  /** Between two rounds of two looping peers: who is about to end a batch, or has ended its session with success, has
      had every file answered as often as it was offered. */
  lemma LoopEndsAnswered(ss: seq<Sys>, ts: seq<Turn>, i: nat)
    requires Looping(ss, ts) && B.NewSession(ss[0]) && i < |ss|
    ensures ss[i].a.bat.live && BatchOver(ss[i].a) ==> BE.AllAnswered(ss[i].a.snd)
    ensures BE.Won(ss[i].a) ==> BE.AllAnswered(ss[i].a.snd)
  {
    LoopsAreRuns(ANY, ss, ts, i);
    var us, ls :| Obeys(ANY, us, ls) && us[0] == ss[0] && us[|us| - 1] == ss[i];
    BE.EndsAnswered(us, ls, |us| - 1);
  }

  ghost const ALLOWED: Rule := (s: Sys, l: Label) => E.Allowed(s, l)

  /** The receiver's disk does not refuse a file, the queue gets no second status, and a pending one leads in it. */
  ghost predicate Allowed(s: Sys, l: Turn) {
    match l
    case RoundA(io) => forall e :: e in io.more ==> !e.status
    case RoundB(io) => !io.fails
    case Renew(qa, _, _, nda, _, _) => nda && E.Offers(s.a.snd.disk, s.b.rcv.masks, qa)
  }

  lemma AllowedAllows(s: Sys, l: Turn)
    requires Allowed(s, l)
    ensures Allows(ALLOWED, s, l)
  {
    match l
    case RoundA(io) =>
      forall t: Sys, a | OfRound(io, a) ensures ALLOWED(t, ActA(a)) { assert E.Allowed(t, ActA(a)); }
    case RoundB(io) =>
      forall t: Sys, a | OfRound(io, a) ensures ALLOWED(t, ActB(a)) { assert E.Allowed(t, ActB(a)); }
    case Renew(_, _, _, _, _, _) =>
  }

  /** Exactly once, between two rounds of two looping peers. */
  lemma LoopDeliversOnce(all: set<Key>, ss: seq<Sys>, ts: seq<Turn>, i: nat)
    requires E.Good(all) && Looping(ss, ts) && E.Opens(all, ss[0]) && i < |ss|
    requires forall j :: 0 <= j < |ts| ==> Allowed(ss[j], ts[j])
    ensures forall k :: k in all ==> E.Safe(ss[i], k)
    ensures var log := ss[i].b.rcv.hist.log; forall m, n :: 0 <= m < n < |log| ==> log[m].p != log[n].p
  {
    forall j | 0 <= j < |ts| ensures Allows(ALLOWED, ss[j], ts[j]) { AllowedAllows(ss[j], ts[j]); }
    LoopsAreRuns(ALLOWED, ss, ts, i);
    var us, ls :| Obeys(ALLOWED, us, ls) && us[0] == ss[0] && us[|us| - 1] == ss[i];
    assert forall j :: 0 <= j < |ls| ==> ALLOWED(us[j], ls[j]) == E.Allowed(us[j], ls[j]);
    E.DeliversOnce(all, us, ls, |us| - 1);
  }
}
