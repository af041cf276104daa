/** Runs put together step by step: which states can be reached by steps that obey a rule. */
module Walk {
  import opened Options
  import opened Frames
  import S = Sender
  import R = Receiver
  import opened Session

  type Rule = (Sys, Label) -> bool

  ghost const ANY: Rule := (s: Sys, l: Label) => true

  ghost predicate Obeys(ok: Rule, ss: seq<Sys>, ls: seq<Label>) {
    Run(ss, ls) && forall i :: 0 <= i < |ls| ==> ok(ss[i], ls[i])
  }

  ghost predicate Reaches(ok: Rule, s: Sys, t: Sys) {
    exists ss, ls :: Obeys(ok, ss, ls) && ss[0] == s && ss[|ss| - 1] == t
  }

  /** One run after another. */
  lemma Join(ok: Rule, ss: seq<Sys>, ls: seq<Label>, us: seq<Sys>, ms: seq<Label>)
    requires Obeys(ok, ss, ls) && Obeys(ok, us, ms) && ss[|ss| - 1] == us[0]
    ensures Obeys(ok, ss + us[1..], ls + ms)
  {
    var ss1, ls1 := ss + us[1..], ls + ms;
    forall i | 0 <= i < |ls1| ensures Next(ss1[i], ls1[i], ss1[i + 1]) && ok(ss1[i], ls1[i]) {
      if i < |ls| {
        assert ss1[i] == ss[i] && ss1[i + 1] == ss[i + 1];
      } else {
        var j := i - |ls|;
        assert ss1[i] == us[j] && ss1[i + 1] == us[j + 1] && ls1[i] == ms[j];
      }
    }
  }

  /** Two runs, and a step from the end of the one to the beginning of the other. */
  lemma Linked(ok: Rule, s1: seq<Sys>, l1: seq<Label>, l: Label, s2: seq<Sys>, l2: seq<Label>)
    requires Obeys(ok, s1, l1) && Obeys(ok, s2, l2) && Next(s1[|s1| - 1], l, s2[0]) && ok(s1[|s1| - 1], l)
    ensures Obeys(ok, s1 + s2, l1 + [l] + l2)
  {
    var t, u := s1[|s1| - 1], s2[0];
    assert Obeys(ok, [t, u], [l]);
    Join(ok, s1, l1, [t, u], [l]);
    assert [t, u][1..] == [u];
    Join(ok, s1 + [u], l1 + [l], s2, l2);
    assert s1 + [u] + s2[1..] == s1 + s2;
  }

  lemma Stay(ok: Rule, s: Sys)
    ensures Reaches(ok, s, s)
  {
    assert Obeys(ok, [s], []);
    assert [s][0] == s && [s][|[s]| - 1] == s;
  }

  lemma Extend(ok: Rule, s: Sys, t: Sys, l: Label, u: Sys)
    requires Reaches(ok, s, t) && Next(t, l, u) && ok(t, l)
    ensures Reaches(ok, s, u)
  {
    var ss, ls :| Obeys(ok, ss, ls) && ss[0] == s && ss[|ss| - 1] == t;
    assert Obeys(ok, [u], []);
    Linked(ok, ss, ls, l, [u], []);
    assert ls + [l] + [] == ls + [l] && (ss + [u])[0] == s && (ss + [u])[|ss + [u]| - 1] == u;
  }

  /** Peer `a` acts. */
  lemma GoA(ok: Rule, s: Sys, t: Sys, act: Act) returns (u: Sys)
    requires Reaches(ok, s, t) && Enabled(t.a, t.b.tx, act) && ok(t, ActA(act))
    ensures u == StepA(t, act) && Reaches(ok, s, u)
  {
    u := StepA(t, act);
    Extend(ok, s, t, ActA(act), u);
  }

  lemma GoB(ok: Rule, s: Sys, t: Sys, act: Act) returns (u: Sys)
    requires Reaches(ok, s, t) && Enabled(t.b, t.a.tx, act) && ok(t, ActB(act))
    ensures u == Flip(StepA(Flip(t), act)) && Reaches(ok, s, u)
  {
    u := Flip(StepA(Flip(t), act));
    Extend(ok, s, t, ActB(act), u);
  }

  // ---- one direction ----

  predicate Running(p: Peer) { p.bat.live && !p.bat.localEOB && !p.bat.remoteEOB }

  /** The sender of `a`, the receiver of `b` and what is in flight, in the middle of a batch. */
  ghost predicate Is(t: Sys, snd: S.Snd, rcv: R.Rcv, ab: seq<Frame>, ba: seq<Frame>) {
    && t.a.snd == snd && t.b.rcv == rcv && t.a.tx == ab && t.b.tx == ba
    && Running(t.a) && Running(t.b)
  }

  /** The other halves rest, and the peers counted `m` and `n` messages more. */
  ghost predicate Counted(t: Sys, u: Sys, m: nat, n: nat) {
    && u.a.rcv == t.a.rcv && u.b.snd == t.b.snd
    && u.a.bat == t.a.bat.(msgs := t.a.bat.msgs + m) && u.b.bat == t.b.bat.(msgs := t.b.bat.msgs + n)
  }

  lemma Starts(ok: Rule, z: Sys, t: Sys, rcv: R.Rcv, ab: seq<Frame>, ba: seq<Frame>, s: S.Snd, x: S.Result)
    returns (u: Sys)
    requires Reaches(ok, z, t) && Is(t, s, rcv, ab, ba) && S.CanStart(s) && x == S.Start(s) && x.ok
    requires ok(t, ActA(Top))
    ensures Reaches(ok, z, u) && Is(u, x.s, rcv, ab + x.tx, ba) && Counted(t, u, Msgs(x.tx), 0)
  {
    u := GoA(ok, z, t, Top);
  }

  lemma SendsBlock(ok: Rule, z: Sys, t: Sys, rcv: R.Rcv, ab: seq<Frame>, ba: seq<Frame>, s: S.Snd, blk: nat,
      x: S.Result) returns (u: Sys)
    requires Reaches(ok, z, t) && Is(t, s, rcv, ab, ba) && S.CanBlock(s) && blk > 0 && x == S.Block(s, blk) && x.ok
    requires ok(t, ActA(SendBlock(blk)))
    ensures Reaches(ok, z, u) && Is(u, x.s, rcv, ab + x.tx, ba) && Counted(t, u, Msgs(x.tx), 0)
  {
    u := GoA(ok, z, t, SendBlock(blk));
  }

  /** `a` takes the answer at the front of the channel. */
  lemma TakesAnswer(ok: Rule, z: Sys, t: Sys, rcv: R.Rcv, ab: seq<Frame>, ba: seq<Frame>, s: S.Snd, x: S.Result)
    returns (u: Sys)
    requires Reaches(ok, z, t) && Is(t, s, rcv, ab, ba) && ba != [] && IsAnswer(ba[0]) && x.ok
    requires match ba[0]
      case MGet(k, at) => x == S.Get(s, k, at)
      case MGot(k) => x == S.Got(s, k)
      case MSkip(k) => x == S.Skip(s, k)
      case _ => false
    requires ok(t, ActA(Recv(false)))
    ensures Reaches(ok, z, u) && Is(u, x.s, rcv, ab + x.tx, ba[1..]) && Counted(t, u, 1 + Msgs(x.tx), 0)
  {
    u := GoA(ok, z, t, Recv(false));
  }

  /** `b` takes the file or the block at the front of the channel. */
  lemma TakesFile(ok: Rule, z: Sys, t: Sys, rcv: R.Rcv, ab: seq<Frame>, ba: seq<Frame>, s: S.Snd, x: R.Result)
    returns (u: Sys)
    requires Reaches(ok, z, t) && Is(t, s, rcv, ab, ba) && ab != [] && x.ok
    requires (ab[0].MFile? && x == R.File(rcv, ab[0].k, ab[0].off, ab[0].farewell, false))
      || (ab[0].Data? && x == R.Data(rcv, ab[0].bytes))
    requires ok(t, ActB(Recv(false)))
    ensures Reaches(ok, z, u) && Is(u, s, x.r, ab[1..], ba + x.tx)
    ensures Counted(t, u, 0, (if ab[0].Data? then 0 else 1) + Msgs(x.tx))
  {
    u := GoB(ok, z, t, Recv(false));
  }
}
