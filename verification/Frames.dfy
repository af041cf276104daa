/** The vocabulary of a binkp session after login: file identities, the frames
    that two peers exchange, and how often a frame of some kind occurs in a channel. */
module Frames {

  type Byte = bv8

  /** What M_FILE, M_GET, M_GOT and M_SKIP name: netname, size and time. */
  datatype Key = Key(name: string, size: nat, time: int)

  /** What identifies a partial or a received file on the receiver's disk:
      the lowest bit of the time is ignored there. */
  datatype PartKey = PartKey(name: string, size: nat, even: int)

  function PartOf(k: Key): PartKey {
    PartKey(k.name, k.size, k.time - k.time % 2)
  }

  /** `*.pkt`, ignoring case. */
  predicate IsPkt(name: string) {
    |name| >= 4 &&
    var t := name[|name| - 4..];
    t[0] == '.' && t[1] in "pP" && t[2] in "kK" && t[3] in "tT"
  }

  /** A frame. `farewell` marks the M_FILE that answers an M_GET about a status whose file
      was already renamed; it is a label of the model, no handler reads it. */
  datatype Frame =
    | MFile(k: Key, off: int, farewell: bool)
    | MGet(k: Key, at: nat)
    | MGot(k: Key)
    | MSkip(k: Key)
    | MEob
    | MErr
    | Data(bytes: seq<Byte>)

  predicate IsAnswer(f: Frame) { f.MGet? || f.MGot? || f.MSkip? }

  /** The number of messages (everything but data blocks) among `fs`. */
  function Msgs(fs: seq<Frame>): nat {
    if fs == [] then 0 else (if fs[0].Data? then 0 else 1) + Msgs(fs[1..])
  }

  function Eobs(fs: seq<Frame>): nat {
    if fs == [] then 0 else (if fs[0].MEob? then 1 else 0) + Eobs(fs[1..])
  }

  function Gets(fs: seq<Frame>): nat {
    if fs == [] then 0 else (if fs[0].MGet? then 1 else 0) + Gets(fs[1..])
  }

  /** An M_FILE that can only be the reply to an M_GET. */
  predicate IsReply(f: Frame, nr: bool) {
    f.MFile? && (f.off > 0 || (nr && f.off == 0))
  }

  function Replies(fs: seq<Frame>, nr: bool): nat {
    if fs == [] then 0 else (if IsReply(fs[0], nr) then 1 else 0) + Replies(fs[1..], nr)
  }

  /** Announcements of `k` that wait to be answered. */
  function Files(fs: seq<Frame>, k: Key): nat {
    if fs == [] then 0
    else (if fs[0].MFile? && fs[0].k == k && !fs[0].farewell then 1 else 0) + Files(fs[1..], k)
  }

  function Answers(fs: seq<Frame>, k: Key): nat {
    if fs == [] then 0
    else (if IsAnswer(fs[0]) && fs[0].k == k then 1 else 0) + Answers(fs[1..], k)
  }

  lemma {:induction false} Split(xs: seq<Frame>, ys: seq<Frame>, nr: bool)
    ensures Msgs(xs + ys) == Msgs(xs) + Msgs(ys)
    ensures Eobs(xs + ys) == Eobs(xs) + Eobs(ys)
    ensures Gets(xs + ys) == Gets(xs) + Gets(ys)
    ensures Replies(xs + ys, nr) == Replies(xs, nr) + Replies(ys, nr)
  {
    if xs == [] {
      assert xs + ys == ys;
    } else {
      Split(xs[1..], ys, nr);
      assert (xs + ys)[1..] == xs[1..] + ys;
    }
  }

  lemma {:induction false} SplitKey(xs: seq<Frame>, ys: seq<Frame>, k: Key)
    ensures Files(xs + ys, k) == Files(xs, k) + Files(ys, k)
    ensures Answers(xs + ys, k) == Answers(xs, k) + Answers(ys, k)
  {
    if xs == [] {
      assert xs + ys == ys;
    } else {
      SplitKey(xs[1..], ys, k);
      assert (xs + ys)[1..] == xs[1..] + ys;
    }
  }

  lemma {:induction false} Occurs(fs: seq<Frame>, f: Frame, nr: bool)
    requires f in fs
    ensures !f.Data? ==> Msgs(fs) >= 1
    ensures f.MEob? ==> Eobs(fs) >= 1
    ensures f.MGet? ==> Gets(fs) >= 1
    ensures IsReply(f, nr) ==> Replies(fs, nr) >= 1
    ensures f.MFile? && !f.farewell ==> Files(fs, f.k) >= 1
    ensures IsAnswer(f) ==> Answers(fs, f.k) >= 1
  {
    if fs[0] != f {
      Occurs(fs[1..], f, nr);
    }
  }
}
