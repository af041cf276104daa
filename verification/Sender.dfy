/** The sending half of a peer: its queue, the file in transfer, the files sent and waiting for
    an answer, and the handlers of M_GET, M_GOT and M_SKIP. */
module Sender {
  import opened Options
  import opened Frames

  /** An open file: what it held when it was opened, and the read position. */
  datatype Handle = Handle(data: seq<Byte>, pos: nat)

  /** A TFILE; `status` says that it offers a link status and has no file behind it. */
  datatype TFile = TFile(k: Key, status: bool, f: Option<Handle>)

  datatype Entry = Entry(k: Key, status: bool)

  datatype Flags = Flags(
    offReq: bool,               // "M_FILE ... -1" sent
    waiting: bool,              // waiting for M_GOT in ND mode
    sendEof: bool,              // an empty data block is due
    ndAddr: bool,               // the address for the link status is known
    rSkipped: bool)             // the remote skipped something

  /** What the remote asked for. */
  datatype Mode = Mode(weNR: bool, weND: bool)

  /** The files to send, and the link status. */
  datatype Disk = Disk(spool: map<Key, seq<Byte>>, stc: Option<Key>)

  /** History of the session: what was announced last under each netname, how often each file was offered, and how
      often the remote got or skipped it. A link status is not counted. */
  datatype Hist = Hist(announced: map<string, Key>, offered: Count, answered: Count)

  type Count = Key -> nat

  const NEVER: Count := (j: Key) => 0

  function Plus(c: Count, k: Key, n: nat): Count { (j: Key) => if j == k then c(j) + n else c(j) }

  datatype Snd = Snd(
    q: Option<seq<Entry>>,      // the entries not yet started; None is the null queue
    out: Option<TFile>,         // None is the zeroed TFILE
    sent: seq<TFile>,           // files waiting for an answer
    g: Flags, mode: Mode, disk: Disk, hist: Hist)

  predicate Announced(s: Snd, k: Key) {
    k.name in s.hist.announced && s.hist.announced[k.name] == k
  }

  datatype Result = Result(s: Snd, tx: seq<Frame>, ok: bool)

  predicate CanStart(s: Snd) {
    s.q.Some? && !(s.out.Some? && s.out.value.f.Some?) && !s.g.waiting && !s.g.offReq
  }

  /** One round of the loop that looks for the next file: start the first entry, or drop the
      exhausted queue. */
  function Start(s: Snd): Result
    requires CanStart(s)
  {
    if s.q.value == [] then
      Result(s.(q := None), [], true)
    else
      var e := s.q.value[0];
      var s0 := s.(q := Some(s.q.value[1..]), out := None);
      if !e.status && e.k !in s.disk.spool then
        Result(s0, [], true)
      else
        var s1 := s0.(out := Some(TFile(e.k, e.status, if e.status then None else Some(Handle(s.disk.spool[e.k], 0)))),
                      g := s.g.(ndAddr := s.g.ndAddr || !s.mode.weND),
                      hist := s.hist.(announced := s.hist.announced[e.k.name := e.k],
                                      offered := if e.status then s.hist.offered
                                        else Plus(s.hist.offered, e.k, 1)));
        if s.mode.weNR then Result(s1.(g := s1.g.(offReq := true)), [MFile(e.k, -1, false)], true)
        else Result(s1, [MFile(e.k, if e.status then e.k.size else 0, false)], true)
  }

  predicate CanBlock(s: Snd) {
    (s.out.Some? && s.out.value.f.Some? && !s.g.offReq && !s.g.waiting) || s.g.sendEof
  }

  /** The next data block, uncompressed, at most `blk` bytes. */
  function Block(s: Snd, blk: nat): Result
    requires CanBlock(s)
  {
    if s.out.Some? && s.out.value.f.Some? then
      var o := s.out.value;
      var h := o.f.value;
      var left := o.k.size - h.pos;
      var sz := if blk < left then blk else left;
      if sz < 0 || h.pos + sz > |h.data| then
        Result(s, [], false)
      else
        var bytes := h.data[h.pos..h.pos + sz];
        if sz == 0 || h.pos + sz == o.k.size then
          Result(s.(sent := s.sent + [o.(f := None)], out := None,
            g := s.g.(waiting := s.g.waiting || s.mode.weND)), [Data(bytes)], true)
        else
          Result(s.(out := Some(o.(f := Some(h.(pos := h.pos + sz))))), [Data(bytes)], true)
    else
      Result(s.(g := s.g.(sendEof := false)), [Data([])], true)
  }

  /** The first file of `fs` with key `k`, or the length of `fs`. */
  function Find(fs: seq<TFile>, k: Key): (i: nat)
    ensures i <= |fs|
    ensures i < |fs| ==> fs[i].k == k
    ensures forall j :: 0 <= j < i ==> fs[j].k != k
  {
    if fs == [] || fs[0].k == k then 0 else 1 + Find(fs[1..], k)
  }

  /** `fs` without the files of key `k`. */
  function Without(fs: seq<TFile>, k: Key): (r: seq<TFile>)
    ensures |r| <= |fs|
    ensures forall x :: x in r <==> x in fs && x.k != k
  {
    if fs == [] then []
    else if fs[0].k == k then Without(fs[1..], k)
    else [fs[0]] + Without(fs[1..], k)
  }

  predicate OutIs(s: Snd, k: Key) {
    s.out.Some? && s.out.value.k == k
  }

  /** How often the file `k` is in transfer or waits for its answer. */
  function Files(s: Snd, k: Key): nat {
    |s.sent| - |Without(s.sent, k)| + if OutIs(s, k) && s.out.value.f.Some? then 1 else 0
  }

  /** ND_set_status("", &ND_addr): nothing happens while the address is unknown. */
  function ClearStatus(s: Snd): Snd {
    if s.g.ndAddr then s.(disk := s.disk.(stc := None)) else s
  }

  /** The file is settled: it leaves the spool, and the link status becomes `stc`. */
  function Settle(s: Snd, k: Key, stc: Option<Key>, keep: bool): Snd {
    s.(disk := Disk(if keep then s.disk.spool else s.disk.spool - {k}, stc),
       g := s.g.(ndAddr := true, waiting := false),
       hist := s.hist.(answered := if keep then s.hist.answered else Plus(s.hist.answered, k, 1)))
  }

  function Got(s: Snd, k: Key): Result {
    var status := !(s.mode.weNR && !s.mode.weND);
    var s0 := if status then s else ClearStatus(s);
    var i := Find(s.sent, k);
    if OutIs(s, k) then
      var stc := if !status then s0.disk.stc else if s.g.offReq then None else Some(k);
      var s1 := Settle(s0, k, stc, s.out.value.status);
      Result(s1.(g := s1.g.(offReq := false), out := None), [], true)
    else if i < |s.sent| then
      var stc := if !status then s0.disk.stc else if s.g.offReq || !s.mode.weND then None else Some(k);
      Result(Settle(s0, k, stc, false).(sent := s.sent[..i] + s.sent[i + 1..]), [], true)
    else
      Result(s0, [], true)
  }

  /** The answer ends the waiting in the modes that wait. */
  function Unwait(s: Snd): Snd {
    var nr := s.mode.weND || s.mode.weNR;
    ClearStatus(s).(g := s.g.(ndAddr := false, waiting := s.g.waiting && !nr, offReq := s.g.offReq && !nr))
  }

  function Skip(s: Snd, k: Key): Result {
    var inSent := Find(s.sent, k) < |s.sent|;
    var hit := inSent || OutIs(s, k);
    var s0 := s.(sent := Without(s.sent, k),
                 g := s.g.(rSkipped := s.g.rSkipped || hit, ndAddr := s.g.ndAddr || inSent),
                 hist := s.hist.(answered := Plus(s.hist.answered, k, Files(s, k))));
    if OutIs(s, k) && s.out.value.f.None? then
      Result(s0, [MErr], false)
    else
      Result(Unwait(s0.(out := if OutIs(s, k) then None else s.out)), [], true)
  }

  /** M_GET looks among the sent files first: the file asked for becomes the one in transfer,
      and a file that was in transfer takes its place among the sent ones. */
  function Reopen(s: Snd, k: Key): Snd {
    var i := Find(s.sent, k);
    if i == |s.sent| then s
    else
      var f := if k in s.disk.spool then Some(s.sent[i].(f := Some(Handle(s.disk.spool[k], 0)))) else None;
      if s.out.Some? && s.out.value.f.Some? then
        s.(out := f, sent := s.sent[i := s.out.value.(f := None)])
      else
        s.(out := f, sent := s.sent[..i] + s.sent[i + 1..])
  }

  /** Answer M_GET with the file in transfer: continue from `off`. For a status, either the whole file is still
      with the remote and an empty block completes it, or it was already renamed and the status is done. */
  function Reply(s: Snd, k: Key, off: nat): Result {
    if !(OutIs(s, k) && (s.out.value.f.Some? || s.g.offReq)) then
      Result(Agreed(s), [], false)                          // unexpected: the session is dropped
    else if s.out.value.f.None? then
      if off == k.size && s.mode.weND then
        Result(s.(g := s.g.(sendEof := true, waiting := true, offReq := false)), [MFile(k, off, false)], true)
      else
        Result(Agreed(s.(disk := s.disk.(stc := None), out := None)), [MFile(k, off, true)], true)
    else if off > k.size then
      Result(Agreed(s.(out := Some(s.out.value.(f := None)))), [MErr], false)
    else
      Result(Agreed(s.(out := Some(s.out.value.(f := Some(s.out.value.f.value.(pos := off)))))),
        [MFile(k, off, false)], true)
  }

  /** The offset is agreed on; the previous file was renamed by the remote, its status is not needed. */
  function Agreed(s: Snd): Snd {
    ClearStatus(s).(g := s.g.(ndAddr := false, waiting := s.g.waiting && !s.mode.weND, offReq := false))
  }

  function Get(s: Snd, k: Key, off: nat): Result {
    Reply(Reopen(s, k), k, off)
  }
}
