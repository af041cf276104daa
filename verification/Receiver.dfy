/** The receiving half of a peer: the file being received, the partial files and the inbound,
    and the handlers of M_FILE, of data blocks and of M_EOB. */
module Receiver {
  import opened Options
  import opened Frames

  datatype In = In(k: Key, farewell: bool)

  /** A file renamed to its true name. */
  datatype Delivery = Delivery(p: PartKey, bytes: seq<Byte>)

  datatype Flags = Flags(
    balance: int,                       // GET_FILE_balance
    theyNR: bool, theyND: bool,
    skipAll: bool)

  /** Partial files, and received files that are still in the inbound. */
  datatype Disk = Disk(parts: map<PartKey, seq<Byte>>, inbound: map<PartKey, seq<Byte>>)

  /** Every rename, and everything that was ever in the inbound. */
  datatype Hist = Hist(log: seq<Delivery>, had: set<PartKey>)

  datatype Rcv = Rcv(
    inn: Option<In>,                    // the open file; it is written at its end
    inComplete: Option<Key>,            // whole, M_GOT sent, to be renamed (ND mode)
    g: Flags,
    masks: map<Key, bool>,              // configuration: skip masks; true means destructive
    disk: Disk, hist: Hist)

  datatype Result = Result(r: Rcv, tx: seq<Frame>, ok: bool)

  function Part(r: Rcv, k: Key): seq<Byte> {
    if PartOf(k) in r.disk.parts then r.disk.parts[PartOf(k)] else []
  }

  function Reject(r: Rcv, k: Key): Rcv {
    r.(disk := r.disk.(parts := r.disk.parts - {PartOf(k)}))
  }

  /** Close the open file; an empty partial and every partial packet is removed. */
  function ClosePartial(r: Rcv): (r': Rcv)
    ensures r'.inn.None?
  {
    if r.inn.None? then r
    else
      var k := r.inn.value.k;
      var r0 := if IsPkt(k.name) || Part(r, k) == [] then Reject(r, k) else r;
      r0.(inn := None)
  }

  /** inb_done: rename a whole partial to its true name. */
  function Done(r: Rcv, k: Key): Result {
    var p := PartOf(k);
    if p !in r.disk.parts then Result(r, [MErr], false)
    else
      Result(r.(disk := Disk(r.disk.parts - {p}, r.disk.inbound[p := r.disk.parts[p]]),
                hist := r.hist.(log := r.hist.log + [Delivery(p, r.disk.parts[p])], had := r.hist.had + {p})), [], true)
  }

  /** Rename the file completed in ND mode, if there is one. */
  function Rename(r: Rcv): Result {
    if r.g.theyND && r.inComplete.Some? then
      var d := Done(r, r.inComplete.value);
      if d.ok then Result(d.r.(inComplete := None), [], true) else d
    else Result(r, [], true)
  }

  /** inb_fopen: an existing partial is continued, one longer than the file is emptied. */
  function Open(r: Rcv, k: Key, farewell: bool): Rcv {
    var cur := Part(r, k);
    r.(disk := r.disk.(parts := r.disk.parts[PartOf(k) := if |cur| > k.size then [] else cur]),
       inn := Some(In(k, farewell)))
  }

  function File(r: Rcv, k: Key, off: int, farewell: bool, openFails: bool): Result {
    var d := Rename(if r.inn.Some? && r.inn.value.k.name != k.name then ClosePartial(r) else r);
    if d.ok then Admit(if off == -1 then d.r.(g := d.r.g.(theyNR := true)) else d.r, k, off, farewell, openFails) else d
  }

  /** Refuse the file, or open it. */
  function Admit(r: Rcv, k: Key, off: int, farewell: bool, openFails: bool): Result {
    if r.inn.Some? then
      Offset(r, off)
    else if k in r.masks then
      Result(r, [if r.masks[k] then MGot(k) else MSkip(k)], true)
    else if PartOf(k) in r.disk.inbound then
      Result(r, [MGot(k)], true)
    else if r.g.skipAll || openFails then
      Result(r.(g := r.g.(skipAll := true)), [MSkip(k)], true)
    else
      Offset(Open(r, k, farewell), off)
  }

  /** With the file open: ask for another offset, or receive from this one. */
  function Offset(r: Rcv, off: int): Result
    requires r.inn.Some?
  {
    var k := r.inn.value.k;
    var have := |Part(r, k)|;
    if off == -1 || off != have then
      Result(r.(inn := None, g := r.g.(balance := r.g.balance + 1)), [MGet(k, have)], true)
    else if off != 0 || r.g.theyNR then
      Result(r.(g := r.g.(balance := r.g.balance - 1)), [], true)
    else
      Result(r, [], true)
  }

  function Data(r: Rcv, bytes: seq<Byte>): Result {
    if r.inn.None? then Result(r, [], true)
    else
      var k := r.inn.value.k;
      var all := Part(r, k) + bytes;
      var r0 := r.(disk := r.disk.(parts := r.disk.parts[PartOf(k) := all]));
      if |all| == k.size then
        var r1 := r0.(inn := None);
        if r.g.theyND then Result(r1.(inComplete := Some(k)), [MGot(k)], true)
        else Result(Done(r1, k).r, [MGot(k)], true)
      else
        Result(r0, [], |all| < k.size)
  }

  function Eob(r: Rcv): Result {
    var r0 :=
      if r.inn.Some? && !r.g.theyNR && Part(r, r.inn.value.k) != [] then
        Reject(r, r.inn.value.k).(inn := None)
      else ClosePartial(r);
    Rename(r0)
  }
}
