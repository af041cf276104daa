/** The output and input buffers of a session: send_block and recv_block, whatever the system takes or gives at a
    time. */
module WireBuffers {
  import opened Options
  import opened Frames
  import opened Wire
  import opened Crypt
  import C = StreamCipher

  function Z(): C.Cipher<K, Byte> { Zip(Long32()) }

  /** The messages that are still queued; a slot is emptied when its message is put into the buffer. */
  function Queue(msgs: seq<Option<seq<Byte>>>): seq<Byte> {
    if msgs == [] then [] else (if msgs[0].Some? then msgs[0].value else []) + Queue(msgs[1..])
  }

  lemma {:induction false} QueueSplit(xs: seq<Option<seq<Byte>>>, ys: seq<Option<seq<Byte>>>)
    ensures Queue(xs + ys) == Queue(xs) + Queue(ys)
  {
    if xs == [] {
      assert xs + ys == ys;
    } else {
      QueueSplit(xs[1..], ys);
      assert (xs + ys)[1..] == xs[1..] + ys;
    }
  }

  lemma {:induction false} QueueEmpty(msgs: seq<Option<seq<Byte>>>)
    requires forall i :: 0 <= i < |msgs| ==> msgs[i].None?
    ensures Queue(msgs) == []
  {
    if msgs != [] {
      QueueEmpty(msgs[1..]);
    }
  }

  /** The length of the first message in the queue; 0 if there is none. */
  function FirstSize(msgs: seq<Option<seq<Byte>>>): nat {
    if msgs == [] then 0 else if msgs[0].Some? then |msgs[0].value| else FirstSize(msgs[1..])
  }

  /** Every message has a header. */
  ghost predicate Headed(msgs: seq<Option<seq<Byte>>>) {
    forall i :: 0 <= i < |msgs| && msgs[i].Some? ==> |msgs[i].value| >= BLK_HDR_SIZE
  }

  ghost predicate Fitting(msgs: seq<Option<seq<Byte>>>) {
    forall i :: 0 <= i < |msgs| && msgs[i].Some? ==> |msgs[i].value| <= MAX_BLKSIZE
  }

  /** The slot where the queue goes on. */
  lemma NextSlot(slots: seq<Option<seq<Byte>>>, msgs: seq<Option<seq<Byte>>>, i: nat)
    requires i < |msgs| == |slots| && msgs[i..] == slots[i..]
    ensures msgs[i] == slots[i] && msgs[i + 1..] == slots[i + 1..]
    ensures Queue(slots[i..]) == (if msgs[i].Some? then msgs[i].value else []) + Queue(slots[i + 1..])
    ensures FirstSize(slots[i..]) == if msgs[i].Some? then |msgs[i].value| else FirstSize(slots[i + 1..])
  {
    assert msgs[i] == msgs[i..][0] && slots[i] == slots[i..][0];
    assert msgs[i..][1..] == msgs[i + 1..] && slots[i..][1..] == slots[i + 1..];
  }

  /** Behind the slots that were emptied, the queue is what it was. */
  lemma RestQueued(slots: seq<Option<seq<Byte>>>, msgs: seq<Option<seq<Byte>>>, i: nat)
    requires i <= |msgs| == |slots| && msgs[i..] == slots[i..] && forall j :: 0 <= j < i ==> msgs[j].None?
    ensures Queue(msgs) == Queue(msgs[i..])
    ensures i < |msgs| && msgs[i].Some? ==> msgs[i] == slots[i] && FirstSize(msgs[i..]) == |msgs[i].value|
    ensures Fitting(slots) ==> Fitting(msgs)
  {
    QueueSplit(msgs[..i], msgs[i..]);
    QueueEmpty(msgs[..i]);
    assert msgs == msgs[..i] + msgs[i..];
    forall j | i <= j < |msgs|
      ensures msgs[j] == slots[j]
    {
      assert msgs[j] == msgs[i..][j - i] && slots[j] == slots[i..][j - i];
    }
  }

  // ---- in step ----

  /** A block in the form it has on the wire: as it is up to the end of the login, encrypted after it. */
  function Form(crypt: bool, keys: K, b: Block): seq<Byte> {
    if crypt then C.Encrypt(Z(), keys, Encode(b)) else Encode(b)
  }

  function KeysAfter(crypt: bool, keys: K, b: Block): K {
    if crypt then C.After(Z(), keys, Encode(b)) else keys
  }

  /** The bytes `out` are the stream of the blocks `bs`, and the keys are those behind it. */
  ghost predicate InStep(login: nat, k0: K, bs: seq<Block>, out: seq<Byte>, crypt: bool, keys: K) {
    && (crypt <==> |bs| >= login)
    && (crypt ==> keys == C.After(Z(), k0, Flat(bs[login..])))
    && out == Coded(Z(), k0, login, bs)
  }

  /** One more block, behind what was written and what is pending. */
  lemma StaysInStep(login: nat, k0: K, bs: seq<Block>, written: seq<Byte>, pending: seq<Byte>, crypt: bool, keys: K,
      b: Block)
    requires InStep(login, k0, bs, written + pending, crypt, keys) && (!crypt ==> |bs| + 1 < login)
    ensures InStep(login, k0, bs + [b], written + (pending + Form(crypt, keys, b)), crypt, KeysAfter(crypt, keys, b))
  {
    CodedPush(Z(), k0, login, bs, b);
    assert written + (pending + Form(crypt, keys, b)) == written + pending + Form(crypt, keys, b);
  }

  /** The block that ends the login is the last one in clear text. */
  lemma LoginEnds(login: nat, k0: K, bs: seq<Block>, written: seq<Byte>, pending: seq<Byte>, keys: K, b: Block)
    requires InStep(login, k0, bs, written + pending, false, keys) && |bs| + 1 == login
    ensures InStep(login, k0, bs + [b], written + (pending + Encode(b)), true, k0)
  {
    CodedPush(Z(), k0, login, bs, b);
    assert (bs + [b])[login..] == [];
    assert written + (pending + Encode(b)) == written + pending + Encode(b);
  }

  datatype Sent = Ok | Failed | Blocked

  lemma Moved(written: seq<Byte>, taken: seq<Byte>, rest: seq<Byte>)
    ensures written + taken + rest == written + (taken + rest) && (written + taken)[|written|..] == taken
  {
  }

  class Out {
    const obuf: array<Byte>
    const stream: Stream
    var optr: nat
    var oleft: nat
    var msgs: seq<Option<seq<Byte>>>
    var crypt: bool
    ghost var queued: seq<Block>         // everything queued in this session
    ghost var wire: seq<Byte>            // everything the system took
    ghost const login: nat               // how many blocks there are up to the end of the login
    ghost const k0: K

    ghost predicate Shape()
      reads this
    {
      obuf.Length == MAX_BLKSIZE + BLK_HDR_SIZE + 1 && optr + oleft <= obuf.Length && Headed(msgs)
    }

    ghost function Pending(): seq<Byte>
      requires Shape()
      reads this, obuf
    {
      obuf[optr..optr + oleft] + Queue(msgs)
    }

    /** What the system took and what is pending is the stream of everything that was queued. */
    ghost predicate Valid()
      reads this, obuf, stream
    {
      Shape() && InStep(login, k0, queued, wire + Pending(), crypt, stream.keys)
    }

    constructor (ghost login: nat, ghost k0: K)
      requires login > 0
      ensures Valid() && fresh(obuf) && fresh(stream) && queued == [] && wire == []
    {
      obuf := new Byte[MAX_BLKSIZE + BLK_HDR_SIZE + 1](_ => 0);
      stream := new Stream(Start());
      optr, oleft, msgs, crypt := 0, 0, [], false;
      queued, wire := [], [];
      this.login, this.k0 := login, k0;
    }

    /** The bytes of a message, encrypted when it is queued. */
    method MakeMsg(body: seq<Byte>) returns (bytes: seq<Byte>)
      modifies stream
      ensures bytes == Form(crypt, old(stream.keys), Block(true, body))
      ensures stream.keys == KeysAfter(crypt, old(stream.keys), Block(true, body))
    {
      var s := Encode(Block(true, body));
      if crypt {
        var buf := new Byte[|s|](i requires 0 <= i < |s| => s[i]);
        assert buf[0..|s|] == s;
        stream.EncryptBuf(buf, 0, |s|);
        bytes := buf[0..|s|];
      } else {
        bytes := s;
      }
    }

    lemma QueuePush(bytes: seq<Byte>)
      requires Shape()
      ensures obuf[optr..optr + oleft] + Queue(msgs + [Some(bytes)]) == Pending() + bytes
    {
      QueueSplit(msgs, [Some(bytes)]);
      assert Queue([Some(bytes)]) == bytes + Queue([]);
    }

    /** A message goes to the end of the queue. */
    method PutMsg(body: seq<Byte>)
      requires Shape()
      modifies this`msgs, stream
      ensures Shape() && Pending() == old(Pending()) + Form(crypt, old(stream.keys), Block(true, body))
      ensures stream.keys == KeysAfter(crypt, old(stream.keys), Block(true, body))
    {
      var bytes := MakeMsg(body);
      QueuePush(bytes);
      msgs := msgs + [Some(bytes)];
    }

    /** A block was put behind what is pending. */
    twostate lemma OneMore(b: Block)
      requires old(Valid()) && Shape() && wire == old(wire) && crypt == old(crypt) && queued == old(queued) + [b]
      requires Pending() == old(Pending()) + Form(crypt, old(stream.keys), b)
      requires stream.keys == KeysAfter(crypt, old(stream.keys), b)
      requires !crypt ==> |queued| < login
      ensures Valid()
    {
      StaysInStep(login, k0, old(queued), wire, old(Pending()), crypt, old(stream.keys), b);
    }

    /** msg_send2, of a message that does not end the login. */
    method MsgSend(body: seq<Byte>)
      requires Valid() && (!crypt ==> |queued| + 1 < login)
      modifies this`msgs, this`queued, stream
      ensures Valid() && queued == old(queued) + [Block(true, body)]
    {
      PutMsg(body);
      queued := queued + [Block(true, body)];
      OneMore(Block(true, body));
    }

    /** The M_OK or M_PWD is sent, and complete_login turns the cipher on. */
    method EndLogin(body: seq<Byte>, k: K)
      requires Valid() && !crypt && |queued| + 1 == login && k == k0
      modifies this`msgs, this`queued, this`crypt, stream
      ensures Valid() && crypt && queued == old(queued) + [Block(true, body)]
    {
      ghost var b := Block(true, body);
      LoginEnds(login, k0, queued, wire, Pending(), stream.keys, b);
      PutMsg(body);
      queued := queued + [b];
      crypt := true;
      stream.keys := k;
    }

    // ---- send_block ----

    /** The system took `n` bytes. */
    method Took(n: nat)
      requires Shape() && 0 < n <= oleft
      modifies this`optr, this`oleft
      ensures Shape() && old(Pending()) == old(obuf[optr..optr + n]) + Pending()
    {
      ghost var taken, left := obuf[optr..optr + n], obuf[optr + n..optr + oleft];
      assert obuf[optr..optr + oleft] == taken + left;
      if n == oleft {
        optr, oleft := 0, 0;
        assert left == [] == obuf[optr..optr + oleft];
      } else {
        optr, oleft := optr + n, oleft - n;
      }
      Moved(taken, left, Queue(msgs));
    }

    /** ... and they are on the wire. */
    method PutOnWire(n: nat)
      requires Shape() && 0 < n <= oleft
      modifies this`optr, this`oleft, this`wire
      ensures Shape() && wire + Pending() == old(wire + Pending())
      ensures old(wire) <= wire && |wire| == |old(wire)| + n && old(Pending()) == wire[|old(wire)|..] + Pending()
    {
      ghost var taken := obuf[optr..optr + n];
      ghost var was := wire;
      Took(n);
      wire := wire + taken;
      Moved(was, taken, Pending());
    }

    /** Something is in the buffer: the system takes `n` bytes of it, or reports an error with -1. */
    method SendSome(n: int, fatal: bool) returns (rc: Sent)
      requires Valid() && oleft > 0 && -1 <= n <= oleft
      modifies this`optr, this`oleft, this`wire
      ensures Valid() && old(wire) <= wire && old(Pending()) == wire[|old(wire)|..] + Pending()
      ensures |wire| == |old(wire)| + if n > 0 then n else 0
      ensures rc == if n == -1 then (if fatal then Failed else Blocked) else if n == 0 then Blocked else Ok
    {
      if n == -1 {
        return if fatal then Failed else Blocked;
      }
      if n == 0 {
        return Blocked;
      }
      PutOnWire(n);
      return Ok;
    }

    /** One message is copied behind what the buffer holds. */
    method PutInBuffer(i: nat)
      requires obuf.Length == MAX_BLKSIZE + BLK_HDR_SIZE + 1 && i < |msgs| && msgs[i].Some?
      requires oleft + |msgs[i].value| <= MAX_BLKSIZE
      modifies this`oleft, this`msgs, obuf
      ensures msgs == old(msgs)[i := None] && oleft == old(oleft) + |old(msgs)[i].value|
      ensures obuf[..oleft] == old(obuf[..oleft]) + old(msgs)[i].value
    {
      var m := msgs[i].value;
      forall j | 0 <= j < |m| { obuf[oleft + j] := m[j]; }
      oleft := oleft + |m|;
      msgs := msgs[i := None];
    }

    /** The loop over the queue: it stops at a message that does not fit, and fails at one that is too big. */
    method MoveMsgs() returns (i: nat, ok: bool)
      requires Shape() && oleft == 0
      modifies this`oleft, this`msgs, obuf
      ensures i <= |msgs| == |old(msgs)| && msgs[i..] == old(msgs)[i..] && oleft <= MAX_BLKSIZE && Headed(msgs)
      ensures forall j :: 0 <= j < i ==> msgs[j].None?
      ensures obuf[..oleft] + Queue(msgs[i..]) == old(Queue(msgs))
      ensures i < |msgs| ==> msgs[i].Some? && oleft + |msgs[i].value| > MAX_BLKSIZE
      ensures ok <==> !(i < |msgs| && |msgs[i].value| > MAX_BLKSIZE + BLK_HDR_SIZE)
      ensures oleft == 0 ==> FirstSize(old(msgs)) == FirstSize(msgs[i..]) && msgs == old(msgs)
      ensures oleft > 0 ==> FirstSize(old(msgs)) <= MAX_BLKSIZE
    {
      ghost var slots := msgs;
      i := 0;
      assert slots[0..] == slots;
      while i < |msgs|
        invariant i <= |msgs| == |slots| && Headed(msgs)
        invariant oleft <= MAX_BLKSIZE
        invariant msgs[i..] == slots[i..] && forall j :: 0 <= j < i ==> msgs[j].None?
        invariant obuf[..oleft] + Queue(slots[i..]) == Queue(slots)
        invariant if oleft == 0 then FirstSize(slots) == FirstSize(slots[i..]) && msgs == slots
          else FirstSize(slots) <= MAX_BLKSIZE
      {
        NextSlot(slots, msgs, i);
        Moved(obuf[..oleft], if msgs[i].Some? then msgs[i].value else [], Queue(slots[i + 1..]));
        if msgs[i].Some? {
          if |msgs[i].value| - 2 > MAX_BLKSIZE {
            return i, false;
          }
          if oleft + |msgs[i].value| > MAX_BLKSIZE {
            return i, true;
          }
          PutInBuffer(i);
        }
        i := i + 1;
      }
      return i, true;
    }

    /** The message at the head of the queue decides whether anything moves at all. */
    method Refill() returns (ok: bool)
      requires Shape() && oleft == 0
      modifies this`optr, this`oleft, this`msgs, obuf
      ensures ok ==> Shape() && Pending() == old(Pending())
      ensures ok && 0 < FirstSize(old(msgs)) <= MAX_BLKSIZE ==> oleft > 0
      ensures Fitting(old(msgs)) ==> ok && Fitting(msgs) && (oleft > 0 || msgs == []) && |msgs| <= |old(msgs)|
      ensures MAX_BLKSIZE < FirstSize(old(msgs)) <= MAX_BLKSIZE + BLK_HDR_SIZE ==> ok && oleft == 0 && msgs == old(msgs)
      ensures FirstSize(old(msgs)) > MAX_BLKSIZE + BLK_HDR_SIZE ==> !ok
    {
      ghost var slots := msgs;
      var i;
      optr := 0;
      i, ok := MoveMsgs();
      RestQueued(slots, msgs, i);
      assert obuf[optr..optr + oleft] == obuf[..oleft];
      if ok && i >= |msgs| {
        msgs := [];
      }
    }

    /** The queued messages are put into the buffer, as many as fit. */
    method FillBuffer() returns (ok: bool)
      requires Valid() && oleft == 0 && msgs != []
      modifies this`optr, this`oleft, this`msgs, obuf
      ensures ok ==> Valid() && Pending() == old(Pending())
      ensures ok && 0 < FirstSize(old(msgs)) <= MAX_BLKSIZE ==> oleft > 0
      ensures Fitting(old(msgs)) ==> ok && Fitting(msgs) && (oleft > 0 || msgs == []) && |msgs| <= |old(msgs)|
      ensures MAX_BLKSIZE < FirstSize(old(msgs)) <= MAX_BLKSIZE + BLK_HDR_SIZE ==> ok && oleft == 0 && msgs == old(msgs)
      ensures FirstSize(old(msgs)) > MAX_BLKSIZE + BLK_HDR_SIZE ==> !ok
    {
      ok := Refill();
    }

    /** The header and the data of a block are put into the buffer. */
    method Frame(data: seq<Byte>)
      requires obuf.Length == MAX_BLKSIZE + BLK_HDR_SIZE + 1 && |data| <= MAX_BLKSIZE
      modifies obuf
      ensures obuf[0..|data| + BLK_HDR_SIZE] == Encode(Block(false, data))
    {
      var h := Header(|data|, false);
      obuf[0], obuf[1] := h[0], h[1];
      forall j | 0 <= j < |data| { obuf[2 + j] := data[j]; }
    }

    /** No message is left and the buffer is empty: a data block is built, and encrypted in the buffer. */
    method PutBlock(data: seq<Byte>)
      requires Shape() && oleft == 0 && msgs == [] && |data| <= MAX_BLKSIZE
      modifies this`optr, this`oleft, obuf, stream
      ensures Shape() && Pending() == old(Pending()) + Form(crypt, old(stream.keys), Block(false, data))
      ensures stream.keys == KeysAfter(crypt, old(stream.keys), Block(false, data))
    {
      Frame(data);
      optr, oleft := 0, |data| + BLK_HDR_SIZE;
      if crypt {
        stream.EncryptBuf(obuf, 0, oleft);
      }
      assert obuf[0..oleft] + [] == obuf[0..oleft] == [] + [] + obuf[0..oleft];
    }

    method BuildBlock(data: seq<Byte>)
      requires Valid() && oleft == 0 && msgs == [] && |data| <= MAX_BLKSIZE && (!crypt ==> |queued| + 1 < login)
      modifies this`optr, this`oleft, this`queued, obuf, stream
      ensures Valid() && queued == old(queued) + [Block(false, data)]
    {
      PutBlock(data);
      queued := queued + [Block(false, data)];
      OneMore(Block(false, data));
    }

    /** The last loop of a session: whatever the system takes at a time, as long as it takes something, everything that
        was queued is written. */
    method Flush()
      requires Valid() && Fitting(msgs)
      modifies this`optr, this`oleft, this`msgs, this`wire, obuf
      ensures Valid() && wire == Coded(Z(), k0, login, queued)
    {
      while msgs != [] || oleft > 0
        invariant Valid() && Fitting(msgs)
        decreases |Pending()|, |msgs|, if oleft == 0 then 1 else 0
      {
        if oleft > 0 {
          var n :| 1 <= n <= oleft;
          var rc := SendSome(n, false);
        } else {
          var ok := FillBuffer();
        }
      }
      assert wire + Pending() == wire;
    }
  }

  // ---- recv_block ----

  function Cleared(rx: Rx<K>, ys: seq<Byte>): seq<Byte> { if rx.crypt then C.Decrypt(Z(), rx.k, ys) else ys }

  /** What the receiver does with bytes that stay within the header or the block. */
  lemma Gathered(login: nat, k0: K, rx: Rx<K>, ys: seq<Byte>)
    requires 0 < |ys| <= Missing(rx)
    ensures var xs := Cleared(rx, ys);
      Feed(Z(), login, k0, rx, ys) == Complete(login, k0, rx.(part := rx.part + xs, k := KeyAfter(Z(), rx, xs)))
  {
    XorTwice();
    if rx.crypt { C.RoundTripBack(Z(), rx.k, ys); }
    Gather(Z(), login, k0, rx, Cleared(rx, ys));
  }

  class In {
    const ibuf: array<Byte>
    const stream: Stream
    var iread: nat
    var isize: int
    var imsg: bool
    var crypt: bool
    var count: nat                       // blocks delivered
    ghost var got: seq<Block>
    const login: nat                     // the handler of this block completes the login
    const k0: K

    ghost predicate Valid()
      reads this, ibuf, stream
    {
      && ibuf.Length == MAX_BLKSIZE + BLK_HDR_SIZE + 1 && count == |got|
      && (if isize == -1 then iread < BLK_HDR_SIZE else iread < isize <= MAX_BLKSIZE)
    }

    function Head(): Option<(bool, nat)>
      reads this
    {
      if isize < 0 then None else var n: nat := isize; Some((imsg, n))
    }

    ghost function View(): Rx<K>
      requires Valid()
      reads this, ibuf, stream
    {
      Rx(got, ibuf[..iread], Head(), crypt, stream.keys)
    }

    constructor (login: nat, k0: K)
      requires login > 0
      ensures Valid() && fresh(ibuf) && fresh(stream) && View() == First(k0) && this.login == login && this.k0 == k0
    {
      ibuf := new Byte[MAX_BLKSIZE + BLK_HDR_SIZE + 1](_ => 0);
      stream := new Stream(k0);
      iread, isize, imsg, crypt, count := 0, -1, false, false, 0;
      got := [];
      this.login, this.k0 := login, k0;
    }

    /** How much is asked of the system: never more than the rest of the header or of the block. */
    function Wanted(): int
      reads this
    {
      (if isize == -1 then BLK_HDR_SIZE else isize) - iread
    }

    /** What the system gave goes behind what is there. */
    method Copy(chunk: seq<Byte>)
      requires iread + |chunk| <= ibuf.Length
      modifies ibuf
      ensures ibuf[..iread] == old(ibuf[..iread]) && ibuf[iread..iread + |chunk|] == chunk
    {
      forall j | 0 <= j < |chunk| { ibuf[iread + j] := chunk[j]; }
    }

    /** The `n` bytes behind what is there are decrypted in place; `rx` is the receiver before they came. */
    method Clear(n: nat, ghost rx: Rx<K>, ghost ys: seq<Byte>)
      requires iread + n <= ibuf.Length && ibuf[iread..iread + n] == ys && rx.crypt == crypt && rx.k == stream.keys
      modifies ibuf, stream
      ensures ibuf[..iread] == old(ibuf[..iread]) && ibuf[iread..iread + n] == Cleared(rx, ys)
      ensures stream.keys == KeyAfter(Z(), rx, Cleared(rx, ys))
    {
      if crypt {
        stream.DecryptBuf(ibuf, iread, n);
      }
    }

    /** The bytes of one read go into the buffer in clear text. */
    method Store(chunk: seq<Byte>)
      requires Valid() && 0 < |chunk| <= Wanted()
      modifies this`iread, ibuf, stream
      ensures iread == old(iread) + |chunk| && iread <= MAX_BLKSIZE
      ensures ibuf[..iread] == old(ibuf[..iread]) + Cleared(old(View()), chunk)
      ensures stream.keys == KeyAfter(Z(), old(View()), Cleared(old(View()), chunk))
    {
      ghost var rx := View();
      Copy(chunk);
      Clear(|chunk|, rx, chunk);
      assert ibuf[..iread + |chunk|] == ibuf[..iread] + ibuf[iread..iread + |chunk|];
      iread := iread + |chunk|;
    }

    /** A block is complete: it is handled, and the one that ends the login turns the cipher on. */
    method Handle(msg: bool, size: nat)
      requires size <= iread <= ibuf.Length && count == |got| && ibuf.Length == MAX_BLKSIZE + BLK_HDR_SIZE + 1
      modifies this, stream
      ensures Valid() &&
        View() == Deliver(login, k0, Rx(old(got), [], None, old(crypt), old(stream.keys)), Block(msg, ibuf[..size]))
    {
      got := got + [Block(msg, ibuf[..size])];
      count := count + 1;
      if count == login {
        crypt := true;
        stream.keys := k0;
      }
      isize, iread := -1, 0;
    }

    /** recv_block: the system gives some of the bytes that were asked for. */
    method RecvBlock(chunk: seq<Byte>)
      requires Valid() && 0 < |chunk| <= Wanted()
      modifies this, ibuf, stream
      ensures Valid() && View() == Feed(Z(), login, k0, old(View()), chunk)
    {
      Gathered(login, k0, View(), chunk);
      var sz := if isize == -1 then BLK_HDR_SIZE else isize;
      Store(chunk);
      if iread == sz {
        if isize == -1 {
          imsg, isize := IsMsg(ibuf[0]), SizeOf(ibuf[0], ibuf[1]);
          if isize == 0 {
            Handle(imsg, 0);
          } else {
            iread := 0;
          }
        } else {
          Handle(imsg, isize);
        }
      }
    }

    /** The stream arrives in pieces of any size. */
    method RecvAll(bytes: seq<Byte>)
      requires Valid()
      modifies this, ibuf, stream
      ensures Valid() && View() == Feed(Z(), login, k0, old(View()), bytes)
    {
      ghost var start := View();
      var i := 0;
      while i < |bytes|
        invariant i <= |bytes| && Valid() && View() == Feed(Z(), login, k0, start, bytes[..i])
      {
        var n :| 1 <= n <= Wanted() && i + n <= |bytes|;
        assert bytes[..i + n] == bytes[..i] + bytes[i..i + n];
        FeedSplit(Z(), login, k0, start, bytes[..i], bytes[i..i + n]);
        RecvBlock(bytes[i..i + n]);
        i := i + n;
      }
      assert bytes[..|bytes|] == bytes;
    }
  }

  // ---- both ends ----

  /** What the receiver has delivered are the blocks that the sender queued, in order and once each, exactly those
      that are complete in what has arrived: wherever the writes and the reads cut the stream, and through the switch
      to the cipher at the end of the login. */
  lemma EndToEnd(login: nat, k0: K, queued: seq<Block>, out: seq<Byte>, crypt: bool, keys: K, arrived: seq<Byte>,
      n: nat)
    requires login > 0 && InStep(login, k0, queued, out, crypt, keys) && Short(queued) && arrived <= out
    requires n <= |queued|
    requires |Flat(queued[..n])| <= |arrived| && (n < |queued| ==> |arrived| < |Flat(queued[..n + 1])|)
    ensures Feed(Z(), login, k0, First(k0), arrived).got == queued[..n]
  {
    XorTwice();
    SomeBlocks(Z(), login, k0, queued, arrived, n);
  }

  /** When everything has arrived, both sides hold the same keys. */
  lemma SameKeys(login: nat, k0: K, queued: seq<Block>, out: seq<Byte>, keys: K)
    requires login > 0 && InStep(login, k0, queued, out, true, keys) && Short(queued)
    ensures var rx := Feed(Z(), login, k0, First(k0), out);
      rx.got == queued && Between(rx) && rx.crypt && rx.k == keys
  {
    XorTwice();
    AllBlocks(Z(), login, k0, queued);
  }
}
