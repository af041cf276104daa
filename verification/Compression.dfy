/** Sending a compressed file: the buffer between the file and the compressor, and what it carries over from one data
    block to the next. */
module Compression {
  import opened Frames

  const ZBLKSIZE: nat := 1024
  const BLK_HDR_SIZE: nat := 2

  /** One call of do_compress: how much of the input was used, what came out, and the return code (1 at the end of the
      stream, -1 on an error). */
  datatype Call<S> = Call(s: S, nget: nat, bytes: seq<Byte>, rc: int)

  type Compress<!S> = (S, seq<Byte>, nat, bool) -> Call<S>

  /** A compressor stops only when its input is used up or its output is full; asked to finish, it gets on. */
  ghost predicate Honest<S(!new)>(z: Compress<S>) {
    forall s, input, cap, fin :: var c := z(s, input, cap, fin);
      && c.nget <= |input| && |c.bytes| <= cap
      && (c.rc == 1 ==> fin && c.nget == |input|)
      && (c.rc != -1 ==> |c.bytes| == cap || (c.nget == |input| && (fin ==> c.rc == 1 || c.bytes != [])))
  }

  /** What comes out is never less than what went in, as for data that does not compress, and nothing fails. */
  ghost predicate Expands<S(!new)>(z: Compress<S>) {
    forall s, input, cap, fin :: var c := z(s, input, cap, fin); c.nget <= |c.bytes| && c.rc != -1
  }

  lemma Regroup(x: seq<Byte>, y: seq<Byte>, z: seq<Byte>)
    ensures x + y + z == x + (y + z)
  {
  }

  class Sender<S(!new)> {
    const file: seq<Byte>                // the file in transfer
    const z: Compress<S>
    const zObuf: array<Byte>
    const obuf: array<Byte>
    const oblksize: nat
    var pos: nat                         // ftello
    var zOleft: nat
    var zOdata: S
    var zSend: bool
    ghost var fed: seq<Byte>             // what the compressor was given and has used
    ghost var made: seq<Byte>            // what it gave
    ghost const start: nat               // the offset at which the transfer starts
    ghost const stale: seq<Byte>         // what the buffer held then

    /** Every byte from the start of the transfer is with the compressor, in the buffer, or still in the file. */
    ghost predicate Valid()
      reads this, zObuf
    {
      && zObuf.Length == ZBLKSIZE && zOleft <= ZBLKSIZE && start <= pos <= |file|
      && obuf.Length >= BLK_HDR_SIZE + oblksize && oblksize > 0 && obuf != zObuf
      && fed + zObuf[..zOleft] == stale + file[start..pos]
      && (!zSend ==> pos == |file| && zOleft == 0)
    }

    /** A transfer from `start`, with `left` still in the buffer. */
    constructor (file: seq<Byte>, start: nat, z: Compress<S>, s: S, oblksize: nat, left: seq<Byte>)
      requires start <= |file| && oblksize > 0 && |left| <= ZBLKSIZE
      ensures Valid() && zSend && pos == start && fed == made == [] && stale == left
      ensures this.file == file && this.start == start && this.z == z && this.oblksize == oblksize && fresh(zObuf)
      ensures fresh(obuf)
    {
      this.file, this.z, this.oblksize := file, z, oblksize;
      var b := new Byte[ZBLKSIZE](i => if 0 <= i < |left| then left[i] else 0);
      zObuf := b;
      obuf := new Byte[BLK_HDR_SIZE + oblksize](_ => 0);
      pos, zOleft, zOdata, zSend := start, |left|, s, true;
      fed, made := [], [];
      this.start, this.stale := start, left;
      new;
      assert zObuf[..zOleft] == left;
      assert file[start..start] == [] && fed + left == left + [];
    }

    /** fread: `n` bytes go into the buffer at `at`. */
    method Read(at: nat, n: nat)
      requires at + n <= zObuf.Length && pos + n <= |file|
      modifies this`pos, zObuf
      ensures pos == old(pos) + n && zObuf[..at + n] == old(zObuf[..at]) + file[old(pos)..pos]
    {
      forall j | 0 <= j < n { zObuf[at + j] := file[pos + j]; }
      assert zObuf[..at + n] == old(zObuf[..at]) + file[pos..pos + n];
      pos := pos + n;
    }

    /** do_compress, into the output buffer behind the `nput` bytes that are there. */
    method DoCompress(sz: nat, nput: nat) returns (nget: nat, ocnt: nat, rc: int)
      requires Honest(z) && sz <= zObuf.Length && nput <= oblksize && obuf.Length >= BLK_HDR_SIZE + oblksize
      requires obuf != zObuf
      modifies this`zOdata, this`fed, this`made, obuf
      ensures nget <= sz && ocnt <= oblksize - nput
      ensures fed == old(fed) + zObuf[..nget] && made == old(made) + obuf[2 + nput..2 + nput + ocnt]
      ensures obuf[2..2 + nput] == old(obuf[2..2 + nput])
      ensures rc == 1 ==> pos >= |file| && nget == sz
      ensures rc != -1 ==> ocnt == oblksize - nput || (nget == sz && (pos >= |file| ==> rc == 1 || ocnt > 0))
      ensures Expands(z) ==> nget <= ocnt && rc != -1
    {
      var c := z(zOdata, zObuf[..sz], oblksize - nput, pos >= |file|);
      zOdata, nget, ocnt, rc := c.s, c.nget, |c.bytes|, c.rc;
      forall j | 0 <= j < |c.bytes| { obuf[2 + nput + j] := c.bytes[j]; }
      fed := fed + zObuf[..nget];
      made := made + c.bytes;
      assert obuf[2 + nput..2 + nput + ocnt] == c.bytes;
    }

    /** The unused rest of the buffer moves to its front. */
    method CarryOver(nget: nat, sz: nat)
      requires nget <= sz <= zObuf.Length
      modifies this`zOleft, zObuf
      ensures zOleft == sz - nget && zObuf[..zOleft] == old(zObuf[nget..sz])
    {
      ghost var rest := zObuf[nget..sz];
      if nget < sz {
        forall j | 0 <= j < sz - nget { zObuf[j] := zObuf[nget + j]; }
        zOleft := sz - nget;
      } else {
        zOleft := 0;
      }
      assert zObuf[..zOleft] == rest;
    }

    /** What is in the buffer, up to `sz`, is what the compressor still needs of the file up to the read position. */
    ghost predicate Feeding(sz: nat)
      reads this, zObuf
    {
      && zObuf.Length == ZBLKSIZE && sz <= ZBLKSIZE && start <= pos <= |file|
      && obuf.Length >= BLK_HDR_SIZE + oblksize && oblksize > 0 && obuf != zObuf
      && fed + zObuf[..sz] == stale + file[start..pos]
    }

    /** How much the first read of a block takes. */
    ghost function First(): nat
      requires zOleft <= ZBLKSIZE && pos <= |file|
      reads this
    {
      if ZBLKSIZE - zOleft < |file| - pos then ZBLKSIZE - zOleft else |file| - pos
    }

    /** Fill the buffer behind what was carried over. */
    method FirstRead() returns (sz: nat)
      requires Valid()
      modifies this`pos, zObuf
      ensures Feeding(sz) && pos == old(pos) + old(First())
    {
      var n := if ZBLKSIZE - zOleft < |file| - pos then ZBLKSIZE - zOleft else |file| - pos;
      ghost var carry, here := zObuf[..zOleft], pos;
      Read(zOleft, n);
      assert stale + file[start..pos] == stale + file[start..here] + file[here..pos];
      assert fed + (carry + file[here..pos]) == fed + carry + file[here..pos];
      sz := zOleft + n;
    }

    /** The buffer is used up: fill it again. */
    method NextRead(n: nat)
      requires Feeding(0) && n <= ZBLKSIZE && pos + n <= |file|
      modifies this`pos, zObuf
      ensures Feeding(n) && pos == old(pos) + n
    {
      ghost var here := pos;
      Read(0, n);
      assert stale + file[start..pos] == stale + file[start..here] + file[here..pos];
      assert fed + zObuf[..0] == fed;
    }

    /** One call of the inner loop, which began when `done` was made. */
    method CallOnce(sz: nat, nput: nat, ghost done: seq<Byte>) returns (nget: nat, ocnt: nat, rc: int)
      requires Honest(z) && Feeding(sz) && nput < oblksize && made == done + obuf[2..2 + nput]
      modifies this`zOdata, this`fed, this`made, obuf
      ensures nget <= sz && ocnt <= oblksize - nput && made == done + obuf[2..2 + nput + ocnt]
      ensures fed + zObuf[nget..sz] == stale + file[start..pos] && |fed| == |old(fed)| + nget
      ensures rc == 1 ==> pos >= |file| && nget == sz
      ensures rc != -1 ==> ocnt == oblksize - nput || (nget == sz && (pos >= |file| ==> rc == 1 || ocnt > 0))
      ensures Expands(z) ==> nget <= ocnt && rc != -1
    {
      ghost var was, block := fed, obuf[2..2 + nput];
      nget, ocnt, rc := DoCompress(sz, nput);
      Regroup(done, block, obuf[2 + nput..2 + nput + ocnt]);
      assert obuf[2..2 + nput + ocnt] == block + obuf[2 + nput..2 + nput + ocnt];
      Regroup(was, zObuf[..nget], zObuf[nget..sz]);
      assert zObuf[..nget] + zObuf[nget..sz] == zObuf[..sz];
    }

    /** The inner loop: call the compressor until the block is full or the stream ends. */
    method Fill(first: nat) returns (ok: bool, nput: nat, nget: nat, sz: nat, rc: int)
      requires Honest(z) && Feeding(first)
      modifies this`pos, this`zOdata, this`fed, this`made, zObuf, obuf
      ensures nput <= oblksize && made == old(made) + obuf[2..2 + nput]
      ensures ok ==> nget <= sz <= ZBLKSIZE && start <= pos <= |file|
      ensures ok ==> fed + zObuf[nget..sz] == stale + file[start..pos]
      ensures ok ==> (pos == |file| && rc == 1 && nget == sz) || (nput == oblksize && !(pos == |file| && rc == 1))
      ensures pos >= old(pos) && (Expands(z) ==> ok && |fed| <= |old(fed)| + nput)
    {
      sz, nput, nget, rc := first, 0, 0, 0;
      while true
        invariant Feeding(sz) && nput < oblksize
        invariant made == old(made) + obuf[2..2 + nput]
        invariant pos >= old(pos) && (Expands(z) ==> |fed| <= |old(fed)| + nput)
        decreases |file| - pos, oblksize - nput
      {
        var ocnt;
        nget, ocnt, rc := CallOnce(sz, nput, old(made));
        nput := nput + ocnt;
        if rc == -1 {
          ok := false;
          return;
        }
        if (pos >= |file| && rc == 1) || nput == oblksize {
          ok := true;
          return;
        }
        assert zObuf[nget..sz] == [] == zObuf[..0];
        sz := if |file| - pos < ZBLKSIZE then |file| - pos else ZBLKSIZE;
        if sz != 0 {
          NextRead(sz);
        }
      }
    }

    /** One compressed data block of send_block: at most `oblksize` bytes, and all it can hold unless the stream
        ends. */
    method CompressBlock() returns (ok: bool, nput: nat)
      requires Valid() && zSend && Honest(z)
      modifies this`pos, this`zOleft, this`zOdata, this`zSend, this`fed, this`made, zObuf, obuf
      ensures nput <= oblksize && made == old(made) + obuf[2..2 + nput]
      ensures ok ==> Valid() && (zSend ==> nput == oblksize)
      ensures Expands(z) ==> ok && |fed| <= |old(fed)| + nput && pos >= old(pos) + old(First())
    {
      var sz := FirstRead();
      var nget, rc;
      ok, nput, nget, sz, rc := Fill(sz);
      if ok {
        CarryOver(nget, sz);
        if pos >= |file| && rc == 1 {
          zSend := false;
        }
      }
    }

    /** The end of a transfer: the compressor was given what the buffer held at its start and then the file. So it was
        given just the file if and only if nothing was left over from another transfer. */
    lemma Transferred()
      requires Valid() && !zSend
      ensures fed == stale + file[start..]
      ensures fed == file[start..] <==> stale == []
    {
      assert file[start..pos] == file[start..];
      assert zObuf[..0] == [];
      assert fed + [] == fed;
      if fed == file[start..] {
        assert |fed| == |stale| + |file[start..]|;
      } else {
        assert [] + file[start..] == file[start..];
      }
    }
  }

  // ---- a transfer that is given up ----

  /** Data that does not compress: behind the first block of a transfer something is left in the buffer, and it is there
      still when M_GOT or M_SKIP ends the transfer. The next one, of any file, gives it to the compressor first. */
  method GivenUp<S(!new)>(file: seq<Byte>, z: Compress<S>, s: S, oblksize: nat, next: seq<Byte>)
    returns (c: Sender<S>, d: Sender<S>)
    requires Honest(z) && Expands(z) && 0 < oblksize < ZBLKSIZE && oblksize < |file|
    ensures c.Valid() && c.zSend && c.zOleft > 0 && c.made != []
    ensures d.Valid() && d.file == next && d.start == 0 && d.stale == c.zObuf[..c.zOleft] != []
  {
    c := new Sender(file, 0, z, s, oblksize, []);
    var ok, nput := c.CompressBlock();
    assert |c.fed + c.zObuf[..c.zOleft]| == |c.stale + file[0..c.pos]|;
    d := new Sender(next, 0, z, s, oblksize, c.zObuf[..c.zOleft]);
  }

  /** Such data, and such a compressor: one that copies. */
  function Copying(): Compress<()> {
    (s: (), input: seq<Byte>, cap: nat, fin: bool) =>
      var n := if cap < |input| then cap else |input|;
      Call((), n, input[..n], if fin && n == |input| then 1 else 0)
  }

  lemma CopyingIs()
    ensures Honest(Copying()) && Expands(Copying())
  {
  }
}
