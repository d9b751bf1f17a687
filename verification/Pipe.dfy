/** pipe.c as it runs: a ring of bytes with 32-bit counters, writers that sleep when it is full and
    readers that sleep when it is empty. A call that sleeps has given up the lock; when it is woken
    it goes on with another call of the same method. */
module Pipe {
  import opened Param

  const PIPESIZE: nat := 512

  /** How a call ends: it returns, it returns -1, or it sleeps. */
  datatype Outcome = Returns | Fails | Sleeps

  lemma RingIndex(n: nat)
    ensures n % U32 % PIPESIZE == n % PIPESIZE
  {}

  lemma NextCount(n: nat)
    ensures (n % U32 + 1) % U32 == (n + 1) % U32
  {}

  /** Places in the ring are apart as long as there is room for them. */
  lemma RingApart(a: nat, b: nat)
    requires a < b < a + PIPESIZE
    ensures a % PIPESIZE != b % PIPESIZE
  {}

  lemma CountersEqual(w: nat, r: nat)
    requires r <= w <= r + PIPESIZE
    ensures w % U32 == r % U32 <==> w == r
    ensures w % U32 == (r % U32 + PIPESIZE) % U32 <==> w == r + PIPESIZE
  {}

  class PipeBuffer {
    const data: array<Byte>
    var nread: nat
    var nwrite: nat
    var readopen: bool
    var writeopen: bool
    ghost var accepted: seq<Byte>   // every byte taken from a writer
    ghost var delivered: nat        // how many of them readers have got
    ghost var readers: nat          // processes asleep on &nread
    ghost var writers: nat          // processes asleep on &nwrite
    ghost var abandoned: bool       // a killed writer gave up with bytes in the ring, waking nobody

    ghost predicate Ring()
      reads this, data
    {
      && data.Length == PIPESIZE && delivered <= |accepted| <= delivered + PIPESIZE
      && nread == delivered % U32 && nwrite == |accepted| % U32
      && forall k :: delivered <= k < |accepted| ==> data[k % PIPESIZE] == accepted[k]
    }

    ghost predicate Valid()
      reads this, data
    {
      && Ring()
      && (writers > 0 ==> |accepted| == delivered + PIPESIZE && readopen)
      && (readers > 0 ==> writeopen && readopen && (|accepted| == delivered || abandoned))
    }

    /** The bytes in the ring, oldest first. */
    ghost function Contents(): (c: seq<Byte>)
      reads this, data
      requires Ring()
      ensures accepted[..delivered] + c == accepted && |c| <= PIPESIZE
    {
      accepted[delivered..]
    }

    /** Some reader is asleep although there are bytes to read. */
    ghost predicate Stranded()
      reads this
    {
      readers > 0 && |accepted| > delivered
    }

    constructor ()
      ensures Valid() && fresh(data) && accepted == [] && delivered == 0 && readopen && writeopen
      ensures readers == writers == 0 && !abandoned
    {
      data := new Byte[PIPESIZE](i => 0);
      nread, nwrite, readopen, writeopen := 0, 0, true, true;
      accepted, delivered, readers, writers, abandoned := [], 0, 0, 0, false;
    }

    ghost method WakeReaders()
      modifies this`readers, this`abandoned
      ensures readers == 0 && !abandoned
    {
      readers, abandoned := 0, false;
    }

    ghost method WakeWriters()
      modifies this`writers
      ensures writers == 0
    {
      writers := 0;
    }

    /** kill wakes a reader, which goes on with Read. */
    ghost method KillReader()
      requires Valid() && readers > 0
      modifies this`readers
      ensures Valid() && readers == old(readers) - 1 && (Stranded() ==> old(Stranded()))
    {
      readers := readers - 1;
    }

    /** kill wakes a writer, which goes on with Write. */
    ghost method KillWriter()
      requires Valid() && writers > 0
      modifies this`writers
      ensures Valid() && writers == old(writers) - 1
    {
      writers := writers - 1;
    }

    /** p->data[p->nwrite++ % PIPESIZE] = b */
    method Put(b: Byte)
      requires Ring() && |accepted| < delivered + PIPESIZE
      modifies this`nwrite, this`accepted, data
      ensures Ring() && accepted == old(accepted) + [b]
    {
      RingIndex(|accepted|);
      forall k | delivered <= k < |accepted| ensures k % PIPESIZE != |accepted| % PIPESIZE {
        RingApart(k, |accepted|);
      }
      NextCount(|accepted|);
      data[nwrite % PIPESIZE] := b;
      nwrite := (nwrite + 1) % U32;
      accepted := accepted + [b];
    }

    /** One stretch of pipewrite with the lock held, from byte i on. It leaves readers asleep with bytes
        to read exactly when it starts with readers asleep, is killed, and has more than fits. */
    method Write(addr: seq<Byte>, i: nat, killed: bool) returns (r: Outcome, j: nat)
      requires Valid() && i <= |addr|
      modifies this`nwrite, this`accepted, this`readers, this`writers, this`abandoned, data
      ensures Valid() && i <= j <= |addr| && accepted == old(accepted) + addr[i..j]
      ensures r == Returns ==> j == |addr| && readers == 0 && writers == old(writers)
      ensures r != Returns ==> j < |addr| && |accepted| == delivered + PIPESIZE
      ensures r == Fails <==> (!readopen || killed) && |addr| - i > delivered + PIPESIZE - old(|accepted|)
      ensures r == Fails ==> readers == old(readers) && writers == old(writers) && abandoned == (old(abandoned) || j > i)
      ensures r == Sleeps ==> readers == 0 && writers == old(writers) + 1
      ensures !old(Stranded()) ==> (Stranded() <==> old(readers) > 0 && killed && |addr| - i > PIPESIZE)
    {
      j := i;
      while j < |addr|
        invariant i <= j <= |addr| && Ring() && accepted == old(accepted) + addr[i..j]
        invariant readers == old(readers) && writers == old(writers) && abandoned == old(abandoned)
        invariant j > i ==> old(writers) == 0 || old(|accepted|) < delivered + PIPESIZE
      {
        CountersEqual(|accepted|, delivered);
        if nwrite == (nread + PIPESIZE) % U32 {
          if !readopen || killed {
            abandoned := abandoned || j > i;
            return Fails, j;
          }
          WakeReaders();
          writers := writers + 1;
          return Sleeps, j;
        }
        Put(addr[j]);
        j := j + 1;
      }
      WakeReaders();
      return Returns, j;
    }

    /** data[p->nread++ % PIPESIZE] */
    method Get() returns (b: Byte)
      requires Ring() && delivered < |accepted|
      modifies this`nread, this`delivered
      ensures Ring() && delivered == old(delivered) + 1 && b == accepted[old(delivered)]
    {
      RingIndex(delivered);
      NextCount(delivered);
      b := data[nread % PIPESIZE];
      nread := (nread + 1) % U32;
      delivered := delivered + 1;
    }

    /** One stretch of piperead with the lock held: the oldest bytes there are, n at most. */
    method Read(n: nat, killed: bool) returns (r: Outcome, addr: seq<Byte>)
      requires Valid() && readopen
      modifies this`nread, this`delivered, this`readers, this`writers
      ensures Valid()
      ensures r == Fails <==> old(Contents()) == [] && writeopen && killed
      ensures r == Sleeps <==> old(Contents()) == [] && writeopen && !killed
      ensures r == Returns ==> |addr| == Min(n, |old(Contents())|) && addr == old(Contents())[..|addr|]
                               && delivered == old(delivered) + |addr| && writers == 0 && readers == old(readers)
      ensures r != Returns ==> addr == [] && delivered == old(delivered) && writers == old(writers)
      ensures r == Sleeps ==> readers == old(readers) + 1
    {
      addr := [];
      CountersEqual(|accepted|, delivered);
      if nread == nwrite && writeopen {
        if killed {
          return Fails, [];
        }
        readers := readers + 1;
        return Sleeps, [];
      }
      ghost var c := Contents();
      var i := 0;
      while i < n
        invariant 0 <= i <= n && i <= |c| && Ring() && |addr| == i && delivered == old(delivered) + i && addr == c[..i]
        invariant readers == old(readers) && writers == old(writers)
      {
        CountersEqual(|accepted|, delivered);
        if nread == nwrite {
          break;
        }
        var b := Get();
        addr := addr + [b];
        i := i + 1;
      }
      WakeWriters();
      return Returns, addr;
    }

    /** pipeclose; freed once both ends are closed. Nobody is reading when the read end closes. */
    method Close(writable: bool) returns (freed: bool)
      requires Valid() && (!writable ==> readers == 0)
      modifies this`readopen, this`writeopen, this`readers, this`writers, this`abandoned
      ensures Valid() && freed == (!readopen && !writeopen)
      ensures writeopen == (old(writeopen) && !writable) && readopen == (old(readopen) && writable)
      ensures if writable then readers == 0 && writers == old(writers) else writers == 0 && readers == old(readers)
    {
      if writable {
        writeopen := false;
        WakeReaders();
      } else {
        readopen := false;
        WakeWriters();
      }
      return !readopen && !writeopen;
    }
  }

  /** Readers can be left asleep with bytes to read: a reader sleeps, a writer fills the ring, and finds
      itself killed before it has woken anybody. */
  method KilledWriterStrandsReader() returns (p: PipeBuffer)
    ensures p.Valid() && p.readers == 1 && |p.Contents()| == PIPESIZE && p.writeopen
  {
    p := new PipeBuffer();
    var r, got := p.Read(1, false);
    var j;
    r, j := p.Write(seq(PIPESIZE + 1, i => 0), 0, true);
  }
}
