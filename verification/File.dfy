/** file.c: an open file's offset, and writes cut into transactions that fit the log. */
module File {
  import opened Collections
  import opened Param
  import opened Blocks
  import opened FsLayout
  import opened FsImage
  import opened FsWrite
  import opened FileSystem

  /** What filewrite sends to one writei: three blocks' worth. */
  const MAXCHUNK: nat := (MAXOPBLOCKS - 1 - 1 - 2) / 2 * 512

  class OpenFile {
    const readable: bool
    const writable: bool
    const ip: nat
    var off: nat

    constructor (ip: nat, readable: bool, writable: bool)
      ensures this.ip == ip && this.readable == readable && this.writable == writable && off == 0
    {
      this.ip, this.readable, this.writable, this.off := ip, readable, writable, 0;
    }
  }

  /** The length of the chunk that starts i bytes into n. */
  function Chunk(n: int, i: nat): (k: nat)
    requires i < n
    ensures 0 < k <= MAXCHUNK && i + k <= n
  {
    if n - i > MAXCHUNK then MAXCHUNK else n - i
  }

  /** How many bytes of a request that does not fit go in before the chunk that fails. */
  function Accepted(size: nat, off: nat, n: nat): nat {
    if n == 0 || off > size then 0
    else if off + n <= MAXFILE * BSIZE then n
    else if off > MAXFILE * BSIZE then 0
    else (MAXFILE * BSIZE - off) / MAXCHUNK * MAXCHUNK
  }

  predicate Small(t: set<nat>) {
    |t| <= MAXOPBLOCKS
  }

  lemma {:induction false} SplicedTwice(c: seq<Byte>, off: nat, a: seq<Byte>, b: seq<Byte>)
    requires off <= |c|
    ensures off + |a| <= |Spliced(c, off, a)|
    ensures Spliced(Spliced(c, off, a), off + |a|, b) == Spliced(c, off, a + b)
  {
    var s, t := Spliced(Spliced(c, off, a), off + |a|, b), Spliced(c, off, a + b);
    assert |s| == |t|;
    forall o | 0 <= o < |s| ensures s[o] == t[o] {}
  }

  lemma WroteTwice(im0: Image, im1: Image, im2: Image, i: nat, off: nat, a: seq<Byte>, b: seq<Byte>)
    requires Wrote(im0, im1, i, off, a) && Wrote(im1, im2, i, off + |a|, b)
    ensures Wrote(im0, im2, i, off, a + b)
  {
    SplicedTwice(Content(im0, i), off, a, b);
  }

  lemma WroteNothing(im: Image, i: nat, off: nat)
    requires Shape(im) && i < |im.inodes| && off <= im.inodes[i].size
    ensures Wrote(im, im, i, off, [])
  {
    assert Spliced(Content(im, i), off, []) == Content(im, i);
    assert im.inodes[i].(addrs := im.inodes[i].addrs) == im.inodes[i];
  }

  /** A write and then a read, of the same file or of another one. What was written is read back, and
      every other byte is what it was before; a write that is refused is as if it had not been. */
  method WriteThenRead(fs: FileSystem, i: nat, src: seq<Byte>, off: nat, j: nat, from: nat, n: nat)
      returns (ok: bool, w: int, r: int, dst: seq<Byte>)
    requires fs.Valid() && i < |fs.inodes| && j < |fs.inodes| && fs.inodes[i].kind != T_DEV && fs.inodes[j].kind != T_DEV
    requires off < U32 && |src| < U32 && from < U32 && n < U32
    modifies fs
    ensures ok <==> w == -1 || SlotsTo(old(fs.Im()), i, off + |src|) <= old(fs.Stock(i))
    ensures w == -1 <==> off > old(fs.inodes[i].size) || off + |src| > MAXFILE * BSIZE
    ensures ok ==>
              var before := old(Content(fs.Im(), j));
              var after := if w != -1 && j == i then Spliced(before, off, src) else before;
              && (r == -1 <==> from > |after| || from + n >= U32)
              && (r != -1 ==> r == Min(n, |after| - from) && dst == after[from..from + r])
    ensures ok && w != -1 && j == i && from == off && n == |src| && off + n < U32 ==> dst == src
  {
    hide Good, GoodBut, SlotsTo, Wrote, Content, Spliced;
    ghost var im0 := fs.Im();
    ghost var more;
    ok, w, more := fs.Writei(i, src, off, NoDevice);
    if !ok {
      return ok, w, -1, [];
    }
    if w != -1 {
      AfterWrite(im0, fs.Im(), i, j, off, src);
    }
    ok, r, dst := fs.Readi(j, from, n, NoDevice);
  }

  lemma AfterWrite(im0: Image, im: Image, i: nat, j: nat, off: nat, src: seq<Byte>)
    requires Wrote(im0, im, i, off, src) && j < |im0.inodes|
    ensures FsImage.Shape(im0) && FsImage.Shape(im) && j < |im.inodes| == |im0.inodes|
    ensures Content(im, j) == if j == i then Spliced(Content(im0, i), off, src) else Content(im0, j)
    ensures |Content(im, j)| == im.inodes[j].size && im.inodes[j].kind == im0.inodes[j].kind
    ensures j == i ==> |Content(im, j)| >= off + |src| && Content(im, j)[off..off + |src|] == src
  {
    hide Content;
  }

  /** The bytes from the offset up to the end of the file or of the request, whichever is first; what
      a device inode's device answers. The offset moves past what was read. */
  method FileRead(fs: FileSystem, f: OpenFile, n: nat, dev: Device) returns (ok: bool, r: int, dst: seq<Byte>)
    requires fs.Valid() && f.ip < |fs.inodes| && f.off < U32 && n < U32
    modifies fs, f
    ensures ok && fs.Im() == old(fs.Im()) && fs.Valid()
    ensures !f.readable ==> r == -1
    ensures f.off == old(f.off) + if r > 0 then r else 0
    ensures f.readable && fs.inodes[f.ip].kind == T_DEV ==> if dev == NoDevice then r == -1 else r == dev.r && dst == dev.data
    ensures f.readable && fs.inodes[f.ip].kind != T_DEV ==>
              && (r == -1 <==> old(f.off) > fs.inodes[f.ip].size || old(f.off) + n >= U32)
              && (r != -1 ==> r >= 0 && f.off <= fs.inodes[f.ip].size && dst == Content(fs.Im(), f.ip)[old(f.off)..f.off]
                              && (r == n || f.off == fs.inodes[f.ip].size))
  {
    if !f.readable {
      return true, -1, [];
    }
    ok, r, dst := fs.Readi(f.ip, f.off, n, dev);
    if r > 0 {
      f.off := f.off + r;
    }
  }

  /** What writei refuses with -1. */
  ghost predicate Refused(im: Image, ip: nat, off: nat, n: nat)
    requires ip < |im.inodes|
  {
    off > im.inodes[ip].size || off + n > MAXFILE * BSIZE
  }

  /** filewrite's n bytes at off fit on the disk: all that go in have slots among the blocks that the
      file has and those that are free. */
  ghost predicate Fits(im: Image, ip: nat, off: nat, n: int, stock: int)
    requires ip < |im.inodes|
  {
    var size := im.inodes[ip].size;
    n <= 0 || off > size || SlotsTo(im, ip, off + Accepted(size, off, n)) <= stock
  }

  /** One transaction of filewrite. */
  method WriteChunk(fs: FileSystem, f: OpenFile, part: seq<Byte>) returns (ok: bool, r: int)
    requires fs.Valid() && f.ip < |fs.inodes| && fs.inodes[f.ip].kind != T_DEV && f.off < U32 && 0 < |part| <= MAXCHUNK
    modifies fs, f
    ensures ok <==> Refused(old(fs.Im()), f.ip, old(f.off), |part|) || SlotsTo(old(fs.Im()), f.ip, old(f.off) + |part|) <= old(fs.Stock(f.ip))
    ensures ok ==> f.ip < |fs.m| && fs.Stock(f.ip) == old(fs.Stock(f.ip))
    ensures ok ==> fs.Valid() && fs.history == old(fs.history) + [fs.logged] && Small(fs.logged)
    ensures ok ==> (r == -1 <==> Refused(old(fs.Im()), f.ip, old(f.off), |part|))
    ensures ok && r == -1 ==> fs.Im() == old(fs.Im()) && f.off == old(f.off)
    ensures ok && r != -1 ==> r == |part| && f.off == old(f.off) + |part| && Wrote(old(fs.Im()), fs.Im(), f.ip, old(f.off), part)
  {
    hide Good, GoodBut, Wrote, SlotsTo, Small, Content, Spliced, fs.Framed, fs.Stock;
    fs.BeginOp();
    ghost var more;
    ok, r, more := fs.Writei(f.ip, part, f.off, NoDevice);
    assert r == -1 <==> Refused(old(fs.Im()), f.ip, old(f.off), |part|);
    if ok {
      if r > 0 {
        f.off := f.off + r;
      }
      SmallEnough(fs.logged, more);
      fs.EndOp();
    }
  }

  lemma SmallEnough(logged: set<nat>, more: set<nat>)
    requires logged <= {} + more && |more| <= MAXOPBLOCKS
    ensures Small(logged)
  {
    SubsetCard(logged, more);
  }

  /** Where filewrite stands after i bytes. */
  ghost predicate WrittenSoFar(im0: Image, im: Image, ip: nat, off0: nat, off: nat, src: seq<Byte>, i: nat) {
    && Shape(im0) && Shape(im) && i <= |src| && ip < |im.inodes| == |im0.inodes| && off == off0 + i
    && im.inodes[ip].kind == im0.inodes[ip].kind
    && (i > 0 ==> off0 <= im0.inodes[ip].size && off0 + i <= im.inodes[ip].size <= MAXFILE * BSIZE)
    && (i == 0 ==> im == im0)
    && (off0 <= im0.inodes[ip].size ==> Wrote(im0, im, ip, off0, src[..i]))
  }

  lemma WrittenStart(im: Image, m: seq<nat>, owner: Owner, ip: nat, off: nat, src: seq<Byte>)
    requires Good(im, m, owner) && ip < |im.inodes|
    ensures WrittenSoFar(im, im, ip, off, off, src, 0)
  {
    if off <= im.inodes[ip].size {
      WroteNothing(im, ip, off);
      assert src[..0] == [];
    }
  }

  lemma WrittenMore(im0: Image, im1: Image, im2: Image, ip: nat, off0: nat, off: nat, src: seq<Byte>, i: nat, k: nat)
    requires WrittenSoFar(im0, im1, ip, off0, off, src, i) && i + k <= |src| && 0 < k
    requires Wrote(im1, im2, ip, off, src[i..i + k])
    ensures WrittenSoFar(im0, im2, ip, off0, off + k, src, i + k)
  {
    hide Wrote, Shape;
    WroteSizes(im1, im2, ip, off, src[i..i + k]);
    if off0 <= im0.inodes[ip].size {
      WroteTwice(im0, im1, im2, ip, off0, src[..i], src[i..i + k]);
      assert src[..i] + src[i..i + k] == src[..i + k];
    }
  }

  lemma WrittenFacts(im0: Image, im: Image, ip: nat, off0: nat, off: nat, src: seq<Byte>, i: nat)
    requires WrittenSoFar(im0, im, ip, off0, off, src, i)
    ensures ip < |im.inodes| && im.inodes[ip].kind == im0.inodes[ip].kind && im.inodes[ip].size <= MAXFILE * BSIZE
    ensures i > 0 || off0 <= im0.inodes[ip].size ==> off <= im.inodes[ip].size
    ensures i == 0 ==> im == im0
  {}

  /** A chunk is refused exactly where the accepted bytes end. */
  lemma ChunkRefused(size: nat, off0: nat, i: nat, n: nat, k: nat)
    requires i < n && i % MAXCHUNK == 0 && k == Chunk(n, i)
    requires off0 + i <= MAXFILE * BSIZE && off0 <= size && off0 + i + k > MAXFILE * BSIZE
    ensures i == Accepted(size, off0, n)
  {}

  lemma StockStart(fs: FileSystem, ip: nat, off: nat)
    requires fs.Valid() && ip < |fs.inodes|
    ensures ip < |fs.m| && (off <= fs.inodes[ip].size ==> SlotsTo(fs.Im(), ip, off) <= fs.Stock(ip))
  {
    fs.RoomIsFree(-1);
  }

  lemma AcceptedAll(size: nat, off: nat, n: int)
    ensures n >= 0 && off > size ==> Accepted(size, off, n) == 0
    ensures n == 0 || (n > 0 && off <= size && off + n <= MAXFILE * BSIZE) ==> Accepted(size, off, n) == n
  {}

  /** A chunk that does not fit on the disk is among those that go in. */
  lemma NextChunk(im0: Image, im: Image, ip: nat, off0: nat, off: nat, src: seq<Byte>, i: nat, n: int, k: nat, stock: int)
    requires WrittenSoFar(im0, im, ip, off0, off, src, i) && i < n <= |src| && i % MAXCHUNK == 0 && k == Chunk(n, i)
    requires off0 <= im0.inodes[ip].size || i == 0
    ensures ip < |im.inodes| && ip < |im0.inodes|
    ensures !Refused(im, ip, off, k) ==> off0 <= im0.inodes[ip].size && off + k <= MAXFILE * BSIZE && SlotsTo(im, ip, off + k) == SlotsTo(im0, ip, off + k)
    ensures !Refused(im, ip, off, k) && SlotsTo(im, ip, off + k) > stock ==> !Fits(im0, ip, off0, n, stock)
    ensures Refused(im, ip, off, k) && off0 <= im0.inodes[ip].size ==> off + k > MAXFILE * BSIZE
  {
    hide Content, Spliced, Accepted, BlocksFor, SlotsFor;
    if off0 <= im0.inodes[ip].size {
      WroteSizes(im0, im, ip, off0, src[..i]);
      if !Refused(im, ip, off, k) {
        ChunkAccepted(im0.inodes[ip].size, off0, i, n, k);
        SlotsGrow(im0, ip, off + k, off0 + Accepted(im0.inodes[ip].size, off0, n));
      }
    }
  }

  lemma ChunkAccepted(size: nat, off0: nat, i: nat, n: nat, k: nat)
    requires i < n && i % MAXCHUNK == 0 && k == Chunk(n, i)
    requires off0 <= size && off0 + i + k <= MAXFILE * BSIZE
    ensures i + k <= Accepted(size, off0, n)
  {}

  lemma LastChunk(im0: Image, ip: nat, off0: nat, i: nat, n: int, stock: int, ok: bool)
    requires ip < |im0.inodes|
    requires ok && 0 <= n ==> i == Accepted(im0.inodes[ip].size, off0, n)
    requires ok ==> off0 <= im0.inodes[ip].size ==> SlotsTo(im0, ip, off0 + i) <= stock
    ensures ok ==> Fits(im0, ip, off0, n, stock)
  {}

  /** How far a device takes n bytes from i on: to the first chunk that it does not take whole, where
      answers gives what its write function returns for the chunk at each place, -1 if it has none. */
  ghost function Taken(answers: nat -> int, n: int, i: nat): (k: nat)
    ensures i <= n ==> i <= k <= n
    decreases n - i
  {
    if i < n && answers(i) == Chunk(n, i) then Taken(answers, n, i + Chunk(n, i)) else i
  }

  /** An offset as the 32-bit word that holds it. */
  function Wrap(off: nat): (w: nat)
    ensures w < U32 && (off < U32 ==> w == off)
  {
    off % U32
  }

  /** One transaction of filewrite on a device: nothing is logged. */
  method DeviceChunk(fs: FileSystem, f: OpenFile, part: seq<Byte>, answer: int) returns (r: int)
    requires fs.Valid() && f.ip < |fs.inodes| && fs.inodes[f.ip].kind == T_DEV && f.off < U32 && |part| <= MAXCHUNK
    modifies fs, f
    ensures fs.Valid() && fs.Im() == old(fs.Im()) && f.ip < |fs.m| && fs.Stock(f.ip) == old(fs.Stock(f.ip))
    ensures fs.history == old(fs.history) + [fs.logged] && fs.logged == {}
    ensures r == answer && f.off == if r > 0 then Wrap(old(f.off) + r) else old(f.off)
  {
    hide Good, GoodBut;
    fs.BeginOp();
    ghost var logged;
    var done;
    done, r, logged := fs.Writei(f.ip, part, f.off, Answers(answer, []));
    if r > 0 {
      f.off := Wrap(f.off + r);
    }
    fs.EndOp();
  }

  /** filewrite's loop on a device. */
  method WriteDevice(fs: FileSystem, f: OpenFile, src: seq<Byte>, n: int, answers: nat -> int) returns (ok: bool, i: nat)
    requires fs.Valid() && f.ip < |fs.inodes| && fs.inodes[f.ip].kind == T_DEV && f.off < U32 && n <= |src|
    modifies fs, f
    ensures fs.Valid() && fs.Im() == old(fs.Im()) && f.ip < |fs.m| && fs.Stock(f.ip) == old(fs.Stock(f.ip))
    ensures old(|fs.history|) <= |fs.history| && forall k :: old(|fs.history|) <= k < |fs.history| ==> Small(fs.history[k])
    ensures i == Taken(answers, n, 0) && (ok <==> i >= n || answers(i) < 0)
    ensures ok ==> f.off == Wrap(old(f.off) + i)
  {
    hide Good, GoodBut, Small, Taken, Chunk, Wrap, fs.Stock, fs.Framed;
    StockStart(fs, f.ip, f.off);
    SmallNone();
    i, ok := 0, true;
    var more := true;
    while more && i < n
      invariant fs.Valid() && fs.Im() == old(fs.Im()) && f.ip < |fs.m| && fs.Stock(f.ip) == old(fs.Stock(f.ip))
      invariant old(|fs.history|) <= |fs.history| && forall k :: old(|fs.history|) <= k < |fs.history| ==> Small(fs.history[k])
      invariant n >= 0 ==> i <= n
      invariant n < 0 ==> i == 0
      invariant Taken(answers, n, i) == Taken(answers, n, 0)
      invariant ok ==> f.off == Wrap(old(f.off) + i)
      invariant if more then ok else i < n && Taken(answers, n, i) == i && (ok <==> answers(i) < 0)
      decreases n - i, more
    {
      var n1 := Chunk(n, i);
      TakenMore(answers, n, i);
      Wrapped(old(f.off), i, n1);
      var r := DeviceChunk(fs, f, src[i..i + n1], answers(i));
      if r < 0 {
        more := false;
      } else if r != n1 {
        more, ok := false, false;
      } else {
        i := i + r;
      }
    }
    if i >= n {
      TakenEnd(answers, n, i);
    }
  }

  lemma SmallNone()
    ensures Small({})
  {}

  lemma TakenMore(answers: nat -> int, n: int, i: nat)
    requires i < n
    ensures Taken(answers, n, i) == if answers(i) == Chunk(n, i) then Taken(answers, n, i + Chunk(n, i)) else i
  {}

  lemma TakenEnd(answers: nat -> int, n: int, i: nat)
    requires i >= n
    ensures Taken(answers, n, i) == i
  {}

  lemma Wrapped(off: nat, i: nat, k: nat)
    ensures Wrap(Wrap(off + i) + k) == Wrap(off + (i + k))
  {}

  /** Writes the first n bytes of src at the file's offset, in transactions of at most MAXOPBLOCKS
      blocks each. All of them go in, or, past the largest file, those of the whole chunks that fit. A
      device takes whole chunks until one is refused; one taken in part is a panic. */
  method FileWrite(fs: FileSystem, f: OpenFile, src: seq<Byte>, n: int, answers: nat -> int) returns (ok: bool, r: int)
    requires fs.Valid() && f.ip < |fs.inodes| && f.off < U32 && n <= |src|
    modifies fs, f
    ensures ok ==> f.ip < |fs.m| && fs.Stock(f.ip) == old(fs.Stock(f.ip))
    ensures ok ==> fs.Valid() && (f.writable ==> old(|fs.history|) <= |fs.history|)
    ensures ok ==> forall k :: old(|fs.history|) <= k < |fs.history| ==> Small(fs.history[k])
    ensures ok && r != n ==> r == -1
    ensures !f.writable ==> ok && fs.Im() == old(fs.Im()) && f.off == old(f.off) && (0 <= n ==> r == -1)
    ensures old(fs.inodes[f.ip].kind) != T_DEV && f.writable ==>
              && (ok <==> Fits(old(fs.Im()), f.ip, old(f.off), n, old(fs.Stock(f.ip))))
              && (ok && 0 <= n ==> (r == n <==> n == Accepted(old(fs.inodes[f.ip].size), old(f.off), n)))
              && (ok && 0 <= n && old(f.off) <= old(fs.inodes[f.ip].size) ==>
                    var k := Accepted(old(fs.inodes[f.ip].size), old(f.off), n);
                    k <= n && f.off == old(f.off) + k && Wrote(old(fs.Im()), fs.Im(), f.ip, old(f.off), src[..k]))
              && (ok && (n < 0 || old(f.off) > old(fs.inodes[f.ip].size)) ==> fs.Im() == old(fs.Im()) && f.off == old(f.off))
    ensures old(fs.inodes[f.ip].kind) == T_DEV && f.writable ==>
              var k := Taken(answers, n, 0);
              && (ok <==> k >= n || answers(k) < 0) && fs.Im() == old(fs.Im())
              && (ok ==> f.off == Wrap(old(f.off) + k) && (0 <= n ==> (r == n <==> k == n)))
  {
    hide Good, GoodBut, Wrote;
    StockStart(fs, f.ip, f.off);
    if !f.writable {
      return true, -1;
    }
    var i := 0;
    if fs.inodes[f.ip].kind == T_DEV {
      ok, i := WriteDevice(fs, f, src, n, answers);
      return ok, if i == n then n else -1;
    }
    ok, i := WriteAll(fs, f, src, n);
    r := if i == n then n else -1;
    if ok && 0 <= n && old(f.off) <= old(fs.inodes[f.ip].size) {
      assert Wrote(old(fs.Im()), fs.Im(), f.ip, old(f.off), src[..i]);
    }
  }

  /** One round of filewrite's loop: the chunk at i goes in, is refused, or does not fit on the disk. */
  method WritePart(fs: FileSystem, f: OpenFile, src: seq<Byte>, n: int, i: nat, ghost im0: Image, ghost off0: nat, ghost stock: int)
      returns (ok: bool, refused: bool, next: nat)
    requires fs.Valid() && f.ip < |fs.m| && fs.Stock(f.ip) == stock && f.ip < |fs.inodes| && fs.inodes[f.ip].kind != T_DEV
    requires WrittenSoFar(im0, fs.Im(), f.ip, off0, f.off, src, i) && i < n <= |src| && i % MAXCHUNK == 0
    requires f.ip < |im0.inodes| && (off0 <= im0.inodes[f.ip].size || i == 0) && f.off == off0 + i < U32
    modifies fs, f
    ensures !ok ==> !Fits(im0, f.ip, off0, n, stock)
    ensures i <= next <= n && (next % MAXCHUNK == 0 || next == n) && (next > i || refused || !ok)
    ensures ok ==> fs.Valid() && f.ip < |fs.m| && fs.Stock(f.ip) == stock && fs.history == old(fs.history) + [fs.logged] && Small(fs.logged)
    ensures ok ==> WrittenSoFar(im0, fs.Im(), f.ip, off0, f.off, src, next) && f.off == off0 + next
    ensures ok && refused ==> next == i == Accepted(im0.inodes[f.ip].size, off0, n)
    ensures ok && !refused ==> next == i + Chunk(n, i) && off0 <= im0.inodes[f.ip].size && off0 + next <= MAXFILE * BSIZE
                               && SlotsTo(im0, f.ip, off0 + next) <= stock
  {
    hide Good, GoodBut, Wrote, WrittenSoFar, Small, SlotsTo, Fits, Accepted, Refused, Chunk;
    var n1 := n - i;
    if n1 > MAXCHUNK {
      n1 := MAXCHUNK;
    }
    NextPlace(i, n);
    ghost var im1 := fs.Im();
    WrittenFacts(im0, im1, f.ip, off0, f.off, src, i);
    NextChunk(im0, im1, f.ip, off0, off0 + i, src, i, n, n1, stock);
    var r;
    ok, r := WriteChunk(fs, f, src[i..i + n1]);
    refused, next := r == -1, i;
    if ok && refused {
      LastRefused(im0, im1, f.ip, off0, i, n, n1);
    } else if ok {
      WrittenMore(im0, im1, fs.Im(), f.ip, off0, off0 + i, src, i, n1);
      next := i + r;
    }
  }

  lemma NextPlace(i: nat, n: int)
    requires i < n && i % MAXCHUNK == 0
    ensures Chunk(n, i) == (if n - i > MAXCHUNK then MAXCHUNK else n - i)
    ensures (i + Chunk(n, i)) % MAXCHUNK == 0 || i + Chunk(n, i) == n
  {}

  lemma LastRefused(im0: Image, im1: Image, ip: nat, off0: nat, i: nat, n: int, k: nat)
    requires ip < |im0.inodes| && ip < |im1.inodes| && Refused(im1, ip, off0 + i, k)
    requires i < n && i % MAXCHUNK == 0 && k == Chunk(n, i)
    requires off0 <= im0.inodes[ip].size || i == 0
    requires off0 <= im0.inodes[ip].size ==> off0 + i <= MAXFILE * BSIZE < off0 + i + k
    ensures i == Accepted(im0.inodes[ip].size, off0, n)
  {
    hide Accepted;
    AcceptedAll(im0.inodes[ip].size, off0, n);
    if off0 <= im0.inodes[ip].size {
      ChunkRefused(im0.inodes[ip].size, off0, i, n, k);
    }
  }

  /** filewrite's loop. */
  method WriteAll(fs: FileSystem, f: OpenFile, src: seq<Byte>, n: int) returns (ok: bool, i: nat)
    requires fs.Valid() && f.ip < |fs.inodes| && fs.inodes[f.ip].kind != T_DEV && f.off < U32 && n <= |src|
    modifies fs, f
    ensures ok <==> Fits(old(fs.Im()), f.ip, old(f.off), n, old(fs.Stock(f.ip)))
    ensures ok ==> f.ip < |fs.m| && fs.Stock(f.ip) == old(fs.Stock(f.ip))
    ensures ok ==> fs.Valid() && old(|fs.history|) <= |fs.history|
    ensures ok ==> forall k :: old(|fs.history|) <= k < |fs.history| ==> Small(fs.history[k])
    ensures ok ==> i == if n < 0 then 0 else Accepted(old(fs.inodes[f.ip].size), old(f.off), n)
    ensures ok ==> WrittenSoFar(old(fs.Im()), fs.Im(), f.ip, old(f.off), f.off, src, i)
  {
    hide Good, GoodBut, Wrote, WrittenSoFar, Small, SlotsTo, Fits, Accepted, Refused;
    StockStart(fs, f.ip, f.off);
    ghost var im0, off0, size0, stock := fs.Im(), f.off, fs.inodes[f.ip].size, fs.Stock(f.ip);
    AcceptedAll(size0, off0, n);
    WrittenStart(im0, fs.m, fs.owner, f.ip, off0, src);
    WrittenFacts(im0, im0, f.ip, off0, off0, src, 0);
    i, ok := 0, true;
    var refused := false;
    while ok && !refused && i < n
      invariant !ok ==> !Fits(im0, f.ip, off0, n, stock)
      invariant ok ==> f.ip < |fs.m| && fs.Stock(f.ip) == stock && (off0 <= size0 ==> SlotsTo(im0, f.ip, off0 + i) <= stock)
      invariant ok ==> fs.Valid() && WrittenSoFar(im0, fs.Im(), f.ip, off0, f.off, src, i) && f.off == off0 + i < U32
      invariant ok ==> old(|fs.history|) <= |fs.history|
                       && forall k :: old(|fs.history|) <= k < |fs.history| ==> Small(fs.history[k])
      invariant (0 <= n ==> i <= n) && (n < 0 ==> i == 0) && (i % MAXCHUNK == 0 || i == n)
      invariant ok ==> if refused then 0 <= n && i == Accepted(size0, off0, n) else i == 0 || (off0 <= size0 && off0 + i <= MAXFILE * BSIZE)
      decreases n - i, !refused, ok
    {
      WrittenFacts(im0, fs.Im(), f.ip, off0, f.off, src, i);
      ok, refused, i := WritePart(fs, f, src, n, i, im0, off0, stock);
    }
    LastChunk(im0, f.ip, off0, i, n, stock, ok);
  }
}
