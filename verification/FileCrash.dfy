/** file.c over log.c: what a crash at any instant of a filewrite of many transactions leaves. One
    process runs at a time. */
module FileCrash {
  import opened Param
  import opened Blocks
  import opened LogFormat
  import opened LogCore
  import opened LogCode
  import opened FsLayout
  import opened FsImage
  import opened FsWrite
  import opened FsHealth
  import opened FileSystem
  import opened File
  import opened Transaction

  /** Recovery from disk d finds the files of im0, but file i with the first c bytes of src at off. */
  ghost predicate HasPart(l: Layout, sb: Super, d: Disk, im0: Image, i: nat, off: nat, src: seq<Byte>, c: nat) {
    && GoodDisk(l, d) && i < |im0.inodes| && c <= |src|
    && if off > im0.inodes[i].size then c == 0 && HasFiles(sb, Recovered(l, d), im0)
       else HealthyDisk(sb, Recovered(l, d)) && Wrote(im0, OnDiskImage(sb, Recovered(l, d)), i, off, src[..c])
  }

  /** And those c bytes are all of src or whole transactions of it. */
  ghost predicate HasChunks(l: Layout, sb: Super, d: Disk, im0: Image, i: nat, off: nat, src: seq<Byte>) {
    exists c: nat :: HasPart(l, sb, d, im0, i, off, src, c) && (c % MAXCHUNK == 0 || c == |src|)
  }

  lemma PartNow(l: Layout, sb: Super, d: Disk, im0: Image, im: Image, i: nat, off: nat, src: seq<Byte>, c: nat)
    requires GoodDisk(l, d) && HasFiles(sb, Recovered(l, d), im) && im.sb == sb && WrittenSoFar(im0, im, i, off, off + c, src, c)
    ensures HasPart(l, sb, d, im0, i, off, src, c)
  {
    hide GoodDisk, Recovered, Content, HealthyDisk;
    HealthyShape(sb, Recovered(l, d));
  }

  /** The instants of one transaction. */
  lemma PathChunks(l: Layout, sb: Super, path: seq<Core>, im0: Image, im1: Image, im2: Image, i: nat, off: nat, src: seq<Byte>, c: nat, c': nat)
    requires Survives(l, sb, path, im1, im2) && im1.sb == sb && im2.sb == sb
    requires WrittenSoFar(im0, im1, i, off, off + c, src, c) && WrittenSoFar(im0, im2, i, off, off + c', src, c')
    requires (c % MAXCHUNK == 0 || c == |src|) && (c' % MAXCHUNK == 0 || c' == |src|)
    ensures forall k :: 0 <= k < |path| ==> HasChunks(l, sb, path[k].disk, im0, i, off, src)
  {
    hide GoodDisk, HasFiles, WrittenSoFar, HasPart, Recovered;
    forall k | 0 <= k < |path| ensures HasChunks(l, sb, path[k].disk, im0, i, off, src) {
      if BeforeHead(path[k].phase) {
        PartNow(l, sb, path[k].disk, im0, im1, i, off, src, c);
      } else {
        PartNow(l, sb, path[k].disk, im0, im2, i, off, src, c');
      }
    }
  }

  lemma IdleFiles(log: LogSystem, fs: FileSystem)
    requires Mounted(log, fs)
    ensures GoodDisk(log.l, log.disk) && HasFiles(fs.sb, Recovered(log.l, log.disk), fs.Im())
  {
    hide CoreInv, Good, HasFiles;
    CrashNow(log.l, fs.sb, log.Here(), fs.Im(), fs.blocks, fs.m, fs.owner);
  }

  /** One round of filewrite's loop. */
  method WriteNext(log: LogSystem, fs: FileSystem, f: OpenFile, src: seq<Byte>, i: nat, ghost im0: Image, ghost off0: nat)
      returns (ok: bool, refused: bool, next: nat, ghost disks: seq<Disk>)
    requires Mounted(log, fs) && f.ip < |fs.inodes| && fs.inodes[f.ip].kind != T_DEV && i < |src| && i % MAXCHUNK == 0
    requires WrittenSoFar(im0, fs.Im(), f.ip, off0, f.off, src, i) && f.off == off0 + i < U32 && im0.sb == fs.sb
    requires f.ip < |im0.inodes| && (i == 0 || (off0 <= im0.inodes[f.ip].size && off0 + i <= MAXFILE * BSIZE))
    modifies log, log.block, fs, f
    ensures forall k :: 0 <= k < |disks| ==> HasChunks(log.l, fs.sb, disks[k], im0, f.ip, off0, src)
    ensures disks != [] && disks[|disks| - 1] == log.disk
    ensures i <= next <= |src| && (next % MAXCHUNK == 0 || next == |src|) && (next > i || refused || !ok)
    ensures ok ==> Mounted(log, fs) && WrittenSoFar(im0, fs.Im(), f.ip, off0, f.off, src, next) && f.off == off0 + next < U32
    ensures ok && refused ==> next == i == Accepted(im0.inodes[f.ip].size, off0, |src|)
    ensures ok && !refused ==> off0 <= im0.inodes[f.ip].size && off0 + next <= MAXFILE * BSIZE
  {
    hide Mounted, Survives, HasFiles, HasChunks, WrittenSoFar, Wrote, GoodDisk, Recovered, Accepted, SlotsTo;
    var n1 := |src| - i;
    if n1 > MAXCHUNK {
      n1 := MAXCHUNK;
    }
    NextPlace(i, |src|);
    ghost var im1 := fs.Im();
    WrittenFacts(im0, im1, f.ip, off0, f.off, src, i);
    NextChunk(im0, im1, f.ip, off0, off0 + i, src, i, |src|, n1, 0);
    var r;
    ok, r := Write(log, fs, f.ip, src[i..i + n1], f.off);
    refused, next := r == -1, i;
    if !ok {
      disks := [log.disk];
      ChunksNow(log.l, fs.sb, log.disk, im0, im1, f.ip, off0, src, i);
      return;
    }
    if refused {
      RefusedNow(im0, im1, f.ip, off0, i, |src|, n1);
    } else {
      f.off := Wrap(f.off + r);
      WrittenMore(im0, im1, fs.Im(), f.ip, off0, off0 + i, src, i, n1);
      next := i + r;
    }
    disks := Instants(log, fs, im0, im1, f.ip, off0, src, i, next);
  }

  lemma Instants(log: LogSystem, fs: FileSystem, im0: Image, im1: Image, ip: nat, off0: nat, src: seq<Byte>, c: nat, c': nat)
      returns (disks: seq<Disk>)
    requires Mounted(log, fs) && Survives(log.l, fs.sb, log.path, im1, fs.Im()) && im1.sb == fs.sb
    requires WrittenSoFar(im0, im1, ip, off0, off0 + c, src, c) && WrittenSoFar(im0, fs.Im(), ip, off0, off0 + c', src, c')
    requires (c % MAXCHUNK == 0 || c == |src|) && (c' % MAXCHUNK == 0 || c' == |src|)
    ensures forall k :: 0 <= k < |disks| ==> HasChunks(log.l, fs.sb, disks[k], im0, ip, off0, src)
    ensures disks != [] && disks[|disks| - 1] == log.disk
  {
    hide Mounted, Survives, HasFiles, HasChunks, WrittenSoFar, GoodDisk, Recovered;
    PathChunks(log.l, fs.sb, log.path, im0, im1, fs.Im(), ip, off0, src, c, c');
    IdleFiles(log, fs);
    ChunksNow(log.l, fs.sb, log.disk, im0, fs.Im(), ip, off0, src, c');
    var path := log.path;
    disks := seq(|path|, k requires 0 <= k < |path| => path[k].disk) + [log.disk];
  }

  lemma ChunksNow(l: Layout, sb: Super, d: Disk, im0: Image, im: Image, i: nat, off: nat, src: seq<Byte>, c: nat)
    requires GoodDisk(l, d) && HasFiles(sb, Recovered(l, d), im) && im.sb == sb && WrittenSoFar(im0, im, i, off, off + c, src, c)
    requires c % MAXCHUNK == 0 || c == |src|
    ensures HasChunks(l, sb, d, im0, i, off, src)
  {
    hide GoodDisk, HasFiles, WrittenSoFar, HasPart, Recovered;
    PartNow(l, sb, d, im0, im, i, off, src, c);
  }

  lemma RefusedNow(im0: Image, im1: Image, ip: nat, off0: nat, i: nat, n: int, k: nat)
    requires ip < |im0.inodes| && ip < |im1.inodes| && Refused(im1, ip, off0 + i, k) && i < n && i % MAXCHUNK == 0 && k == Chunk(n, i)
    requires i == 0 || (off0 <= im0.inodes[ip].size && off0 + i <= MAXFILE * BSIZE)
    requires off0 <= im0.inodes[ip].size ==> off0 + i <= MAXFILE * BSIZE < off0 + i + k
    ensures i == Accepted(im0.inodes[ip].size, off0, n)
  {
    LastRefused(im0, im1, ip, off0, i, n, k);
  }

  /** filewrite of src at the file's offset. The disks are those that its writes leave one after the
      other: each, found after a crash, has whole transactions of src, and no other file is changed. */
  method WriteFile(log: LogSystem, fs: FileSystem, f: OpenFile, src: seq<Byte>) returns (ok: bool, r: int, ghost disks: seq<Disk>)
    requires Mounted(log, fs) && f.ip < |fs.inodes| && fs.inodes[f.ip].kind != T_DEV && f.writable && f.off < U32
    modifies log, log.block, fs, f
    ensures forall k :: 0 <= k < |disks| ==> HasChunks(log.l, fs.sb, disks[k], old(fs.Im()), f.ip, old(f.off), src)
    ensures disks != [] && disks[0] == old(log.disk) && disks[|disks| - 1] == log.disk
    ensures ok ==>
              var c := Accepted(old(fs.inodes[f.ip].size), old(f.off), |src|);
              && Mounted(log, fs) && r == (if c == |src| then |src| else -1) && f.off == old(f.off) + c
              && HasPart(log.l, fs.sb, log.disk, old(fs.Im()), f.ip, old(f.off), src, c)
  {
    hide Mounted, Survives, HasFiles, HasChunks, HasPart, WrittenSoFar, Wrote, GoodDisk, Recovered, Refused, Accepted;
    ghost var im0, off0, size0 := fs.Im(), f.off, fs.inodes[f.ip].size;
    AcceptedAll(size0, off0, |src|);
    FirstFacts(log, fs, f, src);
    disks := [log.disk];
    var i, refused := 0, false;
    ok := true;
    while ok && !refused && i < |src|
      invariant forall k :: 0 <= k < |disks| ==> HasChunks(log.l, fs.sb, disks[k], im0, f.ip, off0, src)
      invariant disks != [] && disks[0] == old(log.disk) && disks[|disks| - 1] == log.disk
      invariant ok ==> Mounted(log, fs) && WrittenSoFar(im0, fs.Im(), f.ip, off0, f.off, src, i) && f.off == off0 + i < U32
      invariant i <= |src| && (i % MAXCHUNK == 0 || i == |src|)
      invariant ok ==> if refused then i == Accepted(size0, off0, |src|) else i == 0 || (off0 <= size0 && off0 + i <= MAXFILE * BSIZE)
      decreases |src| - i, !refused, ok
    {
      WrittenFacts(im0, fs.Im(), f.ip, off0, f.off, src, i);
      ghost var more;
      ok, refused, i, more := WriteNext(log, fs, f, src, i, im0, off0);
      disks := disks + more;
    }
    if ok {
      IdleFiles(log, fs);
      PartNow(log.l, fs.sb, log.disk, im0, fs.Im(), f.ip, off0, src, i);
    }
    r := if i == |src| then |src| else -1;
  }

  lemma FirstFacts(log: LogSystem, fs: FileSystem, f: OpenFile, src: seq<Byte>)
    requires Mounted(log, fs) && f.ip < |fs.inodes|
    ensures WrittenSoFar(fs.Im(), fs.Im(), f.ip, f.off, f.off, src, 0)
    ensures HasChunks(log.l, fs.sb, log.disk, fs.Im(), f.ip, f.off, src)
  {
    hide Good, CoreInv, HasFiles, HasChunks, WrittenSoFar, GoodDisk, Recovered;
    WrittenStart(fs.Im(), fs.m, fs.owner, f.ip, f.off, src);
    IdleFiles(log, fs);
    ChunksNow(log.l, fs.sb, log.disk, fs.Im(), fs.Im(), f.ip, f.off, src, 0);
  }
}
