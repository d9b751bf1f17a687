/** The on-disk redo log: its header block, and what recovery makes of a disk that holds one. */
module LogFormat {
  import opened Param
  import opened Blocks

  /** The superblock's logstart and nlog, and the number of blocks on the disk. */
  datatype Layout = Layout(start: nat, size: nat, disksize: nat) {
    ghost predicate Valid() {
      1 <= size && start + size <= disksize <= U32
    }

    /** A block that is not part of the log. */
    predicate Home(b: nat) {
      b < disksize && !(start <= b < start + size)
    }

    /** Home blocks, few enough for the header. */
    ghost predicate Names(lh: seq<nat>) {
      |lh| <= LOGSIZE && forall i :: 0 <= i < |lh| ==> Home(lh[i])
    }

    /** Home blocks, few enough for the log blocks behind the header as well. */
    ghost predicate Fits(lh: seq<nat>) {
      Names(lh) && |lh| < size
    }
  }

  function PutBlocks(hdr: Block, lh: seq<nat>): Block
    requires |lh| < 127 && forall i :: 0 <= i < |lh| ==> lh[i] < U32
  {
    if lh == [] then hdr else PutWord(PutBlocks(hdr, lh[..|lh| - 1]), |lh|, lh[|lh| - 1])
  }

  /** The header block once write_head has stored n and the first n block numbers over it. */
  function PutHead(hdr: Block, lh: seq<nat>): Block
    requires |lh| < 127 && forall i :: 0 <= i < |lh| ==> lh[i] < U32
  {
    PutBlocks(PutWord(hdr, 0, |lh|), lh)
  }

  /** The block numbers a header block names. */
  function HeadOf(hdr: Block): seq<nat>
    requires GetWord(hdr, 0) < 127
  {
    seq(GetWord(hdr, 0), i requires 0 <= i < GetWord(hdr, 0) => GetWord(hdr, i + 1))
  }

  lemma {:induction false} PutBlocksWords(hdr: Block, lh: seq<nat>, j: nat)
    requires |lh| < 127 && j < 128 && forall i :: 0 <= i < |lh| ==> lh[i] < U32
    ensures GetWord(PutBlocks(hdr, lh), j) == if 1 <= j <= |lh| then lh[j - 1] else GetWord(hdr, j)
  {
    if lh != [] {
      PutBlocksWords(hdr, lh[..|lh| - 1], j);
      GetPut(PutBlocks(hdr, lh[..|lh| - 1]), |lh|, lh[|lh| - 1], j);
    }
  }

  lemma {:induction false} BlocksBytes(hdr: Block, lh: seq<nat>, o: nat)
    requires |lh| < 127 && o < 512 && forall i :: 0 <= i < |lh| ==> lh[i] < U32
    ensures PutBlocks(hdr, lh)[o] == if 4 <= o < 4 + 4 * |lh| then ByteOf(lh[(o - 4) / 4], o % 4) else hdr[o]
  {
    hide ByteOf, PutWord;
    if lh != [] {
      var n := |lh| - 1;
      BlocksBytes(hdr, lh[..n], o);
      PutBytes(PutBlocks(hdr, lh[..n]), |lh|, lh[n], o);
    }
  }

  /** Where the header is in its block: how many blocks are logged, and then their numbers. */
  lemma HeadBytes(hdr: Block, lh: seq<nat>, o: nat)
    requires |lh| < 127 && o < 512 && forall i :: 0 <= i < |lh| ==> lh[i] < U32
    ensures PutHead(hdr, lh)[o] == if o < 4 then ByteOf(|lh|, o) else if o < 4 + 4 * |lh| then ByteOf(lh[(o - 4) / 4], o % 4) else hdr[o]
  {
    hide ByteOf, PutWord, PutBlocks;
    BlocksBytes(PutWord(hdr, 0, |lh|), lh, o);
    PutBytes(hdr, 0, |lh|, o);
  }

  /** The header reads back as it was written. */
  lemma HeadRoundTrip(hdr: Block, lh: seq<nat>)
    requires |lh| < 127 && forall i :: 0 <= i < |lh| ==> lh[i] < U32
    ensures GetWord(PutHead(hdr, lh), 0) == |lh|
    ensures HeadOf(PutHead(hdr, lh)) == lh
  {
    var h := PutWord(hdr, 0, |lh|);
    GetPut(hdr, 0, |lh|, 0);
    PutBlocksWords(h, lh, 0);
    forall i | 0 <= i < |lh|
      ensures HeadOf(PutHead(hdr, lh))[i] == lh[i]
    {
      PutBlocksWords(h, lh, i + 1);
    }
  }

  ghost predicate GoodDisk(l: Layout, d: Disk) {
    && l.Valid()
    && |d| == l.disksize
    && GetWord(d[l.start], 0) < 127
    && l.Fits(HeadOf(d[l.start]))
  }

  /** The first k log blocks copied to their home locations. */
  function Install(l: Layout, d: Disk, lh: seq<nat>, k: nat): (r: Disk)
    requires k <= |lh| && l.start + |lh| < |d| && forall i :: 0 <= i < |lh| ==> lh[i] < |d|
    ensures |r| == |d|
  {
    if k == 0 then d
    else var e := Install(l, d, lh, k - 1); e[lh[k - 1] := e[l.start + k]]
  }

  /** The disk that a recovery which is not interrupted leaves. */
  function Recovered(l: Layout, d: Disk): Disk
    requires GoodDisk(l, d)
  {
    var lh := HeadOf(d[l.start]);
    var e := Install(l, d, lh, |lh|);
    e[l.start := PutHead(e[l.start], [])]
  }

  /** Installing touches only the named blocks; in particular it leaves the log alone. */
  lemma {:induction false} InstallElsewhere(l: Layout, d: Disk, lh: seq<nat>, k: nat, b: nat)
    requires l.Valid() && |d| == l.disksize && l.Fits(lh) && k <= |lh|
    requires b < |d| && b !in lh[..k]
    ensures Install(l, d, lh, k)[b] == d[b]
  {
    if k > 0 {
      assert lh[..k] == lh[..k - 1] + [lh[k - 1]];
      InstallElsewhere(l, d, lh, k - 1, b);
    }
  }

  lemma {:induction false} InstallLogBlock(l: Layout, d: Disk, lh: seq<nat>, k: nat, b: nat)
    requires l.Valid() && |d| == l.disksize && l.Fits(lh) && k <= |lh|
    requires l.start <= b < l.start + l.size
    ensures Install(l, d, lh, k)[b] == d[b]
  {
    assert !l.Home(b);
    InstallElsewhere(l, d, lh, k, b);
  }

  /** A home block whose log copies all hold v holds v once it is installed. */
  lemma {:induction false} InstallValue(l: Layout, d: Disk, lh: seq<nat>, k: nat, b: nat, v: Block)
    requires l.Valid() && |d| == l.disksize && l.Fits(lh) && k <= |lh|
    requires b in lh[..k] && forall i :: 0 <= i < k && lh[i] == b ==> d[l.start + 1 + i] == v
    ensures Install(l, d, lh, k)[b] == v
  {
    if b == lh[k - 1] {
      InstallLogBlock(l, d, lh, k - 1, l.start + k);
      assert d[l.start + 1 + (k - 1)] == v;
    } else {
      assert lh[..k] == lh[..k - 1] + [lh[k - 1]];
      InstallValue(l, d, lh, k - 1, b, v);
    }
  }

  /** Disks that differ only in blocks the log names become one once enough of it is installed. */
  lemma {:induction false} InstallAgree(l: Layout, d: Disk, e: Disk, lh: seq<nat>, k: nat, b: nat)
    requires l.Valid() && |d| == |e| == l.disksize && l.Fits(lh) && k <= |lh| && b < |d|
    requires forall c :: 0 <= c < |d| && c !in lh ==> d[c] == e[c]
    requires b in lh[..k] || b !in lh
    ensures Install(l, d, lh, k)[b] == Install(l, e, lh, k)[b]
  {
    if k > 0 {
      assert lh[..k] == lh[..k - 1] + [lh[k - 1]];
      if b == lh[k - 1] {
        InstallLogBlock(l, d, lh, k - 1, l.start + k);
        InstallLogBlock(l, e, lh, k - 1, l.start + k);
        assert !l.Home(l.start + k);
      } else {
        InstallAgree(l, d, e, lh, k - 1, b);
      }
    }
  }

  /** Crash stability: whatever the home blocks named by a committed log hold, recovery ends in the same disk. */
  lemma RecoveredAgree(l: Layout, d: Disk, e: Disk)
    requires GoodDisk(l, d) && |e| == |d|
    requires forall c :: 0 <= c < |d| && c !in HeadOf(d[l.start]) ==> d[c] == e[c]
    ensures GoodDisk(l, e) && Recovered(l, d) == Recovered(l, e)
  {
    var lh := HeadOf(d[l.start]);
    assert !l.Home(l.start);
    assert lh[..|lh|] == lh;
    forall b | 0 <= b < |d| ensures Install(l, d, lh, |lh|)[b] == Install(l, e, lh, |lh|)[b] {
      InstallAgree(l, d, e, lh, |lh|, b);
    }
    assert Install(l, d, lh, |lh|) == Install(l, e, lh, |lh|);
  }

  /** One more block installed: the prefix installed so far stays in place. */
  lemma InstallOneMore(l: Layout, d: Disk, lh: seq<nat>, t: nat)
    requires l.Valid() && |d| == l.disksize && l.Fits(lh) && t < |lh|
    requires Install(l, d, lh, t) == d
    ensures var e := d[lh[t] := d[l.start + t + 1]]; Install(l, e, lh, t + 1) == e
  {
    var e := d[lh[t] := d[l.start + t + 1]];
    var r := Install(l, e, lh, t);
    InstallLogBlock(l, e, lh, t, l.start + t + 1);
    assert !l.Home(l.start + t + 1);
    forall b | 0 <= b < |d| && b != lh[t] ensures r[b] == e[b] {
      if b in lh[..t] {
        InstallSame(l, d, e, lh, t, b, lh[t]);
      } else {
        InstallElsewhere(l, e, lh, t, b);
      }
    }
    assert Install(l, e, lh, t + 1) == e;
  }

  lemma {:induction false} InstallSame(l: Layout, d: Disk, e: Disk, lh: seq<nat>, k: nat, b: nat, x: nat)
    requires l.Valid() && |d| == |e| == l.disksize && l.Fits(lh) && k <= |lh| && b < |d| && b != x && l.Home(x)
    requires forall c :: 0 <= c < |d| && c != x ==> d[c] == e[c]
    ensures Install(l, d, lh, k)[b] == Install(l, e, lh, k)[b]
  {
    if k > 0 {
      InstallSame(l, d, e, lh, k - 1, b, x);
      InstallSame(l, d, e, lh, k - 1, l.start + k, x);
    }
  }

  /** Erasing a disk's header, and what recovery makes of a disk with no transaction in it. */
  lemma RecoveredErased(l: Layout, d: Disk, hdr: Block)
    requires l.Valid() && |d| == l.disksize && d[l.start] == PutHead(hdr, [])
    ensures GoodDisk(l, d) && HeadOf(d[l.start]) == [] && Recovered(l, d) == d
  {
    HeadRoundTrip(hdr, []);
    PutGet(d[l.start], 0);
  }

  /** Recovery is idempotent, keeps every block the log does not name, and leaves the header empty. */
  lemma RecoveredFacts(l: Layout, d: Disk)
    requires GoodDisk(l, d)
    ensures GoodDisk(l, Recovered(l, d)) && HeadOf(Recovered(l, d)[l.start]) == []
    ensures Recovered(l, Recovered(l, d)) == Recovered(l, d)
    ensures forall b :: 0 <= b < |d| && b != l.start && b !in HeadOf(d[l.start]) ==> Recovered(l, d)[b] == d[b]
  {
    var lh := HeadOf(d[l.start]);
    var e := Install(l, d, lh, |lh|);
    assert lh[..|lh|] == lh;
    RecoveredErased(l, Recovered(l, d), e[l.start]);
    forall b | 0 <= b < |d| && b !in lh ensures e[b] == d[b] {
      InstallElsewhere(l, d, lh, |lh|, b);
    }
  }
}
