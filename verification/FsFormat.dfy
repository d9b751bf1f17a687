/** The empty file system that mkfs starts from: zeroed blocks, and a bitmap that marks the metadata. */
module FsFormat {
  import opened Blocks
  import opened FsLayout
  import opened FsImage

  function Blank(sb: Super): Disk {
    seq(sb.size, i => Zero())
  }

  /** mkfs's balloc: the first n blocks marked. */
  function MarkFirst(sb: Super, d: Disk, n: nat): (r: Disk)
    requires OnDisk(sb, d) && n <= sb.size
    ensures OnDisk(sb, r)
  {
    if n == 0 then d else MarkUsed(sb, MarkFirst(sb, d, n - 1), n - 1)
  }

  lemma {:induction false} MarkFirstIs(sb: Super, d: Disk, n: nat, c: nat)
    requires OnDisk(sb, d) && n <= sb.size && c < sb.size
    ensures Used(sb, MarkFirst(sb, d, n), c) <==> c < n || Used(sb, d, c)
  {
    if n > 0 {
      MarkFirstIs(sb, d, n - 1, c);
      MarkOne(sb, MarkFirst(sb, d, n - 1), n - 1, c);
    }
  }

  /** Marking touches the bitmap blocks only. */
  lemma {:induction false} MarkFirstElsewhere(sb: Super, d: Disk, n: nat, b: nat)
    requires OnDisk(sb, d) && n <= sb.size && b < sb.bmapstart
    ensures MarkFirst(sb, d, n)[b] == d[b]
  {
    if n > 0 {
      MarkFirstElsewhere(sb, d, n - 1, b);
    }
  }

  lemma {:induction false} NoBits(k: nat)
    ensures !Bit(0, k)
  {
    if k > 0 {
      NoBits(k - 1);
    }
  }

  function NoFile(): Inode {
    Inode(0, 0, 0, 0, 0, seq(NDIRECT + 1, k => 0))
  }

  function Formatted(sb: Super): Image
    requires sb.Valid()
  {
    Image(sb, MarkFirst(sb, Blank(sb), sb.nmeta), seq(sb.ninodes, i => NoFile()))
  }

  /** The empty file system keeps every promise that the others do. */
  lemma FormattedGood(sb: Super)
    requires sb.Valid()
    ensures Good(Formatted(sb), seq(sb.ninodes, i => 0), map[])
  {
    var im := Formatted(sb);
    forall b | 0 <= b < sb.size ensures Used(sb, im.blocks, b) <==> b < sb.nmeta {
      MarkFirstIs(sb, Blank(sb), sb.nmeta, b);
      NoBits(b % 8);
    }
    forall j | 0 <= j < sb.ninodes ensures Written(sb, im.blocks, j, im.inodes[j]) {
      MarkFirstElsewhere(sb, Blank(sb), sb.nmeta, sb.IBlock(j));
      forall k | 0 <= k < 16 ensures GetWord(im.blocks[sb.IBlock(j)], j % IPB * 16 + k) == InodeWords(im.inodes[j])[k] {
        ZeroWord(Zero(), j % IPB * 16 + k);
      }
    }
  }
}
