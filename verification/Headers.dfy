/** The numbers of the model are those of the C headers. */
module Headers {
  import Param
  import Blocks
  import BufRing
  import Bio
  import FsLayout
  import FileSystem
  import File
  import PageTable
  import SharedSpaces
  import Pipe
  import ShellSyntax

  /** param.h */
  lemma Parameters()
    ensures Param.MAXOPBLOCKS == 10 && Param.LOGSIZE == 30 && BufRing.NBUF == 30 && SharedSpaces.NPROC == 64 && Bio.ROOTDEV == 1
  {}

  /** fs.h and stat.h, and the largest file and filewrite's chunk that follow from them */
  lemma DiskFormat()
    ensures Blocks.BSIZE == 512 && FsLayout.NDIRECT == 12 && FsLayout.NINDIRECT == 128 && FsLayout.IPB == 8 && FsLayout.BPB == 4096
    ensures FsLayout.MAXFILE * Blocks.BSIZE == 71680 && FileSystem.T_DEV == 3 && File.MAXCHUNK == 1536
  {}

  /** mmu.h and memlayout.h */
  lemma Paging()
    ensures PageTable.PGSIZE == 4096 && PageTable.ENTRIES == 1024 && PageTable.KERNBASE == 0x8000_0000
    ensures PageTable.PTE_P == 0x001 && PageTable.PTE_W == 0x002 && PageTable.PTE_U == 0x004
    ensures forall k :: 0 <= k < 1024 ==> PageTable.Junk()[k] == 0x0101_0101
  {}

  /** fcntl.h, sh.c and pipe.c */
  lemma UserSide()
    ensures ShellSyntax.MAXARGS == 10 && ShellSyntax.O_RDONLY == 0x000 && ShellSyntax.O_WRONLY == 0x001 && ShellSyntax.O_CREATE == 0x200
    ensures Pipe.PIPESIZE == 512
  {}
}
