/**
  File pages as mmap faults load them (src/fs.c fs_read_page, src/proc.c proc_mmap and
  the mmap branch of proc_pagefault), against the bytes that fs_read returns.
 */
module FsPages {
  import opened FsFormat
  import opened Journal
  import opened FsModel

  const PGSIZE: nat := 4096

  predicate GoodExtent(d: Disk, start: u32, size: u32) {
    size <= MAXBLK * BSIZE && start + NBlocks(size) <= |d|
  }

  function PageOf(d: Disk, start: u32, size: u32, offset: nat): (p: seq<byte>)
    requires GoodExtent(d, start, size) && offset % PGSIZE == 0
    ensures |p| == PGSIZE
  {
    seq(PGSIZE, i requires 0 <= i < PGSIZE =>
      if offset + i < size then d[start + (offset + i) / 512][(offset + i) % 512] else 0)
  }

  /** Positions inside one block share the block number. */
  lemma SameBlock(a: nat, k: nat)
    requires a % 512 == 0 && k < 512
    ensures (a + k) / 512 == a / 512 && (a + k) % 512 == k
  {
    assert a == a / 512 * 512;
  }

  lemma WholeBlocks(offset: nat, done: nat)
    requires offset % 4096 == 0 && done % 512 == 0
    ensures (offset + done) % 512 == 0
  {
    assert offset == offset / 4096 * 8 * 512 && done == done / 512 * 512;
  }

  lemma PageAt(d: Disk, start: u32, size: u32, offset: nat, t: nat)
    requires GoodExtent(d, start, size) && offset % PGSIZE == 0 && t < PGSIZE
    ensures offset + t < size ==> start + (offset + t) / 512 < |d|
    ensures PageOf(d, start, size, offset)[t] == if offset + t < size
            then d[start + (offset + t) / 512][(offset + t) % 512] else 0
  {
  }

  /** Byte t of a page lies in the block that starts at byte done of the page. */
  lemma PageByte(d: Disk, start: u32, size: u32, offset: nat, done: nat, t: nat)
    requires GoodExtent(d, start, size) && offset % PGSIZE == 0 && done % 512 == 0 && done <= t < done + 512 <= PGSIZE
    ensures offset + t < size ==> start + (offset + done) / 512 < |d|
    ensures PageOf(d, start, size, offset)[t] == if offset + t < size then d[start + (offset + done) / 512][t - done]
            else 0
  {
    hide NBlocks, PageOf, GoodExtent;
    WholeBlocks(offset, done);
    SameBlock(offset + done, t - done);
    assert offset + done + (t - done) == offset + t;
    PageAt(d, start, size, offset, t);
  }

  lemma PagePastEnd(d: Disk, start: u32, size: u32, offset: nat, t: nat)
    requires GoodExtent(d, start, size) && offset % PGSIZE == 0 && t < PGSIZE && offset + t >= size
    ensures PageOf(d, start, size, offset)[t] == 0
  {
  }
}
