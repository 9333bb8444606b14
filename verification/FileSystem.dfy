/**
  src/fs.c as the kernel runs it: static state updated in place, one block buffer, and a
  ghost trace of every block write issued, proved against the values of FsModel.
 */
module FileSystem {
  import opened FsFormat
  import opened Journal
  import opened FsModel
  import opened FsRefinement
  import opened FsPages

  /** Compares two NUL-terminated strings the way the kernel does, byte by byte. */
  method StrEq(a: seq<byte>, b: seq<byte>) returns (r: bool)
    requires 0 in a && 0 in b
    ensures r <==> CStr(a) == CStr(b)
  {
    var i := 0;
    assert a[0..] == a && b[0..] == b;
    while a[i] != 0 && b[i] != 0
      invariant 0 <= i < |a| && i < |b| && 0 in a[i..] && 0 in b[i..]
      invariant CStr(a) == CStr(b) <==> CStr(a[i..]) == CStr(b[i..])
      decreases |a| - i
    {
      assert a[i..][1..] == a[i + 1..] && b[i..][1..] == b[i + 1..];
      assert CStr(a[i..]) == [a[i]] + CStr(a[i + 1..]) && CStr(b[i..]) == [b[i]] + CStr(b[i + 1..]);
      if a[i] != b[i] {
        assert CStr(a[i..])[0] != CStr(b[i..])[0];
        return false;
      }
      assert CStr(a[i..])[1..] == CStr(a[i + 1..]) && CStr(b[i..])[1..] == CStr(b[i + 1..]);
      i := i + 1;
    }
    r := a[i] == b[i];
    assert a[i] == 0 ==> CStr(a[i..]) == [];
    assert b[i] == 0 ==> CStr(b[i..]) == [];
    assert a[i] != 0 ==> CStr(a[i..])[0] == a[i];
    assert b[i] != 0 ==> CStr(b[i..])[0] == b[i];
  }

  class FileSystem {
    const dir: array<Dirent>
    const used: array<bool>
    var nfiles: int
    var mounted: bool
    var nextFree: u32
    var total: nat
    var fsbuf: Block
    var logBlk: seq<u32>
    var logOverflow: bool
    var disk: Disk
    ghost var logData: seq<Block>
    ghost var trace: seq<Write>

    ghost predicate Shape()
      reads this
    {
      dir.Length == MAXFILES && used.Length == MAXBLK
    }

    ghost function M(): Mem
      requires Shape()
      reads this, dir, used
    {
      Mem(dir[..], nfiles, nextFree, total, used[..])
    }

    /** Between calls: once mounted, memory agrees with the disk. */
    ghost predicate Valid()
      reads this, dir, used
    {
      Shape() && (mounted ==> Consistent(M(), disk))
    }

    /** What the read path relies on. */
    ghost predicate Readable()
      reads this, dir, used
    {
      Shape() && (mounted ==> GoodDir(dir[..], nfiles, total) && total <= |disk|)
    }

    constructor (d: Disk)
      ensures Valid() && !mounted && disk == d && trace == []
      ensures fresh(dir) && fresh(used)
    {
      dir := new Dirent[MAXFILES](i => Dirent(ZeroName(), 0, 0));
      used := new bool[MAXBLK](i => false);
      nfiles, mounted, nextFree, total := 0, false, 0, 0;
      fsbuf := ZeroBlock();
      logBlk, logOverflow := [], false;
      disk := d;
      logData, trace := [], [];
    }

    // ---- block device ----

    method ReadBlock(b: nat)
      requires b < |disk|
      modifies this`fsbuf
      ensures fsbuf == disk[b]
    {
      fsbuf := disk[b];
    }

    method WriteBlock(b: nat)
      modifies this`disk, this`trace
      ensures disk == Put(old(disk), Write(b, fsbuf)) && trace == old(trace) + [Write(b, fsbuf)]
    {
      trace := trace + [Write(b, fsbuf)];
      disk := Put(disk, Write(b, fsbuf));
    }

    // ---- write-ahead log ----

    method WriteLogHeader(committed: u32, blks: seq<u32>)
      requires |blks| <= LOGN
      modifies this`fsbuf, this`disk, this`trace
      ensures var w := Write(LOGHDR, EncodeHeader(committed, blks));
              disk == Put(old(disk), w) && trace == old(trace) + [w]
    {
      fsbuf := EncodeHeader(committed, blks);
      WriteBlock(LOGHDR);
    }

    method LogBegin()
      modifies this`logBlk, this`logOverflow, this`logData
      ensures logBlk == [] && !logOverflow && logData == []
    {
      logBlk, logOverflow, logData := [], false, [];
    }

    method LogWrite(dst: u32, data: Block)
      modifies this`fsbuf, this`disk, this`trace, this`logBlk, this`logOverflow, this`logData
      ensures |old(logBlk)| >= LOGN ==>
                logOverflow && disk == old(disk) && trace == old(trace) && logBlk == old(logBlk)
                  && logData == old(logData)
      ensures |old(logBlk)| < LOGN ==>
                && logOverflow == old(logOverflow)
                && logBlk == old(logBlk) + [dst] && logData == old(logData) + [data]
                && disk == Put(old(disk), Write(LOGSTART + |old(logBlk)|, data))
                && trace == old(trace) + [Write(LOGSTART + |old(logBlk)|, data)]
    {
      if |logBlk| >= LOGN {
        logOverflow := true;
        return;
      }
      fsbuf := data;
      WriteBlock(LOGSTART + |logBlk|);
      logBlk, logData := logBlk + [dst], logData + [data];
    }

    method LogInstall(blks: seq<u32>)
      requires |blks| <= LOGN
      modifies this`fsbuf, this`disk, this`trace
      ensures disk == ApplyAll(old(disk), InstallWrites(old(disk), blks, 0))
      ensures trace == old(trace) + InstallWrites(old(disk), blks, 0)
    {
      ghost var all := InstallWrites(disk, blks, 0);
      ghost var done: seq<Write> := [];
      for i := 0 to |blks|
        invariant all == done + InstallWrites(disk, blks, i)
        invariant disk == ApplyAll(old(disk), done) && trace == old(trace) + done
      {
        ReadBlock(LOGSTART + i);
        InstallStep(old(disk), disk, done, blks, i);
        AppendAssoc(old(trace), done, [Write(blks[i], fsbuf)]);
        done := done + [Write(blks[i], fsbuf)];
        WriteBlock(blks[i]);
      }
      assert InstallWrites(disk, blks, |blks|) == [] && all == done;
    }

    /** Commits what log_write gathered; the overflow branch throws the transaction away. */
    method LogCommit()
      requires |logBlk| == |logData| <= LOGN && SafeDsts(disk, logBlk) && Logged(disk, logData)
      modifies this`fsbuf, this`disk, this`trace, this`logBlk, this`logOverflow
      ensures logBlk == []
      ensures old(logBlk) == [] || old(logOverflow) ==> disk == old(disk) && trace == old(trace)
      ensures old(logBlk) != [] && !old(logOverflow) ==>
                && disk == ApplyAll(Put(old(disk), CommitWrite(old(logBlk))), FinishPhase(old(logBlk), old(logData)))
                && trace == old(trace) + [CommitWrite(old(logBlk))] + FinishPhase(old(logBlk), old(logData))
    {
      if |logBlk| == 0 {
        return;
      }
      if logOverflow {
        logBlk, logOverflow := [], false;
        return;
      }
      WriteLogHeader(1, logBlk);
      ghost var c := disk;
      InstallReadsTheLog(c, logBlk, logData, 0);
      LogInstall(logBlk);
      assert InstallPhase(logBlk, logData)[0..] == InstallPhase(logBlk, logData);
      WriteLogHeader(0, []);
      ApplyConcat(c, InstallPhase(logBlk, logData), [CLEAR_HEADER]);
      assert ApplyAll(ApplyAll(c, InstallPhase(logBlk, logData)), [CLEAR_HEADER]) == disk;
      logBlk := [];
    }

    /** Mount-time recovery of a transaction that was committed but not fully installed. */
    method RecoverLog()
      modifies this`fsbuf, this`disk, this`trace
      ensures disk == Recover(old(disk)) && trace == old(trace) + RecoverWrites(old(disk))
    {
      ReadBlock(LOGHDR);
      var h := DecodeHeader(fsbuf);
      if h.committed == 0 {
        return;
      }
      var n := h.n;
      if n > LOGN {
        n := LOGN;
      }
      var blks := h.blk[..n];
      ghost var ins := InstallWrites(disk, blks, 0);
      LogInstall(blks);
      WriteLogHeader(0, []);
      ApplyConcat(old(disk), ins, [CLEAR_HEADER]);
      assert ApplyAll(ApplyAll(old(disk), ins), [CLEAR_HEADER]) == disk;
    }

    // ---- free-block bitmap ----

    method BuildBitmap()
      requires Shape() && nfiles <= MAXFILES
      modifies used
      ensures used[..] == Bitmap(dir[..], nfiles)
    {
      for i := 0 to MAXBLK
        invariant forall b :: 0 <= b < i ==> !used[b]
      {
        used[i] := false;
      }
      used[0], used[DIRBLOCK], used[LOGHDR] := true, true, true;
      for i := 0 to LOGN
        invariant forall b :: 0 <= b < MAXBLK ==> used[b] == (b < LOGSTART + i)
      {
        used[LOGSTART + i] := true;
      }
      ghost var d: Dir := dir[..];
      var f := 0;
      while f < nfiles
        invariant 0 <= f <= MAXFILES && (f <= nfiles || f == 0)
        invariant forall b :: 0 <= b < MAXBLK ==> used[b] == Marked(d, f, b)
      {
        MarkFile(f);
        forall b | 0 <= b < MAXBLK ensures used[b] == Marked(d, f + 1, b) {
          if g :| 0 <= g < f + 1 && Owns(d[g], b) && g != f {
            assert Owns(d[g], b);
          }
          assert Owns(dir[f], b) ==> Owns(d[f], b);
        }
        f := f + 1;
      }
      assert forall b :: 0 <= b < MAXBLK ==> Marked(d, f, b) == Marked(d, nfiles, b);
    }

    /** The inner loop of build_bitmap: sets the bits of one file's blocks, in 32-bit arithmetic. */
    method MarkFile(f: nat)
      requires Shape() && f < MAXFILES
      modifies used
      ensures forall b :: 0 <= b < MAXBLK ==> used[b] == (old(used[b]) || Owns(dir[f], b))
    {
      var nb := NBlocks(dir[f].size);
      for k := 0 to nb
        invariant forall b :: 0 <= b < MAXBLK ==> used[b] == (old(used[b]) || (b - dir[f].start) % U32 < k)
      {
        var b := (dir[f].start + k) % U32;
        ghost var before := used[..];
        if b < MAXBLK {
          used[b] := true;
        }
        forall c | 0 <= c < MAXBLK ensures used[c] == (before[c] || (c - dir[f].start) % U32 == k) {
          OffsetUnique(dir[f].start, k, c);
        }
      }
    }

    /** First fit over the bitmap: the lowest start where nblocks free blocks fit, or -1. */
    method BallocContig(nblocks: nat) returns (r: int)
      requires Shape() && DATASTART <= total <= MAXBLK
      ensures r == Alloc(M(), nblocks)
    {
      if nblocks == 0 {
        return DATASTART;
      }
      var s := DATASTART;
      while s + nblocks <= total && s + nblocks <= MAXBLK
        invariant DATASTART <= s <= total + 1
        invariant FirstFit(used[..], total, nblocks, DATASTART) == FirstFit(used[..], total, nblocks, s)
        decreases total - s
      {
        var k := 0;
        while k < nblocks && !used[s + k]
          invariant 0 <= k <= nblocks
          invariant forall b :: s <= b < s + k ==> !used[b]
        {
          k := k + 1;
        }
        if k == nblocks {
          assert Fits(used[..], nblocks, s);
          return s;
        }
        assert used[..][s + k];
        s := s + 1;
      }
      return -1;
    }

    // ---- mount ----

    method LoadDir()
      requires Shape()
      modifies dir
      ensures dir[..] == DecodeDir(fsbuf)
    {
      for i := 0 to MAXFILES
        invariant forall j :: 0 <= j < i ==> dir[j] == DecodeDirent(fsbuf, j)
      {
        dir[i] := DecodeDirent(fsbuf, i);
      }
    }

    /** fs_init: checks the magic, recovers, loads the directory and rebuilds the bitmap. */
    method FsInit()
      requires Shape()
      modifies this, dir, used
      ensures Shape()
      ensures mounted <==> old(mounted) || old(disk)[0][..4] == [0x32, 0x53, 0x46, 0x52]
      ensures old(disk)[0][..4] != [0x32, 0x53, 0x46, 0x52] ==>
                mounted == old(mounted) && M() == old(M()) && disk == old(disk) && trace == old(trace)
      ensures Mount(old(disk)).NotMounted? ==> mounted == old(mounted) && disk == old(disk) && M() == old(M())
      ensures Mount(old(disk)).Mounted? ==>
                mounted && M() == Mount(old(disk)).m && disk == Recover(old(disk))
                && trace == old(trace) + RecoverWrites(old(disk))
    {
      hide DecodeSuper, DecodeDir, Recover, RecoverWrites, Bitmap;
      MagicBytes(disk[0]);
      ReadBlock(0);
      var sb := DecodeSuper(fsbuf);
      if sb.magic != FS_MAGIC {
        return;
      }
      total := sb.total;
      if total == 0 || total > MAXBLK {
        total := MAXBLK;
      }
      RecoverLog();
      ReadBlock(0);
      sb := DecodeSuper(fsbuf);
      nfiles := if sb.nfiles >= 0x8000_0000 then sb.nfiles as int - U32 else sb.nfiles;
      if nfiles > MAXFILES {
        nfiles := MAXFILES;
      }
      nextFree := sb.nextFree;
      ReadBlock(DIRBLOCK);
      LoadDir();
      BuildBitmap();
      mounted := true;
    }

    // ---- reading ----

    /** The directory scan shared by read, stat, create and delete. */
    method Lookup(name: seq<byte>) returns (i: nat)
      requires Shape() && 0 !in name && 0 <= nfiles <= MAXFILES
      requires forall j :: 0 <= j < nfiles ==> |CStr(dir[j].name)| < NAMELEN
      ensures i == Find(M(), name)
    {
      i := 0;
      CStrOf(name, []);
      while i < nfiles
        invariant 0 <= i <= nfiles
        invariant FindFrom(dir[..], nfiles, name, 0) == FindFrom(dir[..], nfiles, name, i)
      {
        ShortHasNul(dir[i].name);
        assert name + [0] + [] == name + [0];
        var same := StrEq(dir[i].name, name + [0]);
        if same {
          return;
        }
        i := i + 1;
      }
    }

    /** fs_read copies the whole file into buf block by block, or refuses. */
    method FsRead(name: seq<byte>, buf: array<byte>, max: int) returns (r: int)
      requires Readable() && 0 !in name && max <= buf.Length && max < 0x8000_0000
      modifies this`fsbuf, buf
      ensures !mounted ==> r == -1
      ensures mounted && name !in Files(M(), disk) ==> r == -1
      ensures mounted && name in Files(M(), disk) ==>
                var bytes := Files(M(), disk)[name];
                if |bytes| > max then r == -1 else r == |bytes| && buf[..r] == bytes
      ensures forall i :: (if r < 0 then 0 else r) <= i < buf.Length ==> buf[i] == old(buf[i])
      ensures M() == old(M())
    {
      if !mounted {
        return -1;
      }
      assert forall j :: 0 <= j < nfiles ==> GoodEntry(M().dir[j], total);
      var i := Lookup(name);
      if i == nfiles {
        return -1;
      }
      FilesByEntry(M(), disk, i);
      var size := dir[i].size;
      if size > max {
        return -1;
      }
      assert GoodEntry(M().dir[i], total);
      CopyExtent(dir[i], buf);
      return size;
    }

    /** The copy loop of fs_read: one block of the device per turn. */
    method CopyExtent(e: Dirent, buf: array<byte>)
      requires GoodEntry(e, total) && total <= |disk| && e.size <= buf.Length
      modifies this`fsbuf, buf
      ensures buf[..e.size] == FileBytes(disk, e)
      ensures forall i :: e.size <= i < buf.Length ==> buf[i] == old(buf[i])
    {
      var blk, off, remaining := e.start as nat, 0, e.size as nat;
      while remaining > 0
        invariant 0 <= off && 0 <= remaining && off + remaining == e.size
        invariant remaining > 0 ==> off % 512 == 0 && blk == e.start + off / 512
        invariant forall t :: 0 <= t < off ==> buf[t] == FileBytes(disk, e)[t]
        invariant forall j :: off <= j < buf.Length ==> buf[j] == old(buf[j])
      {
        ReadBlock(blk);
        var n := if remaining > BSIZE then BSIZE else remaining;
        CopyOut(buf, off, n);
        forall t | off <= t < off + n ensures buf[t] == FileBytes(disk, e)[t] {
          assert t / 512 == off / 512 && t % 512 == t - off;
        }
        off, remaining, blk := off + n, remaining - n, blk + 1;
      }
    }

    /** Copies the first n bytes of the block buffer to buf at off. */
    method CopyOut(buf: array<byte>, off: nat, n: nat)
      requires off + n <= buf.Length && n <= BSIZE
      modifies buf
      ensures forall t :: off <= t < off + n ==> buf[t] == fsbuf[t - off]
      ensures forall t :: 0 <= t < buf.Length && !(off <= t < off + n) ==> buf[t] == old(buf[t])
    {
      for j := 0 to n
        invariant forall t :: off <= t < off + j ==> buf[t] == fsbuf[t - off]
        invariant forall t :: 0 <= t < buf.Length && !(off <= t < off + j) ==> buf[t] == old(buf[t])
      {
        buf[off + j] := fsbuf[j];
      }
    }

    method FsStat(name: seq<byte>) returns (r: int, start: u32, size: u32)
      requires Readable() && 0 !in name
      ensures r == 0 <==> mounted && name in Files(M(), disk)
      ensures r == 0 || r == -1
      ensures r == 0 ==>
                exists i :: 0 <= i < nfiles && dir[i].start == start && dir[i].size == size && CStr(dir[i].name) == name
    {
      r, start, size := -1, 0, 0;
      if !mounted {
        return;
      }
      assert forall j :: 0 <= j < nfiles ==> GoodEntry(M().dir[j], total);
      var i := Lookup(name);
      if i < nfiles {
        FilesByEntry(M(), disk, i);
        r, start, size := 0, dir[i].start, dir[i].size;
      }
    }

    /** fs_read_page: the 4096 bytes of a file from offset on, zero past its end. */
    method FsReadPage(start: u32, size: u32, offset: nat, buf: array<byte>)
      requires buf.Length == 4096 && offset % 4096 == 0 && offset < U32 - 4096
      requires GoodExtent(disk, start, size)
      modifies this`fsbuf, buf
      ensures buf[..] == PageOf(disk, start, size, offset)
    {
      hide PageOf;
      for i := 0 to 4096
        invariant forall t :: 0 <= t < i ==> buf[t] == 0
      {
        buf[i] := 0;
      }
      var blk := start + offset / BSIZE;
      var done := 0;
      ghost var page := PageOf(disk, start, size, offset);
      while done < 4096 && offset + done < size
        invariant 0 <= done <= 4096 && done % 512 == 0 && blk == start + (offset + done) / 512
        invariant forall t :: 0 <= t < done ==> buf[t] == page[t]
        invariant forall t :: done <= t < 4096 ==> buf[t] == 0
      {
        PageByte(disk, start, size, offset, done, done);
        ReadBlock(blk);
        var n := size - (offset + done);
        if n > BSIZE {
          n := BSIZE;
        }
        CopyOut(buf, done, n);
        forall t | done <= t < done + 512 ensures buf[t] == page[t] {
          PageByte(disk, start, size, offset, done, t);
        }
        done := done + BSIZE;
        blk := blk + 1;
      }
      forall t | done <= t < 4096 ensures page[t] == 0 {
        PagePastEnd(disk, start, size, offset, t);
      }
    }

    // ---- creating ----

    /** A transaction under way: the blocks gathered so far are in the log, nothing is committed. */
    ghost predicate Logging(d0: Disk, t0: seq<Write>)
      reads this
    {
      && |logBlk| == |logData| && !logOverflow
      && disk == ApplyAll(d0, LogPhase(logData)) && trace == t0 + LogPhase(logData)
    }

    /** The data loop of fs_create: each block zero padded and sent to the log. */
    method LogFileData(content: seq<byte>, start: u32, ghost d0: Disk, ghost t0: seq<Write>)
      requires BlocksFor(|content|) <= LOGN && start + BlocksFor(|content|) <= MAXBLK
      requires Logging(d0, t0) && logBlk == []
      modifies this`fsbuf, this`disk, this`trace, this`logBlk, this`logOverflow, this`logData
      ensures Logging(d0, t0)
      ensures logBlk == DataDsts(start, BlocksFor(|content|)) && logData == DataBlocks(content)
    {
      var nblocks := BlocksFor(|content|);
      for b := 0 to nblocks
        invariant Logging(d0, t0) && logBlk == DataDsts(start, b) && logData == DataBlocks(content)[..b]
      {
        var tmp := FillBlock(content, b * 512);
        LogAppend(d0, logData, tmp);
        AppendAssoc(t0, LogPhase(logData), [Write(LOGSTART + |logData|, tmp)]);
        LogWrite(start + b, tmp);
      }
    }

    /** One zero-padded block of the caller's data, from offset off. */
    method FillBlock(data: seq<byte>, off: nat) returns (tmp: Block)
      requires off % 512 == 0
      ensures tmp == PaddedBlock(data, off / 512)
    {
      var a := new byte[512](i => 0);
      var n := |data| - off;
      if n > BSIZE {
        n := BSIZE;
      }
      var j := 0;
      while j < n
        invariant 0 <= j && (j <= n || j == 0)
        invariant forall t :: 0 <= t < 512 ==> a[t] == if t < j then data[off + t] else 0
      {
        a[j] := data[off + j];
        j := j + 1;
      }
      tmp := a[..];
      assert off / 512 * 512 == off;
    }

    /** Writes the directory slot, the counters and the bitmap in place. */
    method AddEntry(name: seq<byte>, size: u32, start: u32)
      requires Shape() && 0 <= nfiles < MAXFILES && start + BlocksFor(size) <= MAXBLK
      modifies this`nfiles, this`nextFree, dir, used
      ensures M() == CreateMem(old(M()), name, size, start)
    {
      var nblocks := BlocksFor(size);
      var field := CopyName(dir[nfiles].name, name);
      dir[nfiles] := Dirent(field, size, start);
      nfiles := nfiles + 1;
      for b := 0 to nblocks
        invariant forall c :: 0 <= c < MAXBLK ==> used[c] == (old(used[c]) || start <= c < start + b)
        modifies used
      {
        used[start + b] := true;
      }
      if start + nblocks > nextFree {
        nextFree := start + nblocks;
      }
      assert used[..] == MarkExtent(old(used[..]), start, nblocks);
    }

    /** The name copy loop: at most NAMELEN - 1 bytes, then a terminator. */
    method CopyName(was: NameField, name: seq<byte>) returns (field: NameField)
      ensures field == NameInto(was, name)
    {
      field := was;
      var k := 0;
      while k < |name| && k < NAMELEN - 1
        invariant 0 <= k <= |name| && k <= NAMELEN - 1
        invariant forall t :: 0 <= t < NAMELEN ==> field[t] == if t < k then name[t] else was[t]
      {
        field := field[k := name[k]];
        k := k + 1;
      }
      field := field[k := 0];
    }

    /** log_dir and log_super, then log_commit: the end of every transaction. */
    method CommitMeta(ghost d0: Disk, ghost t0: seq<Write>)
      requires Shape() && 0 <= nfiles <= MAXFILES && total <= MAXBLK
      requires Logging(d0, t0) && |logBlk| + 2 <= LOGN && SafeDsts(d0, logBlk + MetaDsts())
      modifies this`fsbuf, this`disk, this`trace, this`logBlk, this`logOverflow, this`logData
      ensures var dsts, blocks := old(logBlk) + MetaDsts(), old(logData) + MetaBlocks(M());
              && disk == ApplyAll(d0, TxnWrites(dsts, blocks))
              && trace == t0 + TxnWrites(dsts, blocks)
    {
      hide EncodeDir, EncodeSuper, ApplyAll, CommitWrite, FinishPhase;
      ghost var db, sb := EncodeDir(dir[..]), SuperOf(M());
      LogAppend(d0, logData, db);
      LogWrite(DIRBLOCK, EncodeDir(dir[..]));
      AppendAssoc(t0, LogPhase(old(logData)), [Write(LOGSTART + |old(logData)|, db)]);
      LogAppend(d0, logData, sb);
      AppendAssoc(t0, LogPhase(logData), [Write(LOGSTART + |logData|, sb)]);
      LogWrite(0, EncodeSuper(Superblock(FS_MAGIC, nfiles, nextFree, total)));
      assert logBlk == old(logBlk) + MetaDsts() && logData == old(logData) + MetaBlocks(M());
      ghost var dsts, blocks := logBlk, logData;
      LogPhaseFills(d0, blocks, |blocks|);
      TakeAll(LogPhase(blocks));
      TakeAll(blocks);
      LogCommit();
      WholeTransaction(d0, dsts, blocks);
      AppendAssoc(t0, LogPhase(blocks), [CommitWrite(dsts)]);
      AppendAssoc(t0, LogPhase(blocks) + [CommitWrite(dsts)], FinishPhase(dsts, blocks));
    }

    /** The checks that come before fs_create touches anything: where the file goes, or -1. */
    method PlaceFile(name: seq<byte>, size: int) returns (start: int)
      requires Readable() && mounted && 0 !in name && size + 511 < 0x8000_0000
      ensures start == CreateAt(M(), name, size)
    {
      if nfiles >= MAXFILES || size < 0 {
        return -1;
      }
      assert forall j :: 0 <= j < nfiles ==> GoodEntry(M().dir[j], total);
      var i := Lookup(name);
      if i < nfiles {
        return -1;
      }
      var nblocks := BlocksFor(size);
      if nblocks + 2 > LOGN {
        return -1;
      }
      start := BallocContig(nblocks);
    }

    /** The transaction of fs_create: data to the log, directory and bitmap in memory, images, commit. */
    method CommitCreate(name: seq<byte>, content: seq<byte>, start: u32)
      requires Shape() && Creates(M(), disk, name, content) && start == CreateAt(M(), name, |content|)
      modifies this, dir, used
      ensures Shape() && mounted == old(mounted)
      ensures var t := CreateOf(old(M()), name, content);
              && M() == t.after && disk == Commit(old(disk), t)
              && trace == old(trace) + TxnWrites(t.dsts, t.blocks)
    {
      CreatePlaces(M(), disk, name, content);
      DataTxnSafe(disk, start, DataBlocks(content));
      ghost var d0, t0 := disk, trace;
      LogBegin();
      LogFileData(content, start, d0, t0);
      AddEntry(name, |content|, start);
      CommitMeta(d0, t0);
    }

    /** fs_create: 0 when the file was created by one committed transaction, -1 when nothing changed. */
    method FsCreate(name: seq<byte>, data: seq<byte>, size: int) returns (r: int)
      requires Valid() && 0 !in name && size <= |data| && size + 511 < 0x8000_0000
      modifies this, dir, used
      ensures Shape() && mounted == old(mounted) && (r == 0 || r == -1)
      ensures r == -1 <==> !mounted || CreateAt(old(M()), name, size) < 0
      ensures r == -1 ==> M() == old(M()) && disk == old(disk) && trace == old(trace)
      ensures r == 0 ==> var t := CreateOf(old(M()), name, data[..size]);
                         && M() == t.after && disk == Commit(old(disk), t)
                         && trace == old(trace) + TxnWrites(t.dsts, t.blocks)
      ensures Valid() <==> r == -1 || Stored(name) !in Names(old(M()))
      ensures r == 0 && |name| < NAMELEN ==> Valid()
    {
      if !mounted {
        return -1;
      }
      var start := PlaceFile(name, size);
      if start < 0 {
        return -1;
      }
      ghost var m, d := M(), disk;
      CommitCreate(name, data[..size], start);
      CreateConsistentIffStoredNameFree(m, d, name, data[..size]);
      if |name| < NAMELEN {
        ShortNameFree(m, d, name, data[..size]);
      }
      return 0;
    }

    // ---- deleting ----

    /** The compaction loop and the clearing of the vacated slot. */
    method RemoveSlot(idx: nat)
      requires Shape() && idx < nfiles <= MAXFILES
      modifies dir
      ensures dir[..] == RemoveEntry(old(dir[..]), nfiles, idx)
    {
      ghost var d := dir[..];
      var j := idx;
      while j < nfiles - 1
        invariant idx <= j <= nfiles - 1
        invariant forall t :: idx <= t < j ==> dir[t] == d[t + 1]
        invariant forall t :: 0 <= t < idx || j <= t < MAXFILES ==> dir[t] == d[t]
      {
        dir[j] := dir[j + 1];
        j := j + 1;
      }
      dir[nfiles - 1] := Dirent(ZeroName(), 0, 0);
    }

    /** The loop that frees a file's blocks in the bitmap. */
    method FreeFile(f: nat)
      requires Shape() && f < MAXFILES
      modifies used
      ensures used[..] == FreeExtent(old(used[..]), dir[f])
    {
      var nb := NBlocks(dir[f].size);
      for k := 0 to nb
        invariant forall b :: 0 <= b < MAXBLK ==> used[b] == (old(used[b]) && !((b - dir[f].start) % U32 < k))
      {
        var b := (dir[f].start + k) % U32;
        ghost var before := used[..];
        if b < MAXBLK {
          used[b] := false;
        }
        forall c | 0 <= c < MAXBLK ensures used[c] == (before[c] && (c - dir[f].start) % U32 != k) {
          OffsetUnique(dir[f].start, k, c);
        }
      }
    }

    method CommitDelete(idx: nat)
      requires Shape() && Ready(M(), disk) && idx < nfiles
      modifies this, dir, used
      ensures Shape() && mounted == old(mounted)
      ensures var t := DeleteTxn(old(M()), idx);
              && M() == t.after && disk == Commit(old(disk), t)
              && trace == old(trace) + TxnWrites(t.dsts, t.blocks)
    {
      ghost var d0, t0 := disk, trace;
      FreeFile(idx);
      RemoveSlot(idx);
      nfiles := nfiles - 1;
      LogBegin();
      assert Logging(d0, t0);
      DataTxnSafe(d0, DATASTART, []);
      assert DataDsts(DATASTART, 0) == [];
      CommitMeta(d0, t0);
      assert [] + MetaDsts() == MetaDsts() && [] + MetaBlocks(M()) == MetaBlocks(M());
    }

    /** fs_delete: 0 when the file was removed by one committed transaction, -1 when there is none. */
    method FsDelete(name: seq<byte>) returns (r: int)
      requires Valid() && 0 !in name
      modifies this, dir, used
      ensures Valid() && mounted == old(mounted) && (r == 0 || r == -1)
      ensures r == -1 <==> !mounted || Find(old(M()), name) == old(nfiles)
      ensures r == -1 ==> M() == old(M()) && disk == old(disk) && trace == old(trace)
      ensures r == 0 ==> var t := DeleteTxn(old(M()), Find(old(M()), name));
                         && M() == t.after && disk == Commit(old(disk), t)
                         && trace == old(trace) + TxnWrites(t.dsts, t.blocks)
    {
      if !mounted {
        return -1;
      }
      assert forall j :: 0 <= j < nfiles ==> GoodEntry(M().dir[j], total);
      var idx := Lookup(name);
      if idx == nfiles {
        return -1;
      }
      DeleteConsistent(M(), disk, idx);
      CommitDelete(idx);
      return 0;
    }
  }

  /** Only one block is k past start, modulo 2^32. */
  lemma OffsetUnique(start: u32, k: nat, c: u32)
    requires k < U32
    ensures (c - start) % U32 == k <==> c == (start + k) % U32
  {
    assert (c - start) % U32 == if c >= start then c - start else c - start + U32;
    assert (start + k) % U32 == if start + k < U32 then start + k else start + k - U32;
  }

  lemma {:induction false} ShortHasNul(f: seq<byte>)
    requires |CStr(f)| < |f|
    ensures 0 in f
  {
    if f[0] != 0 {
      ShortHasNul(f[1..]);
    }
  }
}
